/** Insertion-ordered tables bounded by recency: the order of last use, and what falls off its old end. */
module Lru {
  import opened Text

  /** One entry of an ordered dictionary; the table lists them oldest first. */
  datatype Slot<K, V> = Slot(key: K, value: V)

  predicate Has<K(==), V>(d: seq<Slot<K, V>>, k: K) { exists i | 0 <= i < |d| :: d[i].key == k }

  predicate Unique<K(==), V>(d: seq<Slot<K, V>>) {
    forall i, j | 0 <= i < j < |d| :: d[i].key != d[j].key
  }

  function Lookup<K(==), V>(d: seq<Slot<K, V>>, k: K): Option<V> {
    if d == [] then None else if d[0].key == k then Some(d[0].value) else Lookup(d[1..], k)
  }

  /** The table with one key taken out. */
  function Without<K(==), V>(d: seq<Slot<K, V>>, k: K): seq<Slot<K, V>> {
    if d == [] then [] else if d[0].key == k then Without(d[1..], k) else [d[0]] + Without(d[1..], k)
  }

  /** The newest `cap` entries. */
  function Trim<K, V>(d: seq<Slot<K, V>>, cap: nat): (r: seq<Slot<K, V>>)
    ensures |r| <= cap
  {
    if |d| > cap then d[|d| - cap..] else d
  }

  /** A use: the entry goes to the new end, and the oldest fall off. */
  function Use<K(==), V>(d: seq<Slot<K, V>>, k: K, v: V, cap: nat): seq<Slot<K, V>> {
    Trim(Without(d, k) + [Slot(k, v)], cap)
  }

  // ------------------------------------------------------------ taking a key out

  lemma WithoutCons<K, V>(x: Slot<K, V>, d: seq<Slot<K, V>>, k: K)
    ensures Without([x] + d, k) == if x.key == k then Without(d, k) else [x] + Without(d, k)
  {
    assert ([x] + d)[1..] == d;
  }

  lemma WithoutNothing<K, V>(k: K)
    ensures Without<K, V>([], k) == []
  {
  }

  lemma {:induction false} WithoutAppend<K, V>(a: seq<Slot<K, V>>, b: seq<Slot<K, V>>, k: K)
    ensures Without(a + b, k) == Without(a, k) + Without(b, k)
  {
    hide Without;
    if a == [] {
      WithoutNothing<K, V>(k);
      assert a + b == b;
    } else {
      WithoutAppend(a[1..], b, k);
      WithoutCons(a[0], a[1..], k);
      WithoutCons(a[0], a[1..] + b, k);
      assert a == [a[0]] + a[1..] && a + b == [a[0]] + (a[1..] + b);
    }
  }

  lemma {:induction false} WithoutAbsent<K, V>(d: seq<Slot<K, V>>, k: K)
    requires !Has(d, k)
    ensures Without(d, k) == d
  {
    if d != [] {
      assert !Has(d[1..], k) by { HasTail(d, k); }
      WithoutAbsent(d[1..], k);
    }
  }

  lemma HasTail<K, V>(d: seq<Slot<K, V>>, k: K)
    requires d != []
    ensures Has(d, k) <==> d[0].key == k || Has(d[1..], k)
  {
    if Has(d, k) && d[0].key != k {
      var i :| 0 <= i < |d| && d[i].key == k;
      assert d[1..][i - 1].key == k;
    }
    if Has(d[1..], k) {
      var i :| 0 <= i < |d[1..]| && d[1..][i].key == k;
      assert d[i + 1].key == k;
    }
  }

  lemma OthersLack<K, V>(d: seq<Slot<K, V>>, i: nat)
    requires Unique(d) && i < |d|
    ensures !Has(d[..i], d[i].key) && !Has(d[i + 1..], d[i].key)
  {
  }

  lemma Cut<T>(d: seq<T>, i: nat)
    requires i < |d|
    ensures d == d[..i] + ([d[i]] + d[i + 1..])
  {
  }

  lemma WithoutAt<K, V>(d: seq<Slot<K, V>>, i: nat)
    requires Unique(d) && i < |d|
    ensures Without(d, d[i].key) == d[..i] + d[i + 1..]
  {
    OthersLack(d, i);
    hide Has, Unique, Without;
    var k, a, b := d[i].key, d[..i], d[i + 1..];
    WithoutAbsent(a, k);
    WithoutAbsent(b, k);
    Cut(d, i);
    WithoutAppend(a, [d[i]] + b, k);
    WithoutCons(d[i], b, k);
  }

  lemma UniqueTail<K, V>(d: seq<Slot<K, V>>, n: nat)
    requires Unique(d) && n <= |d|
    ensures Unique(d[n..])
  {
    var b := d[n..];
    forall i, j | 0 <= i < j < |b| ensures b[i].key != b[j].key { assert d[n + i].key != d[n + j].key; }
  }

  lemma TrimmedTail<K, V>(a: seq<Slot<K, V>>, b: seq<Slot<K, V>>, cap: nat)
    requires |b| >= cap
    ensures Trim(a + b, cap) == Trim(b, cap)
  {
    assert (a + b)[|a + b| - cap..] == b[|b| - cap..];
  }

  lemma UsedLength<K, V>(b: seq<Slot<K, V>>, k: K)
    requires Unique(b)
    ensures |Without(b, k)| == if Has(b, k) then |b| - 1 else |b|
  {
    if Has(b, k) {
      var i :| 0 <= i < |b| && b[i].key == k;
      WithoutAt(b, i);
    } else {
      WithoutAbsent(b, k);
    }
  }

  /** Using a key of a trimmed table is trimming the table it was used in. */
  lemma UseTrimmed<K, V>(d: seq<Slot<K, V>>, k: K, v: V, cap: nat)
    requires Unique(d) && cap >= 1
    ensures Use(Trim(d, cap), k, v, cap) == Use(d, k, v, cap)
  {
    hide Has, Unique, Without;
    if |d| > cap {
      var n := |d| - cap;
      var a, b, end := d[..n], d[n..], [Slot(k, v)];
      assert d == a + b;
      UniqueTail(d, n);
      WithoutAppend(a, b, k);
      UsedLength(b, k);
      Regroup3(Without(a, k), Without(b, k), end);
      TrimmedTail(Without(a, k), Without(b, k) + end, cap);
    }
  }

  /** A use keeps keys distinct, and adds at most the key used. */
  lemma UniqueUse<K, V>(d: seq<Slot<K, V>>, k: K, v: V)
    requires Unique(d)
    ensures Unique(Without(d, k) + [Slot(k, v)])
  {
    if Has(d, k) {
      var i :| 0 <= i < |d| && d[i].key == k;
      WithoutAt(d, i);
    } else {
      WithoutAbsent(d, k);
    }
  }

  lemma {:induction false} WithoutHas<K, V>(d: seq<Slot<K, V>>, k: K, x: K)
    ensures Has(Without(d, k), x) <==> x != k && Has(d, x)
  {
    hide Has;
    if d == [] {
      NothingHas<K, V>(x);
    } else {
      WithoutHas(d[1..], k, x);
      HasTail(d, x);
      if d[0].key != k {
        HasTail([d[0]] + Without(d[1..], k), x);
        assert ([d[0]] + Without(d[1..], k))[1..] == Without(d[1..], k);
      }
    }
  }

  lemma NothingHas<K, V>(k: K)
    ensures !Has<K, V>([], k)
  {
  }

  /** A key looked up is found where it stands. */
  lemma {:induction false} LookupAt<K, V>(d: seq<Slot<K, V>>, k: K)
    ensures Lookup(d, k).Some? <==> Has(d, k)
    ensures Lookup(d, k).Some? ==> Slot(k, Lookup(d, k).value) in d
  {
    hide Has;
    if d == [] {
      NothingHas<K, V>(k);
    } else {
      HasTail(d, k);
      LookupAt(d[1..], k);
    }
  }
}
