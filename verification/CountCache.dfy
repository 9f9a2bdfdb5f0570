/** A token counter's answers remembered for the texts that keep coming back. */
module CountCache {
  import opened Bands
  import opened Lru

  /** The last place a text was counted, -1 when it never was. */
  function LastUse(history: seq<string>, t: string): (i: int)
    ensures -1 <= i < |history|
    ensures i >= 0 ==> history[i] == t
    ensures forall k | i < k < |history| :: history[k] != t
  {
    if history == [] then -1
    else if history[|history| - 1] == t then |history| - 1
    else LastUse(history[..|history| - 1], t)
  }

  /** Every text ever counted, once each, in the order of last use. */
  function Remembered(history: seq<string>, inner: Counter): seq<Slot<string, nat>> {
    if history == [] then []
    else
      var last := history[|history| - 1];
      Without(Remembered(history[..|history| - 1], inner), last) + [Slot(last, inner(last))]
  }

  /** The other texts counted since the last use of `t`. */
  function Since(history: seq<string>, t: string): set<string> {
    set k | LastUse(history, t) < k < |history| :: history[k]
  }

  class Cached {
    const inner: Counter
    const capacity: nat
    var counts: seq<Slot<string, nat>>
    ghost var history: seq<string>

    /** Exactly the most recently used texts, oldest use first, each with the wrapped counter's answer. */
    ghost predicate Valid()
      reads this
    {
      capacity >= 1 && counts == Trim(Remembered(history, inner), capacity)
    }

    constructor (inner: Counter, capacity: nat)
      requires capacity >= 1
      ensures Valid() && history == [] && this.inner == inner && this.capacity == capacity
    {
      this.inner, this.capacity, counts, history := inner, capacity, [], [];
    }

    /** The wrapped counter's answer. */
    method Count(text: string) returns (n: nat)
      requires Valid()
      modifies this
      ensures Valid() && n == inner(text) && history == old(history) + [text]
    {
      hide Trim, Without, Lookup, Unique;
      RememberedUnique(history, inner);
      UseTrimmed(Remembered(history, inner), text, inner(text), capacity);
      RememberedSnoc(history, text, inner);
      HeldAnswers(history, inner, capacity, text);
      UniqueTrim(Remembered(history, inner), capacity);
      var remembered := Lookup(counts, text);
      if remembered.Some? {
        n := remembered.value;
        HeldUse(counts, text, n, capacity);
        counts := Without(counts, text) + [Slot(text, n)];
      } else {
        n := inner(text);
        NewUse(counts, text, n, capacity);
        counts := counts + [Slot(text, n)];
        if |counts| > capacity { counts := counts[1..]; }
      }
      history := history + [text];
    }
  }

  lemma RememberedSnoc(history: seq<string>, text: string, inner: Counter)
    ensures Remembered(history + [text], inner) == Without(Remembered(history, inner), text) + [Slot(text, inner(text))]
  {
    assert (history + [text])[..|history|] == history;
  }

  lemma {:induction false} RememberedUnique(history: seq<string>, inner: Counter)
    ensures Unique(Remembered(history, inner))
  {
    if history != [] {
      var earlier, last := history[..|history| - 1], history[|history| - 1];
      RememberedUnique(earlier, inner);
      UniqueUse(Remembered(earlier, inner), last, inner(last));
    }
  }

  lemma UniqueTrim<K, V>(d: seq<Slot<K, V>>, cap: nat)
    requires Unique(d)
    ensures Unique(Trim(d, cap))
  {
    if |d| > cap { UniqueTail(d, |d| - cap); }
  }

  lemma {:induction false} WithoutIn<K, V>(d: seq<Slot<K, V>>, k: K, e: Slot<K, V>)
    requires e in Without(d, k)
    ensures e in d
  {
    if d != [] && e != d[0] { WithoutIn(d[1..], k, e); }
  }

  lemma {:induction false} RememberedAnswers(history: seq<string>, inner: Counter, e: Slot<string, nat>)
    requires e in Remembered(history, inner)
    ensures e.value == inner(e.key)
  {
    var earlier, last := history[..|history| - 1], history[|history| - 1];
    if e != Slot(last, inner(last)) {
      WithoutIn(Remembered(earlier, inner), last, e);
      RememberedAnswers(earlier, inner, e);
    }
  }

  lemma HeldAnswers(history: seq<string>, inner: Counter, cap: nat, text: string)
    ensures var v := Lookup(Trim(Remembered(history, inner), cap), text); v.Some? ==> v.value == inner(text)
  {
    var d := Trim(Remembered(history, inner), cap);
    LookupAt(d, text);
    if Lookup(d, text).Some? { RememberedAnswers(history, inner, Slot(text, Lookup(d, text).value)); }
  }

  lemma HeldUse<K, V>(d: seq<Slot<K, V>>, k: K, v: V, cap: nat)
    requires Unique(d) && |d| <= cap && Lookup(d, k).Some?
    ensures Use(d, k, v, cap) == Without(d, k) + [Slot(k, v)]
  {
    hide Unique, Lookup, Without;
    LookupAt(d, k);
    UsedLength(d, k);
  }

  lemma NewUse<K, V>(d: seq<Slot<K, V>>, k: K, v: V, cap: nat)
    requires |d| <= cap && cap >= 1 && Lookup(d, k).None?
    ensures var grown := d + [Slot(k, v)]; Use(d, k, v, cap) == if |grown| > cap then grown[1..] else grown
  {
    hide Lookup, Without;
    LookupAt(d, k);
    WithoutAbsent(d, k);
  }

  // ------------------------------------------------------------ what is held

  lemma LastUseSnoc(history: seq<string>, text: string, t: string)
    ensures LastUse(history + [text], t) == if t == text then |history| else LastUse(history, t)
  {
    assert (history + [text])[..|history|] == history;
  }

  lemma {:induction false} RememberedHas(history: seq<string>, inner: Counter, t: string)
    ensures Has(Remembered(history, inner), t) <==> t in history
  {
    if history != [] {
      var earlier, last := history[..|history| - 1], history[|history| - 1];
      RememberedHas(earlier, inner, t);
      WithoutHas(Remembered(earlier, inner), last, t);
      var d := Without(Remembered(earlier, inner), last);
      SnocHas(d, Slot(last, inner(last)), t);
      assert history == earlier + [last];
    }
  }

  lemma SnocHas<K, V>(d: seq<Slot<K, V>>, e: Slot<K, V>, x: K)
    ensures Has(d + [e], x) <==> Has(d, x) || e.key == x
  {
    var r := d + [e];
    if Has(d, x) { var i :| 0 <= i < |d| && d[i].key == x; assert r[i].key == x; }
    if e.key == x { assert r[|d|].key == x; }
    if Has(r, x) && e.key != x { var i :| 0 <= i < |r| && r[i].key == x; assert d[i].key == x; }
  }

  /** Entries stand in the order their texts were last counted. */
  ghost predicate ByLastUse(d: seq<Slot<string, nat>>, history: seq<string>) {
    forall i, j | 0 <= i < j < |d| :: LastUse(history, d[i].key) < LastUse(history, d[j].key)
  }

  lemma {:induction false} RememberedInOrder(history: seq<string>, inner: Counter)
    ensures ByLastUse(Remembered(history, inner), history)
  {
    if history != [] {
      var earlier, last := history[..|history| - 1], history[|history| - 1];
      assert history == earlier + [last];
      RememberedInOrder(earlier, inner);
      RememberedUnique(earlier, inner);
      MovedLast(Remembered(earlier, inner), earlier, last, inner(last));
    }
  }

  lemma MovedLast(d: seq<Slot<string, nat>>, earlier: seq<string>, last: string, v: nat)
    requires ByLastUse(d, earlier) && Unique(d)
    ensures ByLastUse(Without(d, last) + [Slot(last, v)], earlier + [last])
  {
    var rest := Without(d, last);
    var r, h := rest + [Slot(last, v)], earlier + [last];
    WithoutOrdered(d, earlier, last);
    forall i, j | 0 <= i < j < |r| ensures LastUse(h, r[i].key) < LastUse(h, r[j].key) {
      LastUseSnoc(earlier, last, r[i].key);
      LastUseSnoc(earlier, last, r[j].key);
      assert r[i] == rest[i];
      if j < |rest| { assert r[j] == rest[j]; }
    }
  }

  lemma OrderedRest(d: seq<Slot<string, nat>>, h: seq<string>, m: nat)
    requires ByLastUse(d, h) && Unique(d) && m < |d|
    ensures var r := d[..m] + d[m + 1..]; ByLastUse(r, h) && forall i | 0 <= i < |r| :: r[i].key != d[m].key
  {
    hide LastUse;
    var r := d[..m] + d[m + 1..];
    forall i | 0 <= i < |r| ensures r[i] == if i < m then d[i] else d[i + 1] {}
  }

  lemma WithoutOrdered(d: seq<Slot<string, nat>>, h: seq<string>, k: string)
    requires ByLastUse(d, h) && Unique(d)
    ensures ByLastUse(Without(d, k), h) && forall i | 0 <= i < |Without(d, k)| :: Without(d, k)[i].key != k
  {
    hide Without, LastUse, Lookup;
    if Has(d, k) {
      var m :| 0 <= m < |d| && d[m].key == k;
      WithoutAt(d, m);
      OrderedRest(d, h, m);
    } else {
      WithoutAbsent(d, k);
    }
  }

  function KeysFrom(d: seq<Slot<string, nat>>, n: nat): set<string>
    requires n <= |d|
  {
    set i | n <= i < |d| :: d[i].key
  }

  lemma {:induction false} KeysCounted(d: seq<Slot<string, nat>>, n: nat)
    requires Unique(d) && n <= |d|
    ensures |KeysFrom(d, n)| == |d| - n
    decreases |d| - n
  {
    if n < |d| {
      KeysCounted(d, n + 1);
      assert KeysFrom(d, n) == KeysFrom(d, n + 1) + {d[n].key};
    } else {
      assert KeysFrom(d, n) == {};
    }
  }

  /** The texts after one in the order of last use are the ones counted since. */
  lemma SinceIsAfter(history: seq<string>, inner: Counter, p: nat)
    requires p < |Remembered(history, inner)|
    ensures var d := Remembered(history, inner); Since(history, d[p].key) == KeysFrom(d, p + 1)
  {
    var d := Remembered(history, inner);
    var t := d[p].key;
    RememberedInOrder(history, inner);
    assert Has(d, t);
    RememberedHas(history, inner, t);
    forall x ensures x in Since(history, t) <==> x in KeysFrom(d, p + 1) {
      RememberedHas(history, inner, x);
      hide Remembered;
      if x in Since(history, t) {
        var k :| LastUse(history, t) < k < |history| && history[k] == x;
        assert LastUse(history, x) >= k;
        var i :| 0 <= i < |d| && d[i].key == x;
        assert i > p;
      }
      if x in KeysFrom(d, p + 1) {
        var i :| p + 1 <= i < |d| && d[i].key == x;
        assert history[LastUse(history, x)] == x;
      }
    }
  }

  /**
   * A text is remembered exactly while fewer than `capacity` other texts have been counted since it last was:
   * what is held is the `capacity` most recently used.
   */
  lemma HeldExactly(history: seq<string>, inner: Counter, capacity: nat, t: string)
    ensures Has(Trim(Remembered(history, inner), capacity), t) <==> t in history && |Since(history, t)| < capacity
  {
    var d := Remembered(history, inner);
    RememberedHas(history, inner, t);
    RememberedUnique(history, inner);
    if t in history {
      var p :| 0 <= p < |d| && d[p].key == t;
      SinceIsAfter(history, inner, p);
      KeysCounted(d, p + 1);
      hide Remembered, Since;
      PlacedInTrim(d, capacity, p);
    } else if Has(Trim(d, capacity), t) {
      TrimHas(d, capacity, t);
    }
  }

  lemma TrimHas<K, V>(d: seq<Slot<K, V>>, cap: nat, k: K)
    requires Has(Trim(d, cap), k)
    ensures Has(d, k)
  {
    var r := Trim(d, cap);
    var i :| 0 <= i < |r| && r[i].key == k;
    assert d[i + |d| - |r|].key == k;
  }

  lemma PlacedInTrim<K, V>(d: seq<Slot<K, V>>, cap: nat, p: nat)
    requires Unique(d) && p < |d|
    ensures Has(Trim(d, cap), d[p].key) <==> |d| - (p + 1) < cap
  {
    var r := Trim(d, cap);
    var off := |d| - |r|;
    if p >= off { assert r[p - off].key == d[p].key; }
    if Has(r, d[p].key) {
      var i :| 0 <= i < |r| && r[i].key == d[p].key;
      assert d[i + off].key == d[p].key;
    }
  }
}
