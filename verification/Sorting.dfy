/** Python's `sorted`: a stable sort by a strict order, and what every caller here relies on. */
module Sorting {

  function Map<A, B>(f: A -> B, s: seq<A>): (r: seq<B>)
    ensures |r| == |s| && forall i | 0 <= i < |s| :: r[i] == f(s[i])
  {
    if s == [] then [] else [f(s[0])] + Map(f, s[1..])
  }

  function Filter<A>(p: A -> bool, s: seq<A>): (r: seq<A>)
    ensures |r| <= |s|
  {
    if s == [] then []
    else if p(s[0]) then [s[0]] + Filter(p, s[1..])
    else Filter(p, s[1..])
  }

  lemma {:induction false} FilterMembers<A>(p: A -> bool, s: seq<A>)
    ensures forall x | x in Filter(p, s) :: x in s && p(x)
    ensures forall x | x in s && p(x) :: x in Filter(p, s)
  {
    if s != [] {
      FilterMembers(p, s[1..]);
      assert s == [s[0]] + s[1..];
    }
  }

  /** `x` goes in front of the first element that is not strictly before it. */
  function Insert<T>(x: T, s: seq<T>, before: (T, T) -> bool): (r: seq<T>)
    ensures multiset(r) == multiset(s) + multiset{x}
  {
    if s == [] || !before(s[0], x) then [x] + s
    else
      assert s == [s[0]] + s[1..];
      [s[0]] + Insert(x, s[1..], before)
  }

  function Sort<T>(s: seq<T>, before: (T, T) -> bool): (r: seq<T>)
    ensures multiset(r) == multiset(s)
  {
    if s == [] then []
    else
      assert s == [s[0]] + s[1..];
      Insert(s[0], Sort(s[1..], before), before)
  }

  lemma SameLength<T>(s: seq<T>, t: seq<T>)
    requires multiset(s) == multiset(t)
    ensures |s| == |t|
  {
    assert |multiset(s)| == |s| && |multiset(t)| == |t|;
  }

  lemma SameElements<T>(s: seq<T>, t: seq<T>)
    requires multiset(s) == multiset(t)
    ensures forall x | x in s :: x in t
    ensures forall x | x in t :: x in s
  {
    forall x | x in s ensures x in t {
      assert x in multiset(s);
    }
    forall x | x in t ensures x in s {
      assert x in multiset(t);
    }
  }

  /** What Python needs of a sort key: a strict order in which ties are an equivalence. */
  ghost predicate StrictWeak<T(!new)>(before: (T, T) -> bool) {
    && (forall a, b :: before(a, b) ==> !before(b, a))
    && (forall a, b, c :: before(a, c) ==> before(a, b) || before(b, c))
  }

  ghost predicate Sorted<T>(s: seq<T>, before: (T, T) -> bool) {
    forall i, j | 0 <= i < j < |s| :: !before(s[j], s[i])
  }

  /** No two elements tie. */
  ghost predicate Untied<T>(s: seq<T>, before: (T, T) -> bool) {
    forall x, y | x in s && y in s && x != y :: before(x, y) || before(y, x)
  }

  lemma {:induction false} InsertSorted<T(!new)>(x: T, s: seq<T>, before: (T, T) -> bool)
    requires StrictWeak(before) && Sorted(s, before)
    ensures Sorted(Insert(x, s, before), before)
  {
    if s == [] {
    } else if !before(s[0], x) {
      var r := [x] + s;
      forall i, j | 0 <= i < j < |r| ensures !before(r[j], r[i]) {
        if i == 0 && j > 1 {
          assert !before(s[j - 1], s[0]);
        }
      }
    } else {
      InsertSorted(x, s[1..], before);
      var t := Insert(x, s[1..], before);
      forall y | y in t ensures !before(y, s[0]) {
        assert y in multiset(t);
        if y != x {
          assert y in multiset(s[1..]);
          assert y in s[1..];
        }
      }
      assert Insert(x, s, before) == [s[0]] + t;
    }
  }

  lemma {:induction false} SortSorted<T(!new)>(s: seq<T>, before: (T, T) -> bool)
    requires StrictWeak(before)
    ensures Sorted(Sort(s, before), before)
  {
    if s != [] {
      SortSorted(s[1..], before);
      InsertSorted(s[0], Sort(s[1..], before), before);
    }
  }

  lemma {:induction false} InsertStable<T(!new)>(x: T, s: seq<T>, before: (T, T) -> bool, tied: T -> bool)
    requires forall y | y in s && tied(x) && tied(y) :: !before(y, x)
    ensures Filter(tied, Insert(x, s, before)) == Filter(tied, [x] + s)
  {
    if s == [] || !before(s[0], x) {
    } else {
      assert s[0] in s && forall y | y in s[1..] :: y in s;
      InsertStable(x, s[1..], before, tied);
      FilterCons(tied, s[0], Insert(x, s[1..], before));
      FilterCons(tied, x, s[1..]);
      FilterCons(tied, x, s);
      FilterCons(tied, s[0], s[1..]);
      assert s == [s[0]] + s[1..];
    }
  }

  /** Stable: elements none of which comes before another stay in the order they came in. */
  lemma {:induction false} SortStable<T(!new)>(s: seq<T>, before: (T, T) -> bool, tied: T -> bool)
    requires forall x, y | x in s && y in s && tied(x) && tied(y) :: !before(x, y)
    ensures Filter(tied, Sort(s, before)) == Filter(tied, s)
  {
    if s != [] {
      var rest := Sort(s[1..], before);
      assert s[0] in s && forall y | y in s[1..] :: y in s;
      SortStable(s[1..], before, tied);
      SameElements(s[1..], rest);
      InsertStable(s[0], rest, before, tied);
      FilterCons(tied, s[0], rest);
      FilterCons(tied, s[0], s[1..]);
      assert s == [s[0]] + s[1..];
    }
  }

  /** `f` carries the order `ba` on the elements of `s` to the order `bb` on their images. */
  ghost predicate Carries<A, B>(s: seq<A>, f: A -> B, ba: (A, A) -> bool, bb: (B, B) -> bool) {
    forall x | x in s :: CarriesAt(x, s, f, ba, bb)
  }

  ghost predicate CarriesAt<A, B>(x: A, s: seq<A>, f: A -> B, ba: (A, A) -> bool, bb: (B, B) -> bool) {
    forall y | y in s :: bb(f(y), f(x)) == ba(y, x)
  }

  lemma {:induction false} InsertMap<A, B>(x: A, s: seq<A>, f: A -> B, ba: (A, A) -> bool, bb: (B, B) -> bool)
    requires CarriesAt(x, s, f, ba, bb)
    ensures Insert(f(x), Map(f, s), bb) == Map(f, Insert(x, s, ba))
  {
    if s == [] || !ba(s[0], x) {
      assert ([x] + s)[1..] == s;
    } else {
      InsertMap(x, s[1..], f, ba, bb);
      var t := Insert(x, s[1..], ba);
      assert Map(f, s)[1..] == Map(f, s[1..]);
      assert ([s[0]] + t)[1..] == t;
    }
  }

  lemma CarriesAtSubset<A, B>(x: A, s: seq<A>, t: seq<A>, f: A -> B, ba: (A, A) -> bool, bb: (B, B) -> bool)
    requires CarriesAt(x, s, f, ba, bb)
    requires forall y | y in t :: y in s
    ensures CarriesAt(x, t, f, ba, bb)
  {
  }

  /** Sorting commutes with any relabelling that keeps the order of the elements at hand. */
  lemma {:induction false} SortMap<A, B>(s: seq<A>, f: A -> B, ba: (A, A) -> bool, bb: (B, B) -> bool)
    requires Carries(s, f, ba, bb)
    ensures Sort(Map(f, s), bb) == Map(f, Sort(s, ba))
  {
    if s != [] {
      CarriesSubset(s, s[1..], f, ba, bb);
      SortMap(s[1..], f, ba, bb);
      CarriesAtSubset(s[0], s, s[1..], f, ba, bb);
      CarriesAtSorted(s[0], s[1..], f, ba, bb);
      SortMapStep(s[0], s[1..], f, ba, bb);
      assert [s[0]] + s[1..] == s;
    }
  }

  lemma CarriesAtSorted<A, B>(x: A, s: seq<A>, f: A -> B, ba: (A, A) -> bool, bb: (B, B) -> bool)
    requires CarriesAt(x, s, f, ba, bb)
    ensures CarriesAt(x, Sort(s, ba), f, ba, bb)
  {
    var t := Sort(s, ba);
    SameElements(s, t);
    CarriesAtSubset(x, s, t, f, ba, bb);
  }

  lemma CarriesSubset<A, B>(s: seq<A>, t: seq<A>, f: A -> B, ba: (A, A) -> bool, bb: (B, B) -> bool)
    requires Carries(s, f, ba, bb)
    requires forall y | y in t :: y in s
    ensures Carries(t, f, ba, bb)
  {
    forall x | x in t ensures CarriesAt(x, t, f, ba, bb) {
      CarriesAtSubset(x, s, t, f, ba, bb);
    }
  }

  lemma SortMapStep<A, B>(x: A, rest: seq<A>, f: A -> B, ba: (A, A) -> bool, bb: (B, B) -> bool)
    requires CarriesAt(x, Sort(rest, ba), f, ba, bb)
    requires Sort(Map(f, rest), bb) == Map(f, Sort(rest, ba))
    ensures Sort(Map(f, [x] + rest), bb) == Map(f, Sort([x] + rest, ba))
  {
    InsertMap(x, Sort(rest, ba), f, ba, bb);
    assert ([x] + rest)[1..] == rest;
    assert ([f(x)] + Map(f, rest))[1..] == Map(f, rest);
    calc {
      Sort(Map(f, [x] + rest), bb);
      Sort([f(x)] + Map(f, rest), bb);
      Insert(f(x), Sort(Map(f, rest), bb), bb);
      Map(f, Insert(x, Sort(rest, ba), ba));
      Map(f, Sort([x] + rest, ba));
    }
  }

  lemma LeastFirst<T>(s: seq<T>, x: T, before: (T, T) -> bool)
    requires Sorted(s, before) && x in s
    ensures x == s[0] || !before(x, s[0])
  {
  }

  lemma TailMultiset<T>(s: seq<T>)
    requires s != []
    ensures multiset(s[1..]) == multiset(s) - multiset{s[0]}
  {
    assert s == [s[0]] + s[1..];
  }

  lemma UntiedTail<T>(s: seq<T>, before: (T, T) -> bool)
    requires s != [] && Untied(s, before)
    ensures Untied(s[1..], before)
  {
    assert forall x | x in s[1..] :: x in s;
  }

  /** A multiset without ties has one sorted arrangement. */
  lemma {:induction false} SortedUnique<T(!new)>(s: seq<T>, t: seq<T>, before: (T, T) -> bool)
    requires StrictWeak(before) && Untied(s, before)
    requires Sorted(s, before) && Sorted(t, before) && multiset(s) == multiset(t)
    ensures s == t
  {
    SameLength(s, t);
    SameElements(s, t);
    if s != [] {
      LeastFirst(s, t[0], before);
      LeastFirst(t, s[0], before);
      assert s[0] == t[0];
      TailMultiset(s);
      TailMultiset(t);
      UntiedTail(s, before);
      SortedUnique(s[1..], t[1..], before);
      assert s == [s[0]] + s[1..] && t == [t[0]] + t[1..];
    }
  }

  lemma SortPermuted<T(!new)>(s: seq<T>, t: seq<T>, before: (T, T) -> bool)
    requires StrictWeak(before) && Untied(s, before) && multiset(s) == multiset(t)
    ensures Sort(s, before) == Sort(t, before)
  {
    SortSorted(s, before);
    SortSorted(t, before);
    SameElements(s, Sort(s, before));
    SortedUnique(Sort(s, before), Sort(t, before), before);
  }

  lemma {:induction false} SortOfSorted<T(!new)>(s: seq<T>, before: (T, T) -> bool)
    requires StrictWeak(before) && Sorted(s, before)
    ensures Sort(s, before) == s
  {
    if s != [] {
      SortOfSorted(s[1..], before);
      assert |s| > 1 ==> !before(s[1], s[0]);
    }
  }

  // ------------------------------------------------------------ rearrangements

  lemma MapAppend<A, B>(f: A -> B, s: seq<A>, t: seq<A>)
    ensures Map(f, s + t) == Map(f, s) + Map(f, t)
  {
    hide Map;
    var u, v := Map(f, s + t), Map(f, s) + Map(f, t);
    forall i | 0 <= i < |u| ensures u[i] == v[i] {
    }
  }

  lemma MapCons<A, B>(f: A -> B, x: A, rest: seq<A>)
    ensures Map(f, [x] + rest) == [f(x)] + Map(f, rest)
  {
    assert ([x] + rest)[1..] == rest;
  }

  /** Mapping rearranged elements rearranges the images. */
  lemma {:induction false} MapPermuted<A, B>(f: A -> B, s: seq<A>, t: seq<A>)
    requires multiset(s) == multiset(t)
    ensures multiset(Map(f, s)) == multiset(Map(f, t))
  {
    SameLength(s, t);
    if s != [] {
      var rest, i := Extract(s, t);
      MapPermuted(f, s[1..], rest);
      assert s[..0] + s[1..] == s[1..];
      MapWithout(f, s, 0);
      MapWithout(f, t, i);
    }
  }

  /** One element's image, and the images of the rest. */
  lemma MapWithout<A, B>(f: A -> B, t: seq<A>, i: nat)
    requires i < |t|
    ensures multiset(Map(f, t)) == multiset{f(t[i])} + multiset(Map(f, t[..i] + t[i + 1..]))
  {
    hide Map;
    SplitAround(t, i);
    MapAppend(f, t[..i], [t[i]] + t[i + 1..]);
    MapCons(f, t[i], t[i + 1..]);
    MapAppend(f, t[..i], t[i + 1..]);
  }

  lemma SplitAround<T>(t: seq<T>, i: nat)
    requires i < |t|
    ensures t == t[..i] + ([t[i]] + t[i + 1..])
  {
  }

  /** Takes the head of `s` out of a rearrangement of `s`. */
  lemma Extract<T>(s: seq<T>, t: seq<T>) returns (rest: seq<T>, i: nat)
    requires s != [] && multiset(s) == multiset(t)
    ensures i < |t| && t[i] == s[0] && rest == t[..i] + t[i + 1..]
    ensures multiset(rest) == multiset(s[1..])
  {
    SameElements(s, t);
    assert s[0] in t;
    i :| 0 <= i < |t| && t[i] == s[0];
    rest := t[..i] + t[i + 1..];
    TailMultiset(s);
    CountAround(t, i);
  }

  lemma {:induction false} FilterCount<T(!new)>(p: T -> bool, s: seq<T>, x: T)
    ensures multiset(Filter(p, s))[x] == if p(x) then multiset(s)[x] else 0
  {
    if s != [] {
      FilterCount(p, s[1..], x);
      assert s == [s[0]] + s[1..];
    }
  }

  lemma FilterPermuted<T(!new)>(p: T -> bool, s: seq<T>, t: seq<T>)
    requires multiset(s) == multiset(t)
    ensures multiset(Filter(p, s)) == multiset(Filter(p, t))
  {
    forall x ensures multiset(Filter(p, s))[x] == multiset(Filter(p, t))[x] {
      FilterCount(p, s, x);
      FilterCount(p, t, x);
    }
  }

  lemma {:induction false} FilterSorted<T(!new)>(p: T -> bool, s: seq<T>, before: (T, T) -> bool)
    requires Sorted(s, before)
    ensures Sorted(Filter(p, s), before)
  {
    if s != [] {
      FilterSorted(p, s[1..], before);
      FilterMembers(p, s[1..]);
      var rest := Filter(p, s[1..]);
      forall y | y in rest ensures !before(y, s[0]) {
        assert y in s[1..];
      }
    }
  }

  lemma {:induction false} FilterMap<A(!new), B(!new)>(p: B -> bool, q: A -> bool, f: A -> B, s: seq<A>)
    requires forall x | x in s :: p(f(x)) == q(x)
    ensures Filter(p, Map(f, s)) == Map(f, Filter(q, s))
  {
    if s != [] {
      assert forall x | x in s[1..] :: x in s;
      FilterMap(p, q, f, s[1..]);
      assert s[0] in s;
    }
  }

  lemma {:induction false} FilterAll<T(!new)>(p: T -> bool, s: seq<T>)
    requires forall x | x in s :: p(x)
    ensures Filter(p, s) == s
  {
    if s != [] {
      assert s[0] in s && forall x | x in s[1..] :: x in s;
      FilterAll(p, s[1..]);
    }
  }

  lemma {:induction false} FilterNone<T(!new)>(p: T -> bool, s: seq<T>)
    requires forall x | x in s :: !p(x)
    ensures Filter(p, s) == []
  {
    if s != [] {
      assert s[0] in s && forall x | x in s[1..] :: x in s;
      FilterNone(p, s[1..]);
    }
  }

  lemma {:induction false} FilterAppend<T(!new)>(p: T -> bool, s: seq<T>, t: seq<T>)
    ensures Filter(p, s + t) == Filter(p, s) + Filter(p, t)
  {
    if s == [] {
      assert s + t == t;
    } else {
      FilterAppend(p, s[1..], t);
      FilterAppendStep(p, s[0], s[1..], t);
      assert [s[0]] + s[1..] == s;
    }
  }

  lemma FilterAppendStep<T(!new)>(p: T -> bool, x: T, rest: seq<T>, t: seq<T>)
    requires Filter(p, rest + t) == Filter(p, rest) + Filter(p, t)
    ensures Filter(p, ([x] + rest) + t) == Filter(p, [x] + rest) + Filter(p, t)
  {
    hide Filter;
    Regrouped([x], rest, t);
    FilterCons(p, x, rest + t);
    FilterCons(p, x, rest);
    Regrouped(if p(x) then [x] else [], Filter(p, rest), Filter(p, t));
  }

  lemma Regrouped<T>(a: seq<T>, b: seq<T>, c: seq<T>)
    ensures (a + b) + c == a + (b + c)
  {
  }

  lemma FilterCons<T(!new)>(p: T -> bool, x: T, rest: seq<T>)
    ensures Filter(p, [x] + rest) == (if p(x) then [x] else []) + Filter(p, rest)
  {
    assert ([x] + rest)[1..] == rest;
  }

  lemma TwiceCounted<T>(s: seq<T>, i: nat, j: nat)
    requires i < j < |s| && s[i] == s[j]
    ensures multiset(s)[s[i]] >= 2
  {
    assert s == s[..j] + ([s[j]] + s[j + 1..]);
    assert s[..j][i] in multiset(s[..j]);
  }

  lemma SeparatePositions<T>(s: seq<T>, x: T)
    requires multiset(s)[x] >= 2
    ensures exists i, j | 0 <= i < j < |s| :: s[i] == x && s[j] == x
  {
    assert x in multiset(s);
    var i :| 0 <= i < |s| && s[i] == x;
    CountAround(s, i);
    assert x in multiset(s[..i]) || x in multiset(s[i + 1..]);
    if x in s[..i] {
      var j :| 0 <= j < i && s[..i][j] == x;
      assert s[j] == x;
    } else {
      assert x in s[i + 1..];
      var j :| 0 <= j < |s[i + 1..]| && s[i + 1..][j] == x;
      assert s[i + 1 + j] == x;
    }
  }

  lemma CountAround<T>(s: seq<T>, i: nat)
    requires i < |s|
    ensures multiset(s) == multiset(s[..i]) + multiset{s[i]} + multiset(s[i + 1..])
  {
    assert s == s[..i] + ([s[i]] + s[i + 1..]);
  }

  lemma Regroup<T>(s: seq<T>, t: seq<T>)
    requires s != []
    ensures s == [s[0]] + s[1..] && s + t == [s[0]] + (s[1..] + t)
  {
  }

  /** Different positions of a listing of `n`. */
  ghost predicate Places(s: seq<nat>, n: nat) {
    && (forall k | 0 <= k < |s| :: s[k] < n)
    && forall i, j | 0 <= i < j < |s| :: s[i] != s[j]
  }

  function Around(j: nat, i: nat): nat { if j < i then j else j + 1 }

  /** Two arrangements of the same elements match place for place. */
  lemma {:induction false} Matching<T>(s: seq<T>, t: seq<T>) returns (at: seq<nat>)
    requires multiset(s) == multiset(t)
    ensures |at| == |t| == |s| && Places(at, |s|) && forall k | 0 <= k < |t| :: s[at[k]] == t[k]
  {
    SameLength(s, t);
    at := [];
    if t != [] {
      var rest, i := Extract(t, s);
      var later := Matching(rest, t[1..]);
      at := [i] + seq(|later|, k requires 0 <= k < |later| => Around(later[k], i));
      forall k | 0 < k < |t| ensures s[at[k]] == t[k] { assert rest[later[k - 1]] == t[1..][k - 1]; }
    }
  }

  /** A mixture of two listings, told apart again. */
  lemma DealtOut<T>(mixed: seq<T>, a: seq<T>, b: seq<T>) returns (xs: seq<nat>, ys: seq<nat>)
    requires multiset(mixed) == multiset(a + b)
    ensures |xs| == |a| && |ys| == |b| && |xs| + |ys| == |mixed|
    ensures Places(xs, |mixed|) && Places(ys, |mixed|) && forall i | i in xs :: i !in ys
    ensures forall k | 0 <= k < |a| :: mixed[xs[k]] == a[k]
    ensures forall k | 0 <= k < |b| :: mixed[ys[k]] == b[k]
  {
    var at := Matching(mixed, a + b);
    xs, ys := at[..|a|], at[|a|..];
    forall k | 0 <= k < |b| ensures mixed[ys[k]] == b[k] { assert at[|a| + k] == ys[k] && (a + b)[|a| + k] == b[k]; }
    forall i | i in xs ensures i !in ys {
      var k :| 0 <= k < |a| && at[k] == i;
      assert forall m | 0 <= m < |b| :: ys[m] == at[|a| + m];
    }
  }
}
