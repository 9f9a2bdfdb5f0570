/** What the projection promises: whole turns, newest wins, every entry read exactly once. */
module ProjectionProofs {
  import opened Sorting
  import opened Text
  import opened Bands
  import opened Projection

  // ------------------------------------------------------------ whole turns

  ghost predicate DistinctSeqs(items: seq<Item>) {
    forall i, j | 0 <= i < j < |items| :: items[i].seqNo != items[j].seqNo
  }

  ghost predicate SameTurn(a: Item, b: Item) {
    a.turn.Some? && a.turn == b.turn
  }

  /** A range that holds each turn entirely or not at all. */
  ghost predicate Whole(items: seq<Item>, range: (int, int)) {
    forall x, y | x in items && y in items && SameTurn(x, y) && Within(x, range) :: Within(y, range)
  }

  /**
   * Turns may nest but not cross: a turn reaching in between two entries of another stays between two of its entries.
   */
  ghost predicate NonCrossing(items: seq<Item>) {
    forall a, b, x, y | a in items && b in items && x in items && y in items
      && SameTurn(a, b) && SameTurn(x, y) && a.turn != x.turn && a.seqNo <= x.seqNo <= b.seqNo
      :: Enclosed(items, a, y)
  }

  /** `y` stands between two entries of `a`'s turn. */
  ghost predicate Enclosed(items: seq<Item>, a: Item, y: Item) {
    exists c, d | c in items && d in items :: SameTurn(a, c) && SameTurn(a, d) && c.seqNo <= y.seqNo <= d.seqNo
  }

  lemma {:induction false} LowBound(items: seq<Item>, turns: set<string>, low: int)
    ensures var l := LowOf(items, turns, low);
            && l <= low
            && (forall x | x in items && OfTurns(x, turns) :: l <= x.seqNo)
            && (l < low ==> exists x | x in items :: OfTurns(x, turns) && x.seqNo == l)
  {
    if items != [] {
      LowBound(items[1..], turns, low);
      assert items == [items[0]] + items[1..];
      assert items[0] in items && forall x | x in items[1..] :: x in items;
    }
  }

  lemma {:induction false} HighBound(items: seq<Item>, turns: set<string>, high: int)
    ensures var h := HighOf(items, turns, high);
            && h >= high
            && (forall x | x in items && OfTurns(x, turns) :: x.seqNo <= h)
            && (h > high ==> exists x | x in items :: OfTurns(x, turns) && x.seqNo == h)
  {
    if items != [] {
      HighBound(items[1..], turns, high);
      assert items == [items[0]] + items[1..];
      assert items[0] in items && forall x | x in items[1..] :: x in items;
    }
  }

  /**
   * What snapping does: it contains the request and every entry of every touched turn, and reaches no further than
   * one.
   */
  lemma SnapBounds(items: seq<Item>, range: (int, int))
    ensures var r := Snap(items, range);
            && r.0 <= range.0 && range.1 <= r.1
            && (forall x | x in items && OfTurns(x, Touched(items, range)) :: Within(x, r))
            && (r.0 < range.0 ==> exists x | x in items :: OfTurns(x, Touched(items, range)) && x.seqNo == r.0)
            && (r.1 > range.1 ==> exists x | x in items :: OfTurns(x, Touched(items, range)) && x.seqNo == r.1)
  {
    LowBound(items, Touched(items, range), range.0);
    HighBound(items, Touched(items, range), range.1);
    forall x | x in items && OfTurns(x, Touched(items, range)) ensures Touched(items, range) != {} {
      assert x.turn.value in Touched(items, range);
    }
  }

  lemma TouchedBy(items: seq<Item>, range: (int, int), t: string) returns (x: Item)
    requires t in Touched(items, range)
    ensures x in items && x.turn == Some(t) && Within(x, range)
  {
    x :| x in items && x.turn.Some? && Within(x, range) && x.turn.value == t;
  }

  lemma RequestTouches(items: seq<Item>, range: (int, int))
    ensures forall x | x in items && x.turn.Some? && Within(x, range) :: OfTurns(x, Touched(items, range))
  {
  }

  /** A turn caught only by the widening lies between two entries of a touched turn. */
  lemma CaughtByWidening(items: seq<Item>, range: (int, int), x: Item) returns (a: Item, b: Item)
    requires x in items && x.turn.Some? && Within(x, Snap(items, range)) && !OfTurns(x, Touched(items, range))
    ensures a in items && b in items && SameTurn(a, b) && a.turn != x.turn && a.seqNo <= x.seqNo <= b.seqNo
    ensures OfTurns(a, Touched(items, range))
  {
    SnapBounds(items, range);
    RequestTouches(items, range);
    var r := Snap(items, range);
    if x.seqNo < range.0 {
      a :| a in items && OfTurns(a, Touched(items, range)) && a.seqNo == r.0;
      b := TouchedBy(items, range, a.turn.value);
    } else {
      b :| b in items && OfTurns(b, Touched(items, range)) && b.seqNo == r.1;
      a := TouchedBy(items, range, b.turn.value);
    }
  }

  lemma SnapIsWhole(items: seq<Item>, range: (int, int))
    requires NonCrossing(items)
    ensures Whole(items, Snap(items, range))
  {
    SnapBounds(items, range);
    var r := Snap(items, range);
    forall x, y | x in items && y in items && SameTurn(x, y) && Within(x, r) ensures Within(y, r) {
      if !OfTurns(x, Touched(items, range)) {
        var a, b := CaughtByWidening(items, range, x);
        assert Enclosed(items, a, y);
        var c, d :| c in items && d in items && SameTurn(a, c) && SameTurn(a, d) && c.seqNo <= y.seqNo <= d.seqNo;
        assert OfTurns(c, Touched(items, range)) && OfTurns(d, Touched(items, range));
      }
    }
  }

  /** Asking for one entry of a turn snaps to exactly that turn. */
  lemma SnapOfOne(items: seq<Item>, a: Item)
    requires DistinctSeqs(items) && a in items && a.turn.Some?
    ensures Touched(items, (a.seqNo, a.seqNo)) == {a.turn.value}
  {
    forall x | x in items && Within(x, (a.seqNo, a.seqNo)) ensures x == a {
      var i :| 0 <= i < |items| && items[i] == x;
      var j :| 0 <= j < |items| && items[j] == a;
    }
    assert Within(a, (a.seqNo, a.seqNo));
  }

  lemma InsideOneTurn(items: seq<Item>, a: Item, y: Item)
    requires DistinctSeqs(items) && a in items && a.turn.Some? && Within(y, Snap(items, (a.seqNo, a.seqNo)))
    ensures Enclosed(items, a, y)
  {
    var one := (a.seqNo, a.seqNo);
    SnapOfOne(items, a);
    SnapBounds(items, one);
    var r := Snap(items, one);
    var c := if r.0 < a.seqNo then Reached(items, a, r.0) else a;
    var d := if r.1 > a.seqNo then Reached(items, a, r.1) else a;
    assert c.seqNo <= y.seqNo <= d.seqNo;
  }

  /** A crossing pair is a request that splits a turn. */
  lemma CrossingSplits(items: seq<Item>, a: Item, b: Item, x: Item, y: Item)
    requires DistinctSeqs(items)
    requires a in items && b in items && x in items && y in items
    requires SameTurn(a, b) && SameTurn(x, y) && a.turn != x.turn && a.seqNo <= x.seqNo <= b.seqNo
    requires !Enclosed(items, a, y)
    ensures !Whole(items, Snap(items, (a.seqNo, a.seqNo)))
  {
    var one := (a.seqNo, a.seqNo);
    SnapOfOne(items, a);
    SnapBounds(items, one);
    assert OfTurns(a, Touched(items, one)) && OfTurns(b, Touched(items, one));
    assert Within(x, Snap(items, one));
    if Within(y, Snap(items, one)) { InsideOneTurn(items, a, y); }
  }

  ghost function Reached(items: seq<Item>, a: Item, n: int): (x: Item)
    requires a.turn.Some? && exists x | x in items :: OfTurns(x, {a.turn.value}) && x.seqNo == n
    ensures x in items && SameTurn(a, x) && x.seqNo == n
  {
    var x :| x in items && OfTurns(x, {a.turn.value}) && x.seqNo == n;
    x
  }

  /** Whole turns or nothing, exactly: snapping once is enough for every request if and only if no two turns cross. */
  lemma WholeTurnsExactly(items: seq<Item>)
    requires DistinctSeqs(items)
    ensures NonCrossing(items) <==> forall range :: Whole(items, Snap(items, range))
  {
    if NonCrossing(items) {
      forall range ensures Whole(items, Snap(items, range)) { SnapIsWhole(items, range); }
    }
    if forall range :: Whole(items, Snap(items, range)) {
      forall a, b, x, y | a in items && b in items && x in items && y in items
        && SameTurn(a, b) && SameTurn(x, y) && a.turn != x.turn && a.seqNo <= x.seqNo <= b.seqNo
        ensures Enclosed(items, a, y)
      {
        if !Enclosed(items, a, y) { CrossingSplits(items, a, b, x, y); }
      }
    }
  }

  /** Snapping a snapped range moves nothing exactly when the range already holds whole turns. */
  lemma SnapAgain(items: seq<Item>, range: (int, int))
    ensures Snap(items, Snap(items, range)) == Snap(items, range) <==> Whole(items, Snap(items, range))
  {
    var r := Snap(items, range);
    SnapBounds(items, r);
    var again := Snap(items, r);
    if Whole(items, r) {
      forall x | x in items && OfTurns(x, Touched(items, r)) ensures Within(x, r) {
        var y := TouchedBy(items, r, x.turn.value);
        assert SameTurn(y, x);
      }
    }
    if again == r {
      forall x, y | x in items && y in items && SameTurn(x, y) && Within(x, r) ensures Within(y, r) {
        assert x.turn.value in Touched(items, r);
        assert OfTurns(y, Touched(items, r));
      }
    }
  }

  // ------------------------------------------------------------ the newest wins

  ghost function InsideSet(ordered: seq<Item>, c: Compaction): set<int> {
    set n | n in Inside(ordered, Snapped(c, ordered))
  }

  lemma {:induction false} InsideMembers(items: seq<Item>, range: (int, int), n: int)
    ensures n in Inside(items, range) <==> exists x | x in items :: Within(x, range) && x.seqNo == n
  {
    if items != [] {
      InsideMembers(items[1..], range, n);
      assert items == [items[0]] + items[1..];
    }
  }

  /** Which of the compactions, newest first, end up shown. */
  function Shows(ordered: seq<Item>, active: seq<Compaction>, covered: map<int, int>): (flags: seq<bool>)
    ensures |flags| == |active|
  {
    if active == [] then []
    else
      var inside := Inside(ordered, Snapped(active[0], ordered));
      var shown := inside != [] && FirstCovered(inside, covered).None?;
      [shown] + Shows(ordered, active[1..], if shown then CoverAll(covered, inside, active[0].seqNo) else covered)
  }

  lemma {:induction false} FirstCoveredNone(inside: seq<int>, covered: map<int, int>)
    ensures FirstCovered(inside, covered).None? <==> NoneCovered(inside, covered)
  {
    if inside != [] {
      FirstCoveredNone(inside[1..], covered);
      if NoneCovered(inside[1..], covered) && inside[0] !in covered {
        forall n | n in inside ensures n !in covered {
          if n != inside[0] { assert n in inside[1..]; }
        }
      }
      if NoneCovered(inside, covered) {
        var first := inside[0];
        assert first in inside;
        forall n | n in inside[1..] ensures n !in covered { assert n in inside; }
        assert NoneCovered(inside[1..], covered) && first !in covered;
      }
    }
  }

  ghost predicate NoneCovered(inside: seq<int>, covered: map<int, int>) {
    forall n | n in inside :: n !in covered
  }

  /** A compaction is shown exactly when its snapped range holds something and none of it is covered or shown newer. */
  lemma {:induction false} ShownExactly(ordered: seq<Item>, active: seq<Compaction>, covered: map<int, int>, k: nat)
    requires k < |active|
    ensures Shows(ordered, active, covered)[k] <==>
            && InsideSet(ordered, active[k]) != {}
            && InsideSet(ordered, active[k]) !! covered.Keys
            && ApartFromShown(ordered, active, Shows(ordered, active, covered), active[k], k)
  {
    hide Snapped;
    var c := active[0];
    var inside := Inside(ordered, Snapped(c, ordered));
    FreeToShow(ordered, c, covered);
    if k > 0 {
      var flags := Shows(ordered, active, covered);
      var covered' := if flags[0] then CoverAll(covered, inside, c.seqNo) else covered;
      assert flags[1..] == Shows(ordered, active[1..], covered');
      ShownExactly(ordered, active[1..], covered', k - 1);
      assert covered'.Keys == covered.Keys + if flags[0] then InsideSet(ordered, c) else {};
      ShownLater(ordered, active, flags, covered.Keys, covered'.Keys, k);
    }
  }

  lemma FreeToShow(ordered: seq<Item>, c: Compaction, covered: map<int, int>)
    ensures var inside := Inside(ordered, Snapped(c, ordered));
            (inside != [] && FirstCovered(inside, covered).None?)
            <==> (InsideSet(ordered, c) != {} && InsideSet(ordered, c) !! covered.Keys)
  {
    hide Snapped;
    var inside := Inside(ordered, Snapped(c, ordered));
    FirstCoveredNone(inside, covered);
    assert inside != [] ==> inside[0] in InsideSet(ordered, c);
    assert forall n :: n in InsideSet(ordered, c) <==> n in inside;
    if InsideSet(ordered, c) !! covered.Keys {
      forall n | n in inside ensures n !in covered { assert n in InsideSet(ordered, c); }
    }
    if NoneCovered(inside, covered) {
      forall n | n in InsideSet(ordered, c) ensures n !in covered.Keys { assert n in inside; }
    }
  }

  ghost predicate ApartFromShown(ordered: seq<Item>, active: seq<Compaction>, flags: seq<bool>, c: Compaction, k: nat)
    requires k <= |active| == |flags|
  {
    forall j | 0 <= j < k && flags[j] :: InsideSet(ordered, c) !! InsideSet(ordered, active[j])
  }

  lemma ShownLater(ordered: seq<Item>, active: seq<Compaction>, flags: seq<bool>, covered: set<int>,
        covered': set<int>, k: nat)
    requires 0 < k < |active| == |flags|
    requires covered' == covered + if flags[0] then InsideSet(ordered, active[0]) else {}
    ensures InsideSet(ordered, active[k]) !! covered'
            && ApartFromShown(ordered, active[1..], flags[1..], active[k], k - 1)
       <==> InsideSet(ordered, active[k]) !! covered && ApartFromShown(ordered, active, flags, active[k], k)
  {
    hide InsideSet;
    var own := InsideSet(ordered, active[k]);
    if own !! covered' && ApartFromShown(ordered, active[1..], flags[1..], active[k], k - 1) {
      forall j | 0 <= j < k && flags[j] ensures own !! InsideSet(ordered, active[j]) {
        if j > 0 { assert flags[1..][j - 1] && active[1..][j - 1] == active[j]; }
      }
    }
    if own !! covered && ApartFromShown(ordered, active, flags, active[k], k) {
      forall j | 0 <= j < k - 1 && flags[1..][j] ensures own !! InsideSet(ordered, active[1..][j]) {
        assert flags[j + 1] && active[1..][j] == active[j + 1];
      }
    }
  }

  // ------------------------------------------------------------ every entry read once

  function ShownOf(ordered: seq<Item>, active: seq<Compaction>, covered: map<int, int>): seq<Compaction> {
    if active == [] then []
    else
      var inside := Inside(ordered, Snapped(active[0], ordered));
      if inside != [] && FirstCovered(inside, covered).None?
      then [active[0]] + ShownOf(ordered, active[1..], CoverAll(covered, inside, active[0].seqNo))
      else ShownOf(ordered, active[1..], covered)
  }

  /** A shown compaction's section, with the position it stands at. */
  function PlaceOf(ordered: seq<Item>, count: Counter): Compaction -> (int, Placed) {
    (c: Compaction) =>
      var range := Snapped(c, ordered);
      (LeastPosition(ordered, range, range.0), SummarySection(c, |Inside(ordered, range)|, count))
  }

  lemma {:induction false} PlacedAreShown(ordered: seq<Item>, active: seq<Compaction>, s: Shelf, count: Counter)
    ensures PlaceAll(ordered, active, s, count).placed
            == s.placed + Map(PlaceOf(ordered, count), ShownOf(ordered, active, s.covered))
  {
    hide Snapped, SummarySection, LeastPosition, EmptyNotice, SupersededNotice;
    if active != [] {
      var s' := PlaceOne(ordered, active[0], s, count);
      PlacedAreShown(ordered, active[1..], s', count);
      var rest := ShownOf(ordered, active[1..], s'.covered);
      MapCons(PlaceOf(ordered, count), active[0], rest);
    }
  }

  ghost predicate CoveredBySome(ordered: seq<Item>, shown: seq<Compaction>, n: int) {
    exists c | c in shown :: n in InsideSet(ordered, c)
  }

  lemma {:induction false} CoveredByShown(ordered: seq<Item>, active: seq<Compaction>, s: Shelf, count: Counter, n: int)
    ensures n in PlaceAll(ordered, active, s, count).covered
            <==> n in s.covered || CoveredBySome(ordered, ShownOf(ordered, active, s.covered), n)
  {
    hide Snapped, SummarySection, LeastPosition, EmptyNotice, SupersededNotice;
    if active != [] {
      var c := active[0];
      var inside := Inside(ordered, Snapped(c, ordered));
      var s' := PlaceOne(ordered, c, s, count);
      CoveredByShown(ordered, active[1..], s', count, n);
      if inside != [] && FirstCovered(inside, s.covered).None? {
        SomeCons(ordered, c, ShownOf(ordered, active[1..], s'.covered), n);
      }
    }
  }

  lemma SomeCons(ordered: seq<Item>, c: Compaction, rest: seq<Compaction>, n: int)
    ensures CoveredBySome(ordered, [c] + rest, n)
            <==> n in Inside(ordered, Snapped(c, ordered)) || CoveredBySome(ordered, rest, n)
  {
    hide Snapped;
    assert n in InsideSet(ordered, c) <==> n in Inside(ordered, Snapped(c, ordered));
    if CoveredBySome(ordered, [c] + rest, n) {
      var d :| d in [c] + rest && n in InsideSet(ordered, d);
      assert d == c || d in rest;
    }
    if n in InsideSet(ordered, c) { assert c in [c] + rest; }
    if CoveredBySome(ordered, rest, n) {
      var d :| d in rest && n in InsideSet(ordered, d);
      assert d in [c] + rest;
    }
  }

  lemma {:induction false} ShownApart(ordered: seq<Item>, active: seq<Compaction>, covered: map<int, int>)
    ensures var shown := ShownOf(ordered, active, covered);
            && (forall c | c in shown ::
                  c in active && InsideSet(ordered, c) != {} && InsideSet(ordered, c) !! covered.Keys)
            && (forall i, j | 0 <= i < j < |shown| :: InsideSet(ordered, shown[i]) !! InsideSet(ordered, shown[j]))
  {
    hide Snapped;
    if active != [] {
      var c := active[0];
      var inside := Inside(ordered, Snapped(c, ordered));
      FreeToShow(ordered, c, covered);
      assert active == [c] + active[1..];
      if inside != [] && FirstCovered(inside, covered).None? {
        var covered' := CoverAll(covered, inside, c.seqNo);
        ShownApart(ordered, active[1..], covered');
        assert covered'.Keys == covered.Keys + InsideSet(ordered, c);
        assert forall d | d in ShownOf(ordered, active[1..], covered') ::
            InsideSet(ordered, d) !! InsideSet(ordered, c);
      } else {
        ShownApart(ordered, active[1..], covered);
      }
    }
  }

  function Shown(items: seq<Item>, compactions: seq<Compaction>): seq<Compaction> {
    ShownOf(Ordered(items), NewestFirst(compactions), map[])
  }

  lemma TurnSectionsSplit(rows: seq<Item>, count: Counter)
    ensures forall s | s in Map(SectionOf, TurnSections(rows, count)) :: !IsSummary(s)
  {
    hide AgePriority, Position;
    forall s | s in Map(SectionOf, TurnSections(rows, count)) ensures !IsSummary(s) {
      var k :| 0 <= k < |rows| && s == TurnSections(rows, count)[k].1;
      ItemNamed(rows[k].id);
    }
  }

  lemma ItemNamed(id: string)
    ensures !(SUMMARY_PREFIX <= ITEM_PREFIX + id)
  {
    assert (ITEM_PREFIX + id)[8] == 'i' && SUMMARY_PREFIX[8] == 's';
  }

  lemma SummariesAreSummaries(ordered: seq<Item>, shown: seq<Compaction>, count: Counter)
    ensures forall s | s in Map(SectionOf, Map(PlaceOf(ordered, count), shown)) :: IsSummary(s)
  {
    hide Snapped, LeastPosition, SummaryBody;
  }

  /** What the prompt is made of: one section a shown compaction, one a verbatim entry, in position order. */
  lemma SectionsOfProjection(items: seq<Item>, compactions: seq<Compaction>, count: Counter)
    ensures var p, shown := ProjectOf(items, compactions, count), Shown(items, compactions);
            var rows := Verbatim(items, compactions, count);
            && multiset(p.sections) == multiset(Map(SectionOf, Map(PlaceOf(Ordered(items), count), shown)))
                                     + multiset(Map(SectionOf, TurnSections(rows, count)))
            && p.summaries == |shown|
            && Sorted(PlacedOf(items, compactions, count), EarlierPlaced)
  {
    hide Sort, Map, Filter, Snapped, LeastPosition, SummarySection, PlaceAll, TurnSections, IsSummary;
    var ordered, shown := Ordered(items), Shown(items, compactions);
    var rows := Verbatim(items, compactions, count);
    var a, b := Map(PlaceOf(ordered, count), shown), TurnSections(rows, count);
    PlacedAreShown(ordered, NewestFirst(compactions), Shelf(map[], [], []), count);
    assert ShelfOf(items, compactions, count).placed == a;
    var placed := Sort(a + b, EarlierPlaced);
    SortSorted(a + b, EarlierPlaced);
    MapPermuted(SectionOf, placed, a + b);
    MapAppend(SectionOf, a, b);
    var sections := Map(SectionOf, placed);
    FilterPermuted(IsSummary, sections, Map(SectionOf, a) + Map(SectionOf, b));
    SameLength(Filter(IsSummary, sections), Filter(IsSummary, Map(SectionOf, a) + Map(SectionOf, b)));
    FilterAppend(IsSummary, Map(SectionOf, a), Map(SectionOf, b));
    SummariesAreSummaries(ordered, shown, count);
    TurnSectionsSplit(rows, count);
    FilterAll(IsSummary, Map(SectionOf, a));
    FilterNone(IsSummary, Map(SectionOf, b));
  }

  /**
   * Newest wins, and every entry is read exactly once: under one shown summary, or verbatim as often as it was said.
   */
  lemma EveryEntryReadOnce(items: seq<Item>, compactions: seq<Compaction>, count: Counter)
    ensures var ordered, shown, rows := Ordered(items), Shown(items, compactions), Verbatim(items, compactions, count);
            && (forall i, j | 0 <= i < j < |shown| :: InsideSet(ordered, shown[i]) !! InsideSet(ordered, shown[j]))
            && (forall x | x in items ::
                 multiset(rows)[x] == if CoveredBySome(ordered, shown, x.seqNo) then 0 else multiset(items)[x])
            && (forall n :: n in ProjectOf(items, compactions, count).covered <==> CoveredBySome(ordered, shown, n))
  {
    hide Sort, Filter, Snapped, PlaceAll, CoveredBySome;
    var ordered, shown := Ordered(items), Shown(items, compactions);
    var shelf := ShelfOf(items, compactions, count);
    ShownApart(ordered, NewestFirst(compactions), map[]);
    forall n ensures n in shelf.covered <==> CoveredBySome(ordered, shown, n) {
      CoveredByShown(ordered, NewestFirst(compactions), Shelf(map[], [], []), count, n);
    }
    forall x | x in items
      ensures multiset(Verbatim(items, compactions, count))[x]
              == if CoveredBySome(ordered, shown, x.seqNo) then 0 else multiset(items)[x]
    {
      FilterCount(Uncovered(shelf.covered), ordered, x);
    }
  }

  /** Where no two turns cross, a turn is summarised whole or read whole. */
  lemma TurnsWholeOrVerbatim(items: seq<Item>, compactions: seq<Compaction>, count: Counter)
    requires NonCrossing(items)
    ensures var covered := ProjectOf(items, compactions, count).covered;
            forall x, y | x in items && y in items && SameTurn(x, y) :: x.seqNo in covered <==> y.seqNo in covered
  {
    hide Snap, PlaceAll, Sort, Filter;
    var covered := ProjectOf(items, compactions, count).covered;
    forall x, y | x in items && y in items && SameTurn(x, y) && x.seqNo in covered ensures y.seqNo in covered {
      CoveredTogether(items, compactions, count, x, y);
    }
  }

  lemma CoveredTogether(items: seq<Item>, compactions: seq<Compaction>, count: Counter, x: Item, y: Item)
    requires NonCrossing(items) && x in items && y in items && SameTurn(x, y)
    requires x.seqNo in ProjectOf(items, compactions, count).covered
    ensures y.seqNo in ProjectOf(items, compactions, count).covered
  {
    hide Snapped, PlaceAll, Filter, Sort, NonCrossing, InsideSet;
    var ordered, shown := Ordered(items), Shown(items, compactions);
    EveryEntryReadOnce(items, compactions, count);
    var c :| c in shown && x.seqNo in InsideSet(ordered, c);
    SameElements(items, ordered);
    NonCrossingReordered(items, ordered);
    InsideWhole(ordered, c, x, y);
    assert CoveredBySome(ordered, shown, y.seqNo);
  }

  lemma InsideWhole(ordered: seq<Item>, c: Compaction, x: Item, y: Item)
    requires NonCrossing(ordered) && x in ordered && y in ordered && SameTurn(x, y) && x.seqNo in InsideSet(ordered, c)
    ensures y.seqNo in InsideSet(ordered, c)
  {
    hide Snap, NonCrossing;
    var range := Snapped(c, ordered);
    InsideMembers(ordered, range, x.seqNo);
    SnapIsWhole(ordered, (c.coversFrom, c.coversTo));
    assert Within(x, range) && Within(y, range);
    InsideMembers(ordered, range, y.seqNo);
  }

  lemma NonCrossingReordered(items: seq<Item>, ordered: seq<Item>)
    requires NonCrossing(items) && multiset(items) == multiset(ordered)
    ensures NonCrossing(ordered)
  {
    SameElements(items, ordered);
    forall a, b, x, y | a in ordered && b in ordered && x in ordered && y in ordered
      && SameTurn(a, b) && SameTurn(x, y) && a.turn != x.turn && a.seqNo <= x.seqNo <= b.seqNo
      ensures Enclosed(ordered, a, y)
    {
      assert Enclosed(items, a, y);
      var c, d :| c in items && d in items && SameTurn(a, c) && SameTurn(a, d) && c.seqNo <= y.seqNo <= d.seqNo;
      assert c in ordered && d in ordered;
    }
  }

  lemma {:induction false} FlaggedIsShown(ordered: seq<Item>, active: seq<Compaction>, covered: map<int, int>, k: nat)
    requires k < |active| && Shows(ordered, active, covered)[k]
    ensures active[k] in ShownOf(ordered, active, covered)
  {
    hide Snapped;
    if k > 0 {
      var inside := Inside(ordered, Snapped(active[0], ordered));
      var shown := inside != [] && FirstCovered(inside, covered).None?;
      var covered' := if shown then CoverAll(covered, inside, active[0].seqNo) else covered;
      FlaggedIsShown(ordered, active[1..], covered', k - 1);
    }
  }

  lemma {:induction false} ShownIsFlagged(ordered: seq<Item>, active: seq<Compaction>, covered: map<int, int>,
        c: Compaction)
    returns (k: nat)
    requires c in ShownOf(ordered, active, covered)
    ensures k < |active| && active[k] == c && Shows(ordered, active, covered)[k]
  {
    hide Snapped, CoverAll;
    var inside := Inside(ordered, Snapped(active[0], ordered));
    var shown := inside != [] && FirstCovered(inside, covered).None?;
    if shown && c == active[0] {
      k := 0;
    } else {
      var covered' := if shown then CoverAll(covered, inside, active[0].seqNo) else covered;
      k := ShownIsFlagged(ordered, active[1..], covered', c);
      k := k + 1;
    }
  }

  // ------------------------------------------------------------ switching a row off

  ghost predicate SameReading(s: Shelf, t: Shelf) {
    s.covered == t.covered && s.placed == t.placed
  }

  lemma {:induction false} NoticesUnread(ordered: seq<Item>, active: seq<Compaction>, s: Shelf, t: Shelf,
        count: Counter)
    requires SameReading(s, t)
    ensures SameReading(PlaceAll(ordered, active, s, count), PlaceAll(ordered, active, t, count))
  {
    hide Snapped, LeastPosition, SummarySection, EmptyNotice, SupersededNotice;
    if active != [] {
      NoticesUnread(ordered, active[1..], PlaceOne(ordered, active[0], s, count),
          PlaceOne(ordered, active[0], t, count), count);
    }
  }

  lemma {:induction false} UnshownSkipped(ordered: seq<Item>, active: seq<Compaction>, k: nat, s: Shelf, count: Counter)
    requires k < |active| && !Shows(ordered, active, s.covered)[k]
    ensures SameReading(PlaceAll(ordered, active, s, count), PlaceAll(ordered, active[..k] + active[k + 1..], s, count))
  {
    hide Snapped, LeastPosition, SummarySection, EmptyNotice, SupersededNotice;
    var s' := PlaceOne(ordered, active[0], s, count);
    var left := active[..k] + active[k + 1..];
    if k == 0 {
      assert left == active[1..];
      NoticesUnread(ordered, active[1..], s', s, count);
    } else {
      UnshownSkipped(ordered, active[1..], k - 1, s', count);
      assert left[0] == active[0] && left[1..] == active[1..][..k - 1] + active[1..][k..];
    }
  }

  ghost predicate DistinctRows(compactions: seq<Compaction>) {
    forall i, j | 0 <= i < j < |compactions| :: compactions[i].seqNo != compactions[j].seqNo
  }

  lemma RowsUntied(compactions: seq<Compaction>)
    requires DistinctRows(compactions)
    ensures Untied(Filter(Active, compactions), NewerFirst)
  {
    FilterMembers(Active, compactions);
    forall x, y | x in compactions && y in compactions && x != y ensures NewerFirst(x, y) || NewerFirst(y, x) {
      var i :| 0 <= i < |compactions| && compactions[i] == x;
      var j :| 0 <= j < |compactions| && compactions[j] == y;
    }
  }

  /** Switching one row off takes exactly that row out of the newest-first list. */
  lemma SwitchedOff(compactions: seq<Compaction>, k: nat, p: nat)
    requires DistinctRows(compactions) && k < |compactions| && compactions[k].active
    requires p < |NewestFirst(compactions)| && NewestFirst(compactions)[p] == compactions[k]
    ensures NewestFirst(compactions[k := compactions[k].(active := false)])
            == NewestFirst(compactions)[..p] + NewestFirst(compactions)[p + 1..]
  {
    var c, off := compactions[k], compactions[k].(active := false);
    var after, listed := compactions[k := off], NewestFirst(compactions);
    var left := listed[..p] + listed[p + 1..];
    CountAround(listed, p);
    OneFilteredOut(compactions, k, off);
    assert multiset(left) == multiset(listed[..p]) + multiset(listed[p + 1..]);
    CancelOne(multiset(Filter(Active, after)), multiset(left), c);
    assert DistinctRows(after);
    RowsUntied(after);
    SortSorted(Filter(Active, compactions), NewerFirst);
    SortSorted(Filter(Active, after), NewerFirst);
    SameElements(Filter(Active, after), Sort(Filter(Active, after), NewerFirst));
    SortedUnique(Sort(Filter(Active, after), NewerFirst), left, NewerFirst);
  }

  lemma CancelOne<T>(a: multiset<T>, b: multiset<T>, x: T)
    requires a + multiset{x} == b + multiset{x}
    ensures a == b
  {
    assert (a + multiset{x}) - multiset{x} == a && (b + multiset{x}) - multiset{x} == b;
  }

  lemma OneFilteredOut(compactions: seq<Compaction>, k: nat, off: Compaction)
    requires k < |compactions| && compactions[k].active && !off.active
    ensures multiset(Filter(Active, compactions)) == multiset(Filter(Active, compactions[k := off]))
            + multiset{compactions[k]}
  {
    var a, b := compactions[..k], compactions[k + 1..];
    var after := compactions[k := off];
    assert compactions == a + ([compactions[k]] + b);
    assert after[..k] == a && after[k] == off && after[k + 1..] == b
        && after == after[..k] + ([after[k]] + after[k + 1..]);
    FilterAppend(Active, a, [compactions[k]] + b);
    FilterAppend(Active, a, [off] + b);
    FilterCons(Active, compactions[k], b);
    FilterCons(Active, off, b);
  }

  /** Deactivating a compaction that was not shown changes what is said about it and nothing that is read. */
  lemma DeactivatingUnshown(items: seq<Item>, compactions: seq<Compaction>, k: nat, count: Counter)
    requires DistinctRows(compactions) && k < |compactions| && compactions[k].active
    requires compactions[k] !in Shown(items, compactions)
    ensures var before := ProjectOf(items, compactions, count);
            var after := ProjectOf(items, compactions[k := compactions[k].(active := false)], count);
            after == before.(notices := after.notices)
  {
    var active := NewestFirst(compactions);
    FilterMembers(Active, compactions);
    SameElements(Filter(Active, compactions), active);
    assert compactions[k] in active;
    var p :| 0 <= p < |active| && active[p] == compactions[k];
    SwitchedOff(compactions, k, p);
    hide Sort, PlaceAll, Filter, Shows, ShownOf;
    var start := Shelf(map[], [], []);
    if Shows(Ordered(items), active, start.covered)[p] { FlaggedIsShown(Ordered(items), active, map[], p); }
    UnshownSkipped(Ordered(items), active, p, start, count);
  }

  // ------------------------------------------------------------ what one widening cannot do

  /** Two interleaved turns and a request for the first entry: the second turn is read half as a summary. */
  lemma InterleavedTurnIsSplit(count: Counter)
    ensures var one := Item("a", 1, "user", "?", Some("t"), "message", None);
            var two := Item("b", 2, "user", "!", Some("u"), "message", None);
            var three := Item("c", 3, "assistant", "1", Some("t"), "message", None);
            var four := Item("d", 4, "assistant", "2", Some("u"), "message", None);
            var p := ProjectOf([one, two, three, four], [Compaction(1, "s", 1, 1, true)], count);
            SameTurn(two, four) && 2 in p.covered && 4 !in p.covered
  {
    var one := Item("a", 1, "user", "?", Some("t"), "message", None);
    var two := Item("b", 2, "user", "!", Some("u"), "message", None);
    var three := Item("c", 3, "assistant", "1", Some("t"), "message", None);
    var four := Item("d", 4, "assistant", "2", Some("u"), "message", None);
    var items, c := [one, two, three, four], Compaction(1, "s", 1, 1, true);
    SortOfSorted(items, PositionBefore);
    InterleavedSnap(one, two, three, four);
    assert Filter(Active, [c]) == [c];
    SortOfOne(c);
    OneCompactionSplits(items, c, two, four, count);
  }

  lemma OneCompactionSplits(items: seq<Item>, c: Compaction, two: Item, four: Item, count: Counter)
    requires Ordered(items) == items && NewestFirst([c]) == [c] && Snapped(c, items) == (1, 3)
    requires two in items && two.seqNo == 2 && four.seqNo == 4
    ensures 2 in ProjectOf(items, [c], count).covered && 4 !in ProjectOf(items, [c], count).covered
  {
    hide Snapped, PlaceAll, ShownOf, CoveredBySome, Filter, Map, SummarisedTurns, Sort;
    OnlyShown(items, c, two, four);
    CoveredByShown(items, [c], Shelf(map[], [], []), count, 2);
    CoveredByShown(items, [c], Shelf(map[], [], []), count, 4);
  }

  lemma OnlyShown(items: seq<Item>, c: Compaction, two: Item, four: Item)
    requires Snapped(c, items) == (1, 3) && two in items && two.seqNo == 2 && four.seqNo == 4
    ensures CoveredBySome(items, ShownOf(items, [c], map[]), 2) && !CoveredBySome(items, ShownOf(items, [c], map[]), 4)
  {
    hide Snapped;
    InsideMembers(items, (1, 3), 2);
    InsideMembers(items, (1, 3), 4);
    FirstCoveredNone(Inside(items, (1, 3)), map[]);
    assert ShownOf(items, [c], map[]) == [c] + [];
    SomeCons(items, c, [], 2);
    SomeCons(items, c, [], 4);
  }

  lemma SortOfOne(c: Compaction)
    ensures Sort([c], NewerFirst) == [c]
  {
    SortOfSorted([c], NewerFirst);
  }

  lemma InterleavedSnap(one: Item, two: Item, three: Item, four: Item)
    requires one.seqNo == 1 && two.seqNo == 2 && three.seqNo == 3 && four.seqNo == 4
    requires one.turn == three.turn == Some("t") && two.turn == four.turn == Some("u")
    ensures Snap([one, two, three, four], (1, 1)) == (1, 3)
  {
    var items := [one, two, three, four];
    assert one in items && three in items;
    SnapOfOne(items, one);
    SnapBounds(items, (1, 1));
    assert Touched(items, (1, 1)) == {"t"};
    assert OfTurns(one, {"t"}) && OfTurns(three, {"t"}) && !OfTurns(two, {"t"}) && !OfTurns(four, {"t"});
    hide Snap;
    var r := Snap(items, (1, 1));
    assert Within(three, r);
  }
}
