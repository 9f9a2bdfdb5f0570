/** Projection and allocation together: what a conversation loses, and in what order, when history does not fit. */
module History {
  import opened Sorting
  import opened Text
  import opened Bands
  import opened BandsProofs
  import opened Accounting
  import opened Isolation
  import opened Projection
  import opened ProjectionProofs
  import opened Tokens

  // ------------------------------------------------------------ age as priority

  lemma RoundedNear(num: nat, den: nat)
    requires den > 0
    ensures 2 * num - den <= 2 * RoundHalfEven(num, den) * den <= 2 * num + den
  {
    var q, r := num / den, num % den;
    assert num == q * den + r;
    assert (q + 1) * den == q * den + den;
    assert 2 * q * den == 2 * (q * den) && 2 * (q + 1) * den == 2 * (q * den) + 2 * den;
  }

  lemma RoundedApart(x: nat, y: nat, den: nat)
    requires den > 0 && x > y + den
    ensures RoundHalfEven(x, den) > RoundHalfEven(y, den)
  {
    var a, b := RoundHalfEven(x, den), RoundHalfEven(y, den);
    RoundedNear(x, den);
    RoundedNear(y, den);
    if a <= b {
      LessTimes(a, b, den);
    }
  }

  lemma LessTimes(a: nat, b: nat, den: nat)
    requires a <= b
    ensures 2 * a * den <= 2 * b * den
  {
    assert 2 * b * den == 2 * a * den + 2 * (b - a) * den;
    assert 2 * (b - a) * den >= 0;
  }

  /** Up to 71 entries every entry has a priority of its own, older ones higher, all above a summary's. */
  lemma OlderGoesFirst(i: nat, j: nat, rows: nat)
    requires i < j < rows <= 71
    ensures AgePriority(i, rows) > AgePriority(j, rows)
  {
    var span := rows - 1;
    if span == 70 {
      assert (span - i) * 70 / 70 == span - i && (span - i) * 70 % 70 == 0;
      assert (span - j) * 70 / 70 == span - j && (span - j) * 70 % 70 == 0;
    } else {
      RoundedApart((span - i) * 70, (span - j) * 70, span);
    }
  }

  lemma PriorityRange(i: nat, rows: nat)
    requires i < rows
    ensures NEWEST_PRIORITY <= AgePriority(i, rows) <= OLDEST_PRIORITY
  {
    var span := rows - 1;
    if span > 0 {
      var num := (span - i) * 70;
      RoundedNear(num, span);
      var r := RoundHalfEven(num, span);
      if r > 70 { LessTimes(71, r, span); }
    }
  }

  /**
   * Priority falls from 90 to 20 with age in equal steps, each rounded to the nearest number, and to the even one where
   * two are as near; a single entry is the newest.
   */
  lemma AgePriorityExactly(i: nat, rows: nat)
    requires i < rows
    ensures rows == 1 ==> AgePriority(i, rows) == 20
    ensures rows > 1 ==>
              var span, rise := rows - 1, AgePriority(i, rows) - 20;
              && 2 * rise * span - span <= 140 * (span - i) <= 2 * rise * span + span
              && (140 * (span - i) == 2 * rise * span + span || 140 * (span - i) == 2 * rise * span - span
                  ==> rise % 2 == 0)
  {
    var span := rows - 1;
    if span > 0 { RoundedToEven((span - i) * 70, span); }
  }

  lemma RoundedToEven(num: nat, den: nat)
    requires den > 0
    ensures var q := RoundHalfEven(num, den);
            && 2 * q * den - den <= 2 * num <= 2 * q * den + den
            && (2 * num == 2 * q * den + den || 2 * num == 2 * q * den - den ==> q % 2 == 0)
  {
    var q, r := num / den, num % den;
    assert num == q * den + r;
    assert (q + 1) * den == q * den + den;
    assert 2 * q * den == 2 * (q * den) && 2 * (q + 1) * den == 2 * (q * den) + 2 * den;
  }

  /** The ladder has 71 rungs: ages are told apart by priority alone exactly up to 71 entries. */
  lemma SeventyOneRungs(rows: nat)
    requires rows > 0
    ensures (forall i, j | 0 <= i < j < rows :: AgePriority(i, rows) > AgePriority(j, rows)) <==> rows <= 71
  {
    if rows <= 71 {
      forall i, j | 0 <= i < j < rows ensures AgePriority(i, rows) > AgePriority(j, rows) {
        OlderGoesFirst(i, j, rows);
      }
    }
    if forall i, j | 0 <= i < j < rows :: AgePriority(i, rows) > AgePriority(j, rows) {
      FallsBelow(rows, rows - 1);
      PriorityRange(0, rows);
      PriorityRange(rows - 1, rows);
    }
  }

  lemma {:induction false} FallsBelow(rows: nat, k: nat)
    requires k < rows && forall i, j | 0 <= i < j < rows :: AgePriority(i, rows) > AgePriority(j, rows)
    ensures AgePriority(0, rows) >= AgePriority(k, rows) + k
  {
    if k > 0 {
      FallsBelow(rows, k - 1);
      assert AgePriority(k - 1, rows) > AgePriority(k, rows);
    }
  }

  // ------------------------------------------------------------ the verbatim entries, in order

  function NotSummary(s: Placed): bool { !IsSummary(s) }

  function PairNotSummary(entry: (int, Placed)): bool { !IsSummary(entry.1) }

  /** A stable sort keeps the selected elements in the order sorting them alone would give. */
  lemma {:induction false} FilterInsert<T(!new)>(p: T -> bool, x: T, s: seq<T>, before: (T, T) -> bool)
    requires StrictWeak(before) && Sorted(s, before)
    ensures Filter(p, Insert(x, s, before)) == if p(x) then Insert(x, Filter(p, s), before) else Filter(p, s)
  {
    if s == [] {
      FilterCons(p, x, []);
    } else if !before(s[0], x) {
      FilterCons(p, x, s);
      FilterMembers(p, s);
      if p(x) && Filter(p, s) != [] {
        var y := Filter(p, s)[0];
        assert y in Filter(p, s) && y in s;
        assert !before(y, s[0]);
        assert !before(y, x);
      }
    } else {
      FilterInsert(p, x, s[1..], before);
      FilterCons(p, s[0], Insert(x, s[1..], before));
      FilterCons(p, s[0], s[1..]);
      assert s == [s[0]] + s[1..];
      assert ([s[0]] + Filter(p, s[1..]))[1..] == Filter(p, s[1..]);
    }
  }

  lemma {:induction false} FilterSort<T(!new)>(p: T -> bool, s: seq<T>, before: (T, T) -> bool)
    requires StrictWeak(before)
    ensures Filter(p, Sort(s, before)) == Sort(Filter(p, s), before)
  {
    if s != [] {
      FilterSort(p, s[1..], before);
      SortSorted(s[1..], before);
      FilterInsert(p, s[0], Sort(s[1..], before), before);
      FilterCons(p, s[0], s[1..]);
      assert s == [s[0]] + s[1..];
      assert ([s[0]] + Filter(p, s[1..]))[1..] == Filter(p, s[1..]);
    }
  }

  function TurnsOf(items: seq<Item>, compactions: seq<Compaction>, count: Counter): seq<Placed> {
    Map(SectionOf, TurnSections(Verbatim(items, compactions, count), count))
  }

  lemma TurnPairsSorted(items: seq<Item>, compactions: seq<Compaction>, count: Counter)
    ensures Sorted(TurnSections(Verbatim(items, compactions, count), count), EarlierPlaced)
  {
    hide Sort, Filter, PlaceAll, ItemSection, AgePriority;
    var ordered := Ordered(items);
    SortSorted(items, PositionBefore);
    FilterSorted(Uncovered(ShelfOf(items, compactions, count).covered), ordered, PositionBefore);
    var rows := Verbatim(items, compactions, count);
    var pairs := TurnSections(rows, count);
    forall i, j | 0 <= i < j < |pairs| ensures !EarlierPlaced(pairs[j], pairs[i]) {
      assert !PositionBefore(rows[j], rows[i]);
    }
  }

  /** Reading past the summaries, the prompt's history is the verbatim entries in order. */
  lemma VerbatimInOrder(items: seq<Item>, compactions: seq<Compaction>, count: Counter)
    ensures Filter(NotSummary, ProjectOf(items, compactions, count).sections) == TurnsOf(items, compactions, count)
  {
    hide Sort, Filter, Map, PlaceAll, TurnSections, IsSummary, ShownOf, Snapped, LeastPosition, SummarySection;
    var shown, rows := Shown(items, compactions), Verbatim(items, compactions, count);
    var a, b := Map(PlaceOf(Ordered(items), count), shown), TurnSections(rows, count);
    PlacedAreShown(Ordered(items), NewestFirst(compactions), Shelf(map[], [], []), count);
    assert ShelfOf(items, compactions, count).placed == a;
    FilterMap(NotSummary, PairNotSummary, SectionOf, Sort(a + b, EarlierPlaced));
    FilterSort(PairNotSummary, a + b, EarlierPlaced);
    FilterAppend(PairNotSummary, a, b);
    SummariesAreSummaries(Ordered(items), shown, count);
    TurnSectionsSplit(rows, count);
    PairsSplit(a, b);
    TurnPairsSorted(items, compactions, count);
    SortOfSorted(b, EarlierPlaced);
    assert [] + b == b;
  }

  lemma PairsSplit(a: seq<(int, Placed)>, b: seq<(int, Placed)>)
    requires forall s | s in Map(SectionOf, a) :: IsSummary(s)
    requires forall s | s in Map(SectionOf, b) :: !IsSummary(s)
    ensures Filter(PairNotSummary, a) == [] && Filter(PairNotSummary, b) == b
  {
    hide IsSummary;
    forall x | x in a ensures !PairNotSummary(x) {
      var i :| 0 <= i < |a| && a[i] == x;
      assert Map(SectionOf, a)[i] in Map(SectionOf, a);
    }
    forall x | x in b ensures PairNotSummary(x) {
      var i :| 0 <= i < |b| && b[i] == x;
      assert Map(SectionOf, b)[i] in Map(SectionOf, b);
    }
    FilterNone(PairNotSummary, a);
    FilterAll(PairNotSummary, b);
  }

  // ------------------------------------------------------------ a summary is all or nothing

  lemma JoinLonger(head: string, marker: string, tail: string)
    requires marker != ""
    ensures |Lines([head, tail])| <= |Lines([head, marker, tail])|
  {
    LinesOfTwo(head, tail);
    LinesOfThree(head, marker, tail);
  }

  lemma LinesCons(a: string, rest: seq<string>)
    ensures a == "" ==> Lines([a] + rest) == Lines(rest)
    ensures a != "" ==> |Lines([a] + rest)| == |a| + |Lines(rest)| + if Filter(NonEmpty, rest) == [] then 0 else 1
  {
    FilterCons(NonEmpty, a, rest);
    var kept := Filter(NonEmpty, rest);
    if a == "" {
      assert [] + kept == kept;
    } else if kept == [] {
      assert [a] + kept == [a];
    } else {
      JoinCons(a, kept, "\n");
    }
  }

  lemma LinesOfOne(b: string)
    ensures Lines([b]) == b && (Filter(NonEmpty, [b]) == [] <==> b == "")
  {
    assert [b] == [b] + [];
    FilterCons(NonEmpty, b, []);
  }

  lemma LinesOfTwo(a: string, b: string)
    ensures |Lines([a, b])| == |a| + |b| + if a != "" && b != "" then 1 else 0
    ensures Filter(NonEmpty, [a, b]) == [] <==> a == "" && b == ""
  {
    LinesOfOne(b);
    LinesCons(a, [b]);
    FilterCons(NonEmpty, a, [b]);
    assert [a] + [b] == [a, b];
  }

  lemma LinesOfThree(a: string, m: string, b: string)
    requires m != ""
    ensures |Lines([a, m, b])| >= |a| + |m| + |b| + if a != "" && b != "" then 1 else 0
  {
    LinesOfTwo(m, b);
    LinesCons(a, [m, b]);
    assert [a] + [m, b] == [a, m, b];
  }

  lemma ShownAtMostCost(x: Excerpt, text: string, original: nat, count: Counter)
    requires ByLength(count) && ExcerptOfText(x, text, original, count)
    ensures x.shown <= x.tokens
  {
    var head, tail :| ExcerptBetween(x, text, original, count, head, tail);
    JoinLonger(head, Marker(x.shown, original), tail);
  }

  /** A section whose floor is its whole cost cannot be shortened by a counter that goes by length. */
  lemma FloorForbids(e: Entry, s: Placed, cost: nat, count: Counter)
    requires ByLength(count) && e.section.floorTokens >= e.cost
    ensures !FairlyShortened(e, s, cost, count)
  {
    hide ByLength, ExcerptOfText, ShortenedText;
    if FairlyShortened(e, s, cost, count) {
      var x: Excerpt :| ExcerptOfText(x, e.section.body, e.cost, count) && x.shown >= Max(e.section.floorTokens, 1)
          && cost == x.tokens < e.cost;
      ShownAtMostCost(x, e.section.body, e.cost, count);
    }
  }

  function SummaryEntry(e: Entry): bool { IsSummary(e.section) }

  function TurnEntry(e: Entry): bool { NotSummary(e.section) }

  /** What a projected history looks like to the allocator. */
  ghost predicate Layered(entries: seq<Entry>) {
    forall e | e in entries ::
      && e.cost > 0 && e.section.tokens == e.cost
      && if SummaryEntry(e) then e.section.priority == SUMMARY_PRIORITY && e.section.floorTokens >= e.cost
         else e.section.priority > SUMMARY_PRIORITY
  }

  /** One section of a projection, summary or turn. */
  ghost predicate Shaped(s: Placed, count: Counter) {
    && s.band == History && s.body != "" && s.tokens == count(s.body)
    && if IsSummary(s) then s.priority == SUMMARY_PRIORITY && s.floorTokens == s.tokens
       else s.priority > SUMMARY_PRIORITY
  }

  lemma SummariesShaped(ordered: seq<Item>, shown: seq<Compaction>, count: Counter)
    ensures forall s | s in Map(SectionOf, Map(PlaceOf(ordered, count), shown)) :: Shaped(s, count)
  {
    hide Snapped, LeastPosition, SummarySection, IsSummary;
    var a := Map(SectionOf, Map(PlaceOf(ordered, count), shown));
    SummariesAreSummaries(ordered, shown, count);
    forall s | s in a ensures Shaped(s, count) {
      var k :| 0 <= k < |a| && a[k] == s;
      SummaryShape(shown[k], |Inside(ordered, Snapped(shown[k], ordered))|, count);
    }
  }

  lemma TurnsShaped(rows: seq<Item>, count: Counter)
    ensures forall s | s in Map(SectionOf, TurnSections(rows, count)) :: Shaped(s, count)
  {
    hide AgePriority, IsSummary;
    var b := Map(SectionOf, TurnSections(rows, count));
    TurnSectionsSplit(rows, count);
    forall s | s in b ensures Shaped(s, count) {
      var k :| 0 <= k < |b| && b[k] == s;
      PriorityRange(k, |rows|);
    }
  }

  lemma ProjectedShaped(items: seq<Item>, compactions: seq<Compaction>, count: Counter)
    ensures forall s | s in ProjectOf(items, compactions, count).sections :: Shaped(s, count)
  {
    hide Sort, Filter, PlaceAll, ProjectOf, Shown, Verbatim, Map, TurnSections, Shaped;
    var sections := ProjectOf(items, compactions, count).sections;
    var shown, rows := Shown(items, compactions), Verbatim(items, compactions, count);
    var a, b := Map(SectionOf, Map(PlaceOf(Ordered(items), count), shown)), Map(SectionOf, TurnSections(rows, count));
    SectionsOfProjection(items, compactions, count);
    SummariesShaped(Ordered(items), shown, count);
    TurnsShaped(rows, count);
    forall s | s in sections ensures Shaped(s, count) {
      assert s in multiset(sections);
      assert s in a || s in b;
    }
  }

  lemma ProjectedLayered(sections: seq<Placed>, count: Counter)
    requires ByLength(count) && forall s | s in sections :: Shaped(s, count)
    ensures Layered(NumberFrom(sections, 0, count))
  {
    hide IsSummary;
    var entries := NumberFrom(sections, 0, count);
    forall e | e in entries ensures Shaped(e.section, count) && e.cost == count(e.section.body) {
      var k :| 0 <= k < |entries| && entries[k] == e;
      assert sections[k] in sections;
    }
  }

  lemma SummaryShape(c: Compaction, n: nat, count: Counter)
    ensures var s := SummarySection(c, n, count);
            s.band == History && s.body != "" && s.tokens == count(s.body) == s.floorTokens
                && s.priority == SUMMARY_PRIORITY
  {
  }

  /** No summary is shortened, and none is dropped while a verbatim entry is still there. */
  lemma SummariesLast(entries: seq<Entry>, allocation: int, count: Counter)
    requires Layered(entries) && ByLength(count)
    ensures var ranked, outcomes := Ranked(entries), OutcomesOf(entries, allocation, count);
            && (forall i | 0 <= i < |ranked| && SummaryEntry(ranked[i]) :: !outcomes[i].Shortened?)
            && (forall i, j | 0 <= i < |ranked| && 0 <= j < |ranked| && SummaryEntry(ranked[i]) && outcomes[i].Dropped?
                              && !SummaryEntry(ranked[j]) :: outcomes[j].Dropped?)
  {
    hide GiveUp, IsSummary, FairlyDropped, FairlyShortened;
    var ranked, outcomes := Ranked(entries), OutcomesOf(entries, allocation, count);
    var cut := CutPoint(ranked, Total(entries), allocation, count);
    GivenUpBeforeStrict();
    SortSorted(entries, GivenUpBefore);
    SameElements(entries, ranked);
    forall i | 0 <= i < |ranked| && SummaryEntry(ranked[i]) ensures !outcomes[i].Shortened? {
      assert ranked[i] in entries && Fair(ranked[i], outcomes[i], count);
      if outcomes[i].Shortened? { FloorForbids(ranked[i], outcomes[i].section, outcomes[i].cost, count); }
    }
    forall i, j | 0 <= i < |ranked| && 0 <= j < |ranked| && SummaryEntry(ranked[i]) && outcomes[i].Dropped?
                  && !SummaryEntry(ranked[j])
      ensures outcomes[j].Dropped?
    {
      assert ranked[i] in entries && ranked[j] in entries;
      assert GivenUpBefore(ranked[j], ranked[i]);
      assert j < i <= cut;
    }
  }

  /** What is shown of a section: itself, or its shortening. Its id never changes. */
  lemma SurvivorOrigin(entries: seq<Entry>, allocation: int, count: Counter, r: Entry) returns (j: nat)
    requires r in FitOf(entries, allocation, count).survivors
    ensures var ranked, outcomes := Ranked(entries), OutcomesOf(entries, allocation, count);
            && j < |ranked| && ranked[j] in entries && !outcomes[j].Dropped?
            && r == After(ranked[j], outcomes[j]) && r.section.id == ranked[j].section.id
  {
    hide GiveUp, FairlyDropped;
    var ranked, outcomes := Ranked(entries), OutcomesOf(entries, allocation, count);
    SameElements(Remaining(ranked, outcomes), FitOf(entries, allocation, count).survivors);
    j := RemainingFrom(ranked, outcomes, r);
    SameElements(entries, ranked);
    OutcomesFair(entries, allocation, count);
    assert ranked[j] in ranked && Fair(ranked[j], outcomes[j], count);
  }

  lemma KeptSurvives(entries: seq<Entry>, allocation: int, count: Counter, i: nat)
    requires i < |Ranked(entries)| && OutcomesOf(entries, allocation, count)[i].Kept?
    ensures Ranked(entries)[i] in FitOf(entries, allocation, count).survivors
  {
    hide GiveUp;
    var ranked, outcomes := Ranked(entries), OutcomesOf(entries, allocation, count);
    RemainingAt(ranked, outcomes, i);
    SameElements(Remaining(ranked, outcomes), FitOf(entries, allocation, count).survivors);
  }

  /** The same, in terms of one band's fit. */
  lemma SummariesFit(entries: seq<Entry>, allocation: int, count: Counter)
    requires Layered(entries) && ByLength(count)
    ensures var survivors := FitOf(entries, allocation, count).survivors;
            && (forall r | r in survivors && SummaryEntry(r) :: r in entries)
            && (forall e, r | e in entries && SummaryEntry(e) && e !in survivors && r in survivors :: SummaryEntry(r))
  {
    hide FitOf, OutcomesOf, Ranked, FairlyShortened, Layered;
    SummariesLast(entries, allocation, count);
    var ranked, outcomes := Ranked(entries), OutcomesOf(entries, allocation, count);
    var survivors := FitOf(entries, allocation, count).survivors;
    forall r | r in survivors && SummaryEntry(r) ensures r in entries {
      var j := SurvivorOrigin(entries, allocation, count, r);
      assert SummaryEntry(ranked[j]);
    }
    forall e, r | e in entries && SummaryEntry(e) && e !in survivors && r in survivors ensures SummaryEntry(r) {
      var j := SurvivorOrigin(entries, allocation, count, r);
      SameElements(entries, ranked);
      assert e in ranked;
      var i :| 0 <= i < |ranked| && ranked[i] == e;
      assert outcomes[i].Dropped? by {
        if outcomes[i].Kept? { KeptSurvives(entries, allocation, count, i); }
      }
      assert outcomes[j].Dropped? || SummaryEntry(ranked[j]);
    }
  }

  /** A summary is never shortened, and is dropped only when every verbatim entry was. */
  lemma SummaryAllOrNothing(items: seq<Item>, compactions: seq<Compaction>, budget: Budget, count: Counter)
    requires ByLength(count)
    ensures var p := ProjectOf(items, compactions, count);
            var a := AssembledOf(p.sections, budget, count);
            && (forall s | s in a.sections && IsSummary(s) :: s in p.sections)
            && ((exists s | s in p.sections :: IsSummary(s) && s !in a.sections)
                ==> forall t | t in a.sections :: IsSummary(t))
  {
    hide ProjectOf, FitOf, AssembledOf, IsSummary, Ceiling;
    var sections := ProjectOf(items, compactions, count).sections;
    var entries := NumberFrom(sections, 0, count);
    ProjectedShaped(items, compactions, count);
    ProjectedLayered(sections, count);
    OneBandAllocated(sections, History, budget, count);
    SummariesFit(entries, Ceiling(budget, History), count);
    SummariesRecounted(sections, entries, FitOf(entries, Ceiling(budget, History), count).survivors, count);
  }

  lemma SummariesRecounted(sections: seq<Placed>, entries: seq<Entry>, survivors: seq<Entry>, count: Counter)
    requires entries == NumberFrom(sections, 0, count) && forall s | s in sections :: Shaped(s, count)
    requires forall r | r in survivors && SummaryEntry(r) :: r in entries
    requires forall e, r | e in entries && SummaryEntry(e) && e !in survivors && r in survivors :: SummaryEntry(r)
    ensures var shown := Map(Recounted, survivors);
            && (forall s | s in shown && IsSummary(s) :: s in sections)
            && ((exists s | s in sections :: IsSummary(s) && s !in shown) ==> forall t | t in shown :: IsSummary(t))
  {
    var shown := Map(Recounted, survivors);
    forall s | s in shown && IsSummary(s) ensures s in sections {
      var k :| 0 <= k < |shown| && shown[k] == s;
      assert survivors[k] in survivors && SummaryEntry(survivors[k]);
      EntryRecounted(sections, entries, survivors[k], count);
    }
    if s :| s in sections && IsSummary(s) && s !in shown {
      var i :| 0 <= i < |sections| && sections[i] == s;
      EntryRecounted(sections, entries, entries[i], count);
      assert entries[i] !in survivors by {
        if entries[i] in survivors { ShownWhenSurviving(survivors, entries[i]); }
      }
      forall t | t in shown ensures IsSummary(t) {
        var k :| 0 <= k < |shown| && shown[k] == t;
        assert survivors[k] in survivors && SummaryEntry(survivors[k]);
      }
    }
  }

  lemma ShownWhenSurviving(survivors: seq<Entry>, r: Entry)
    requires r in survivors
    ensures Recounted(r) in Map(Recounted, survivors)
  {
    var k :| 0 <= k < |survivors| && survivors[k] == r;
    assert Map(Recounted, survivors)[k] == Recounted(r);
  }

  lemma EntryRecounted(sections: seq<Placed>, entries: seq<Entry>, e: Entry, count: Counter)
    requires entries == NumberFrom(sections, 0, count) && forall s | s in sections :: Shaped(s, count)
    requires e in entries
    ensures Recounted(e) == e.section && e.section in sections
  {
    hide IsSummary;
    var i :| 0 <= i < |entries| && entries[i] == e;
    assert sections[i] in sections && Shaped(sections[i], count);
  }

  // ------------------------------------------------------------ the newest suffix survives

  /** Marked elements strictly precede unmarked ones. */
  ghost predicate MarkedPrecede<T>(p: T -> bool, s: seq<T>, before: (T, T) -> bool) {
    forall x, y | x in s && y in s && p(x) && !p(y) :: before(x, y)
  }

  lemma UnmarkedThenOnwards<T(!new)>(p: T -> bool, s: seq<T>, before: (T, T) -> bool)
    requires s != [] && Sorted(s, before) && MarkedPrecede(p, s, before) && !p(s[0])
    ensures Filter(p, s[1..]) == []
  {
    forall x | x in s[1..] ensures !p(x) {
      var i :| 0 <= i < |s[1..]| && s[1..][i] == x;
      assert !before(s[i + 1], s[0]) && s[i + 1] in s && s[0] in s;
    }
    FilterNone(p, s[1..]);
  }

  lemma MarkedTail<T>(p: T -> bool, s: seq<T>, before: (T, T) -> bool)
    requires s != [] && MarkedPrecede(p, s, before)
    ensures MarkedPrecede(p, s[1..], before)
  {
    assert forall x | x in s[1..] :: x in s;
  }

  /** In a sorted list, if everything marked comes strictly before everything unmarked, the marked form a prefix. */
  lemma {:induction false} MarkedFirst<T(!new)>(p: T -> bool, q: T -> bool, s: seq<T>, before: (T, T) -> bool)
    requires Sorted(s, before) && MarkedPrecede(p, s, before) && forall x :: q(x) == !p(x)
    ensures s == Filter(p, s) + Filter(q, s)
  {
    hide MarkedPrecede;
    if s != [] {
      MarkedTail(p, s, before);
      MarkedFirst(p, q, s[1..], before);
      if !p(s[0]) { UnmarkedThenOnwards(p, s, before); }
      assert s == [s[0]] + s[1..];
    }
  }

  /** Priorities fall strictly along the list. */
  ghost predicate Falling(entries: seq<Entry>) {
    forall i, j | 0 <= i < j < |entries| :: entries[i].section.priority > entries[j].section.priority
  }

  lemma FallingSorted(rows: seq<Entry>)
    requires Falling(rows)
    ensures Sorted(rows, GivenUpBefore)
  {
  }

  lemma TurnsPrecede(ranked: seq<Entry>)
    requires Layered(ranked)
    ensures MarkedPrecede(TurnEntry, ranked, GivenUpBefore)
  {
    hide IsSummary;
  }

  /** The give-up order of a projected history: the verbatim entries oldest first, then the summaries. */
  lemma GiveUpOrder(entries: seq<Entry>)
    requires Layered(entries) && Falling(Filter(TurnEntry, entries))
    ensures Ranked(entries) == Filter(TurnEntry, entries) + Filter(SummaryEntry, Ranked(entries))
  {
    hide IsSummary, GivenUpBefore, Sort, Falling, Filter, StrictWeak, Sorted, MarkedPrecede;
    var ranked := Ranked(entries);
    GivenUpBeforeStrict();
    SortSorted(entries, GivenUpBefore);
    SameElements(entries, ranked);
    FallingSorted(Filter(TurnEntry, entries));
    TurnsPrecede(ranked);
    MarkedFirst(TurnEntry, SummaryEntry, ranked, GivenUpBefore);
    FilterSort(TurnEntry, entries, GivenUpBefore);
    SortOfSorted(Filter(TurnEntry, entries), GivenUpBefore);
  }

  lemma {:induction false} RemainingAppend(a: seq<Entry>, b: seq<Entry>, o: seq<Outcome>, p: seq<Outcome>)
    requires |o| == |a| && |p| == |b|
    ensures Remaining(a + b, o + p) == Remaining(a, o) + Remaining(b, p)
  {
    hide After;
    if a == [] {
      assert a + b == b && o + p == p;
    } else {
      RemainingAppend(a[1..], b, o[1..], p);
      Regroup(a, b);
      Regroup(o, p);
      RemainingCons(a[0], o[0], a[1..] + b, o[1..] + p);
      RemainingCons(a[0], o[0], a[1..], o[1..]);
    }
  }

  lemma RemainingCons(e: Entry, o: Outcome, rest: seq<Entry>, outcomes: seq<Outcome>)
    requires |rest| == |outcomes|
    ensures Remaining([e] + rest, [o] + outcomes)
            == (if o.Dropped? then [] else [After(e, o)]) + Remaining(rest, outcomes)
  {
    hide After;
    assert ([e] + rest)[1..] == rest && ([o] + outcomes)[1..] == outcomes;
  }

  /** Past the cut everything is kept; before it everything is dropped: a suffix, with at most its first element cut. */
  ghost predicate NewestSuffix(rows: seq<Entry>, outcomes: seq<Outcome>, m: nat) {
    && |rows| == |outcomes| && m <= |rows|
    && (forall i | 0 <= i < m :: outcomes[i].Dropped?)
    && (forall i | m <= i < |rows| :: !outcomes[i].Dropped?)
    && (forall i | m < i < |rows| :: outcomes[i].Kept?)
  }

  lemma {:induction false} RemainingSuffix(rows: seq<Entry>, outcomes: seq<Outcome>, m: nat)
    requires NewestSuffix(rows, outcomes, m)
    ensures Remaining(rows, outcomes) == if m == |rows| then [] else [After(rows[m], outcomes[m])] + rows[m + 1..]
  {
    hide After;
    if rows != [] {
      PilesUnfold(rows, outcomes);
      if m > 0 {
        RemainingSuffix(rows[1..], outcomes[1..], m - 1);
      } else {
        AllKeptRemain(rows[1..], outcomes[1..]);
      }
    }
  }

  lemma {:induction false} AllKeptRemain(rows: seq<Entry>, outcomes: seq<Outcome>)
    requires |rows| == |outcomes| && forall i | 0 <= i < |rows| :: outcomes[i].Kept?
    ensures Remaining(rows, outcomes) == rows
  {
    if rows != [] {
      AllKeptRemain(rows[1..], outcomes[1..]);
      PilesUnfold(rows, outcomes);
    }
  }

  lemma CutIsSuffix(rows: seq<Entry>, summaries: seq<Entry>, outcomes: seq<Outcome>, cut: nat, count: Counter)
        returns (m: nat)
    requires CutAt(rows + summaries, outcomes, cut, count) && forall e | e in rows :: e.cost > 0
    ensures NewestSuffix(rows, outcomes[..|rows|], m)
  {
    hide Fair;
    var ranked := rows + summaries;
    m := if cut < |rows| && outcomes[cut].Dropped? then cut + 1 else Min(cut, |rows|);
    forall i | 0 <= i < |rows| ensures ranked[i].cost > 0 {
      assert rows[i] in rows;
    }
  }

  /** Sorting what is left back into prompt order and reading past the summaries. */
  lemma TurnsLeftOf(entries: seq<Entry>, rows: seq<Entry>, summaries: seq<Entry>, o: seq<Outcome>, p: seq<Outcome>,
                    count: Counter, m: nat)
    requires |o| == |rows| && |p| == |summaries| && AllFair(rows, o, count) && AllFair(summaries, p, count)
    requires forall e | e in rows :: !SummaryEntry(e)
    requires forall e | e in summaries :: SummaryEntry(e)
    requires InOrder(entries) && rows == Filter(TurnEntry, entries) && NewestSuffix(rows, o, m)
    ensures Filter(TurnEntry, Sort(Remaining(rows + summaries, o + p), ByOrder))
            == if m == |rows| then [] else [After(rows[m], o[m])] + rows[m + 1..]
  {
    hide Fair, After, NewestSuffix, Sort, Filter, Remaining;
    var left, kept := Remaining(rows, o), Remaining(summaries, p);
    RemainingAppend(rows, summaries, o, p);
    KindsRemain(rows, o, count, false);
    KindsRemain(summaries, p, count, true);
    OrdersStrict();
    FilterSort(TurnEntry, left + kept, ByOrder);
    FilterAppend(TurnEntry, left, kept);
    assert left + [] == left;
    LeftInOrder(entries, rows, o, m);
    SortOfSorted(left, ByOrder);
    RemainingSuffix(rows, o, m);
  }

  /** What is left of the verbatim entries, read in order. */
  lemma TurnsLeft(entries: seq<Entry>, allocation: int, count: Counter) returns (m: nat, outcomes: seq<Outcome>)
    requires Layered(entries) && Falling(Filter(TurnEntry, entries)) && InOrder(entries)
    ensures var rows := Filter(TurnEntry, entries);
            && NewestSuffix(rows, outcomes, m) && AllFair(rows, outcomes, count)
            && Filter(TurnEntry, FitOf(entries, allocation, count).survivors)
               == if m == |rows| then [] else [After(rows[m], outcomes[m])] + rows[m + 1..]
  {
    hide GiveUp, Fair, IsSummary, NewestSuffix, Sort, Filter, Remaining, After, CutAt;
    var rows, ranked, all := Filter(TurnEntry, entries), Ranked(entries), OutcomesOf(entries, allocation, count);
    var summaries := Filter(SummaryEntry, ranked);
    GiveUpOrder(entries);
    FilterMembers(TurnEntry, entries);
    FilterMembers(SummaryEntry, ranked);
    var cut := CutPoint(ranked, Total(entries), allocation, count);
    m := CutIsSuffix(rows, summaries, all, cut, count);
    outcomes := all[..|rows|];
    assert all == outcomes + all[|rows|..];
    OutcomesFair(entries, allocation, count);
    FairSplit(rows, summaries, outcomes, all[|rows|..], count);
    TurnsLeftOf(entries, rows, summaries, outcomes, all[|rows|..], count, m);
  }

  lemma FairSplit(a: seq<Entry>, b: seq<Entry>, o: seq<Outcome>, p: seq<Outcome>, count: Counter)
    requires |a| == |o| && |b| == |p| && AllFair(a + b, o + p, count)
    ensures AllFair(a, o, count) && AllFair(b, p, count)
  {
    hide Fair;
    forall i | 0 <= i < |a| ensures Fair(a[i], o[i], count) { assert Fair((a + b)[i], (o + p)[i], count); }
    forall i | 0 <= i < |b| ensures Fair(b[i], p[i], count) { assert Fair((a + b)[|a| + i], (o + p)[|a| + i], count); }
  }

  lemma KindKept(e: Entry, o: Outcome, count: Counter)
    requires Fair(e, o, count)
    ensures After(e, o).section.id == e.section.id && After(e, o).order == e.order
  {
  }

  /** Shortening does not turn a summary into a turn or a turn into a summary. */
  lemma KindsRemain(ranked: seq<Entry>, outcomes: seq<Outcome>, count: Counter, summaries: bool)
    requires |ranked| == |outcomes| && AllFair(ranked, outcomes, count)
    requires forall e | e in ranked :: SummaryEntry(e) == summaries
    ensures Filter(TurnEntry, Remaining(ranked, outcomes)) == if summaries then [] else Remaining(ranked, outcomes)
  {
    hide After, Fair;
    var left := Remaining(ranked, outcomes);
    forall r | r in left ensures TurnEntry(r) == !summaries {
      var j := RemainingFrom(ranked, outcomes, r);
      KindKept(ranked[j], outcomes[j], count);
      assert ranked[j] in ranked;
    }
    if summaries { FilterNone(TurnEntry, left); } else { FilterAll(TurnEntry, left); }
  }

  lemma {:induction false} FilterInOrder(p: Entry -> bool, entries: seq<Entry>)
    requires InOrder(entries)
    ensures InOrder(Filter(p, entries))
  {
    if entries != [] {
      FilterInOrder(p, entries[1..]);
      FilterMembers(p, entries[1..]);
      var rest := Filter(p, entries[1..]);
      forall e | e in rest ensures entries[0].order < e.order { assert e in entries[1..]; }
      InOrderCons(entries[0], rest);
    }
  }

  lemma LeftInOrder(entries: seq<Entry>, rows: seq<Entry>, o: seq<Outcome>, m: nat)
    requires InOrder(entries) && rows == Filter(TurnEntry, entries) && NewestSuffix(rows, o, m)
    ensures Sorted(Remaining(rows, o), ByOrder)
  {
    FilterInOrder(TurnEntry, entries);
    RemainingSuffix(rows, o, m);
  }

  /** `shown` is `turns` from the `m`-th on: whole, but for the first, which may be a fair shortening. */
  ghost predicate SurvivingSuffix(turns: seq<Placed>, shown: seq<Placed>, m: nat, count: Counter) {
    && m <= |turns| && |shown| == |turns| - m
    && (forall i | 0 < i < |shown| :: shown[i] == turns[m + i])
    && (shown != [] ==> ShownAs(turns[m], shown[0], count))
  }

  function SectionOfEntry(e: Entry): Placed { e.section }

  lemma RowsAreTurns(sections: seq<Placed>, count: Counter)
    ensures Map(SectionOfEntry, Filter(TurnEntry, NumberFrom(sections, 0, count))) == Filter(NotSummary, sections)
  {
    var entries := NumberFrom(sections, 0, count);
    assert Map(SectionOfEntry, entries) == sections;
    FilterMap(NotSummary, TurnEntry, SectionOfEntry, entries);
  }

  lemma TurnsFall(items: seq<Item>, compactions: seq<Compaction>, count: Counter, rows: seq<Entry>)
    requires Map(SectionOfEntry, rows) == TurnsOf(items, compactions, count)
    requires |Verbatim(items, compactions, count)| <= 71
    ensures Falling(rows)
  {
    hide Verbatim, AgePriority;
    var n := |Verbatim(items, compactions, count)|;
    var turns := TurnsOf(items, compactions, count);
    forall i, j | 0 <= i < j < |rows| ensures rows[i].section.priority > rows[j].section.priority {
      OlderGoesFirst(i, j, n);
      assert turns[i].priority == AgePriority(i, n) && turns[j].priority == AgePriority(j, n);
    }
  }

  lemma NumberedInOrder(sections: seq<Placed>, count: Counter)
    ensures InOrder(NumberFrom(sections, 0, count))
    ensures forall e | e in NumberFrom(sections, 0, count) :: e.cost == count(e.section.body)
  {
  }

  lemma RecountedKinds()
    ensures forall e :: NotSummary(Recounted(e)) == TurnEntry(e)
  {
  }

  lemma BandOfShaped(sections: seq<Placed>, count: Counter)
    requires forall s | s in sections :: Shaped(s, count)
    ensures forall s | s in sections :: s.band == History
  {
  }

  /**
   * With at most 71 verbatim entries, what survives is a contiguous newest suffix, cut if at all in its oldest member.
   */
  lemma NewestTurnsSurvive(items: seq<Item>, compactions: seq<Compaction>, budget: Budget, count: Counter)
    requires ByLength(count) && |Verbatim(items, compactions, count)| <= 71
    ensures exists m :: SurvivingSuffix(
              TurnsOf(items, compactions, count),
              Filter(NotSummary, AssembledOf(ProjectOf(items, compactions, count).sections, budget, count).sections),
              m, count)
  {
    hide ProjectOf, FitOf, AssembledOf, IsSummary, Ceiling, TurnsOf, Verbatim, NewestSuffix, Layered, Falling;
    hide AllFair, Shaped, Filter, Map, SurvivingSuffix, ByLength, After, InOrder, NumberFrom;
    var sections := ProjectOf(items, compactions, count).sections;
    var entries := NumberFrom(sections, 0, count);
    NumberedInOrder(sections, count);
    var rows, turns := Filter(TurnEntry, entries), TurnsOf(items, compactions, count);
    var survivors := FitOf(entries, Ceiling(budget, History), count).survivors;
    ProjectedShaped(items, compactions, count);
    ProjectedLayered(sections, count);
    BandOfShaped(sections, count);
    OneBandAllocated(sections, History, budget, count);
    VerbatimInOrder(items, compactions, count);
    RowsAreTurns(sections, count);
    TurnsFall(items, compactions, count, rows);
    var m, outcomes := TurnsLeft(entries, Ceiling(budget, History), count);
    RecountedKinds();
    FilterMap(NotSummary, TurnEntry, Recounted, survivors);
    SuffixShown(entries, rows, turns, outcomes, Map(Recounted, Filter(TurnEntry, survivors)), m, count);
  }

  lemma SuffixShown(entries: seq<Entry>, rows: seq<Entry>, turns: seq<Placed>, outcomes: seq<Outcome>,
                    shown: seq<Placed>, m: nat, count: Counter)
    requires rows == Filter(TurnEntry, entries) && Map(SectionOfEntry, rows) == turns && Layered(entries)
    requires forall e | e in entries :: e.cost == count(e.section.body)
    requires NewestSuffix(rows, outcomes, m) && AllFair(rows, outcomes, count)
    requires shown == Map(Recounted, if m == |rows| then [] else [After(rows[m], outcomes[m])] + rows[m + 1..])
    ensures SurvivingSuffix(turns, shown, m, count)
  {
    hide IsSummary, FairlyShortened, FairlyDropped;
    FilterMembers(TurnEntry, entries);
    forall k | 0 <= k < |rows| ensures Recounted(rows[k]) == turns[k] && rows[k].cost == count(turns[k].body) {
      assert rows[k] in rows && rows[k] in entries;
    }
    if m < |rows| {
      assert Fair(rows[m], outcomes[m], count);
      FirstShown(rows[m], outcomes[m], count);
    }
  }

  lemma FirstShown(e: Entry, o: Outcome, count: Counter)
    requires Fair(e, o, count) && !o.Dropped? && e.cost == count(e.section.body)
    ensures ShownAs(e.section, Recounted(After(e, o)), count)
  {
    if o.Shortened? {
      var x: Excerpt :| ExcerptOfText(x, e.section.body, e.cost, count) && x.shown >= Floor(e.section)
          && o.cost == x.tokens < e.cost
        && o.section == e.section.(body := x.body, tokens := x.tokens, truncated := true,
                                   notice := ShortenedText(e.section, x.shown, e.cost));
      var head, tail :| ExcerptBetween(x, e.section.body, e.cost, count, head, tail);
      assert FairlyShortened(Entry(0, e.section, e.cost), o.section, o.cost, count);
    }
  }
}
