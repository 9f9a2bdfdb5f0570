/** What the projected history reads, section by section, and what is said of the compactions left out of it. */
module Prompt {
  import opened Sorting
  import opened Text
  import opened Bands
  import opened Projection
  import opened ProjectionProofs

  // ------------------------------------------------------------ what a section says

  /** A number as it is printed. */
  function Printed(n: int): string { if n < 0 then "-" + Decimal(-n) else Decimal(n) }

  /** Where an entry stands: where it was put, or else where it was appended. */
  function Place(x: Item): int { if x.order.Some? then x.order.value else x.seqNo }

  function Between(low: int, high: int): Item -> bool { (x: Item) => low <= x.seqNo && x.seqNo <= high }

  /** The entries a compaction stands for: the ones in its requested range, widened. */
  function Replaced(items: seq<Item>, c: Compaction): seq<Item> {
    var range := Snap(Ordered(items), (c.coversFrom, c.coversTo));
    Filter(Between(range.0, range.1), items)
  }

  /** A shown summary says how many entries it stands for, that their text is gone, and then its own text. */
  ghost predicate ReadsAsSummary(s: Placed, c: Compaction, entries: nat, count: Counter) {
    && s.id == "history.summary." + Printed(c.seqNo) && s.band == History
    && s.body == "[harness: " + Decimal(entries) + " earlier entries were replaced by this extract to save room. "
                 + "Your replies and the tool results from that part are not shown.]\n" + c.summary
    && s.tokens == count(s.body) && s.floorTokens == s.tokens && s.priority == 10
    && s.title == "Earlier in this conversation" && !s.truncated && s.notice == ""
  }

  /** An entry read verbatim says who spoke and what was said. */
  ghost predicate ReadsAsEntry(s: Placed, x: Item, count: Counter) {
    && s.id == "history.item." + x.id && s.band == History && s.body == x.role + ": " + x.body
    && s.tokens == count(s.body) && s.floorTokens == 0 && s.title == x.kind && !s.truncated && s.notice == ""
  }

  /** The earliest of these places. */
  ghost predicate StandsFirst(entries: seq<Item>, place: int) {
    && (exists x | x in entries :: Place(x) == place)
    && forall x | x in entries :: place <= Place(x)
  }

  // ------------------------------------------------------------ the pieces

  lemma {:induction false} LeastExactly(items: seq<Item>, range: (int, int), otherwise: int)
    ensures var inside, least := Filter(Between(range.0, range.1), items), LeastPosition(items, range, otherwise);
            && |Inside(items, range)| == |inside|
            && (if inside == [] then least == otherwise else StandsFirst(inside, least))
  {
    if items != [] {
      LeastExactly(items[1..], range, otherwise);
      var rest := Filter(Between(range.0, range.1), items[1..]);
      if Within(items[0], range) {
        StandsFirstCons(items[0], rest, LeastPosition(items[1..], range, otherwise));
      }
    }
  }

  lemma StandsFirstCons(x: Item, rest: seq<Item>, least: int)
    requires rest != [] ==> StandsFirst(rest, least)
    ensures StandsFirst([x] + rest, if rest == [] || Place(x) < least then Place(x) else least)
  {
    assert x in [x] + rest && forall y | y in rest :: y in [x] + rest;
  }

  lemma StandsFirstPermuted(s: seq<Item>, t: seq<Item>, place: int)
    requires multiset(s) == multiset(t) && StandsFirst(s, place)
    ensures StandsFirst(t, place)
  {
    SameElements(s, t);
  }

  lemma SummaryPlaced(items: seq<Item>, c: Compaction, count: Counter)
    requires InsideSet(Ordered(items), c) != {}
    ensures var placed := PlaceOf(Ordered(items), count)(c);
            ReadsAsSummary(placed.1, c, |Replaced(items, c)|, count) && StandsFirst(Replaced(items, c), placed.0)
  {
    hide Ordered, Snap, LeastPosition, Filter;
    var ordered, range := Ordered(items), Snap(Ordered(items), (c.coversFrom, c.coversTo));
    LeastExactly(ordered, range, range.0);
    assert multiset(ordered) == multiset(items) by { OrderedAgain(items); }
    FilterPermuted(Between(range.0, range.1), ordered, items);
    var a, b := Filter(Between(range.0, range.1), ordered), Filter(Between(range.0, range.1), items);
    SameLength(a, b);
    assert Inside(ordered, range) != [] by { HoldsSome(ordered, c, range); }
    StandsFirstPermuted(a, b, LeastPosition(ordered, range, range.0));
  }

  lemma OrderedAgain(items: seq<Item>)
    ensures multiset(Ordered(items)) == multiset(items)
  {
  }

  lemma HoldsSome(ordered: seq<Item>, c: Compaction, range: (int, int))
    requires range == Snap(ordered, (c.coversFrom, c.coversTo)) && InsideSet(ordered, c) != {}
    ensures Inside(ordered, range) != []
  {
  }

  lemma EntryPlaced(rows: seq<Item>, k: nat, count: Counter)
    requires k < |rows|
    ensures var placed := TurnSections(rows, count)[k];
            ReadsAsEntry(placed.1, rows[k], count) && placed.0 == Place(rows[k])
            && placed.1.priority == AgePriority(k, |rows|)
  {
  }

  // ------------------------------------------------------------ the whole history

  ghost predicate SummariesRead(sections: seq<Placed>, at: seq<nat>, items: seq<Item>, shown: seq<Compaction>,
                                count: Counter)
  {
    && |at| == |shown| && Places(at, |sections|)
    && forall k | 0 <= k < |shown| :: ReadsAsSummary(sections[at[k]], shown[k], |Replaced(items, shown[k])|, count)
  }

  ghost predicate EntriesRead(sections: seq<Placed>, at: seq<nat>, rows: seq<Item>, count: Counter) {
    && |at| == |rows| && Places(at, |sections|)
    && (forall k | 0 <= k < |rows| :: ReadsAsEntry(sections[at[k]], rows[k], count))
    && forall k | 0 <= k < |rows| :: sections[at[k]].priority == AgePriority(k, |rows|)
  }

  /** A summary stands before an entry, or after it, as the first entry it stands for did. */
  ghost predicate StandsAsFirst(items: seq<Item>, c: Compaction, summary: nat, x: Item, entry: nat) {
    exists place | StandsFirst(Replaced(items, c), place) ::
      if summary < entry then place <= Place(x) else Place(x) <= place
  }

  ghost predicate SummariesStand(items: seq<Item>, shown: seq<Compaction>, summaries: seq<nat>, rows: seq<Item>,
                                 entries: seq<nat>)
    requires |summaries| == |shown| && |entries| == |rows|
  {
    forall k, m | 0 <= k < |shown| && 0 <= m < |rows| ::
      StandsAsFirst(items, shown[k], summaries[k], rows[m], entries[m])
  }

  /**
   * The history holds a section for each shown compaction and one for each entry read verbatim, and no other. A summary
   * says how many entries it stands for and gives its own text, and stands where the first of them stood.
   */
  lemma PromptReads(items: seq<Item>, compactions: seq<Compaction>, count: Counter)
    returns (summaries: seq<nat>, entries: seq<nat>)
    ensures var sections := ProjectOf(items, compactions, count).sections;
            var shown, rows := Shown(items, compactions), Verbatim(items, compactions, count);
            && SummariesRead(sections, summaries, items, shown, count) && EntriesRead(sections, entries, rows, count)
            && |summaries| + |entries| == |sections| && (forall i | i in summaries :: i !in entries)
            && SummariesStand(items, shown, summaries, rows, entries)
  {
    hide Sort, Filter, Map, Snapped, PlaceAll, TurnSections, Replaced, Ordered, ShownOf, PlaceOf, EarlierPlaced;
    hide ReadsAsSummary, ReadsAsEntry, SummariesRead, EntriesRead, SummariesStand;
    var a := Map(PlaceOf(Ordered(items), count), Shown(items, compactions));
    var b := TurnSections(Verbatim(items, compactions, count), count);
    var placed := PlacedOf(items, compactions, count);
    PlacedParts(items, compactions, count);
    summaries, entries := DealtOut(placed, a, b);
    SummariesPlaced(items, compactions, count, placed, summaries);
    EntriesPlaced(Verbatim(items, compactions, count), count, placed, entries);
    AllStand(items, Shown(items, compactions), Verbatim(items, compactions, count), placed, summaries, entries);
  }

  lemma {:induction false} SummariesPlaced(items: seq<Item>, compactions: seq<Compaction>, count: Counter,
                                           placed: seq<(int, Placed)>, at: seq<nat>)
    requires |at| == |Shown(items, compactions)| && Places(at, |placed|)
    requires var a := Map(PlaceOf(Ordered(items), count), Shown(items, compactions));
             forall k | 0 <= k < |a| :: placed[at[k]] == a[k]
    ensures SummariesRead(Map(SectionOf, placed), at, items, Shown(items, compactions), count)
    ensures forall k | 0 <= k < |at| :: StandsFirst(Replaced(items, Shown(items, compactions)[k]), placed[at[k]].0)
  {
    hide Replaced, Ordered, Shown, PlaceOf, ReadsAsSummary, StandsFirst, Map;
    var shown := Shown(items, compactions);
    forall k | 0 <= k < |shown|
      ensures ReadsAsSummary(Map(SectionOf, placed)[at[k]], shown[k], |Replaced(items, shown[k])|, count)
      ensures StandsFirst(Replaced(items, shown[k]), placed[at[k]].0)
    {
      ShownHoldSome(items, compactions, k);
      SummaryPlaced(items, shown[k], count);
    }
  }

  lemma {:induction false} EntryPlacedAt(rows: seq<Item>, count: Counter, placed: seq<(int, Placed)>, i: nat, k: nat)
    requires i < |placed| && k < |rows| && placed[i] == TurnSections(rows, count)[k]
    ensures ReadsAsEntry(Map(SectionOf, placed)[i], rows[k], count) && placed[i].0 == Place(rows[k])
    ensures Map(SectionOf, placed)[i].priority == AgePriority(k, |rows|)
  {
    hide ReadsAsEntry, TurnSections, Map, Place, ItemSection, Position, AgePriority;
    EntryPlaced(rows, k, count);
  }

  lemma {:induction false} EntriesPlaced(rows: seq<Item>, count: Counter, placed: seq<(int, Placed)>, at: seq<nat>)
    requires |at| == |rows| && Places(at, |placed|)
    requires forall k | 0 <= k < |rows| :: placed[at[k]] == TurnSections(rows, count)[k]
    ensures EntriesRead(Map(SectionOf, placed), at, rows, count)
    ensures forall k | 0 <= k < |rows| :: placed[at[k]].0 == Place(rows[k])
  {
    hide ReadsAsEntry, TurnSections, Map, Place, ItemSection, Position, AgePriority;
    forall k | 0 <= k < |rows|
      ensures ReadsAsEntry(Map(SectionOf, placed)[at[k]], rows[k], count) && placed[at[k]].0 == Place(rows[k])
      ensures Map(SectionOf, placed)[at[k]].priority == AgePriority(k, |rows|)
    {
      EntryPlacedAt(rows, count, placed, at[k], k);
    }
  }

  lemma AllStand(items: seq<Item>, shown: seq<Compaction>, rows: seq<Item>, placed: seq<(int, Placed)>,
                 summaries: seq<nat>, entries: seq<nat>)
    requires |summaries| == |shown| && |entries| == |rows| && Sorted(placed, EarlierPlaced)
    requires Places(summaries, |placed|) && Places(entries, |placed|) && forall i | i in summaries :: i !in entries
    requires forall k | 0 <= k < |shown| :: StandsFirst(Replaced(items, shown[k]), placed[summaries[k]].0)
    requires forall k | 0 <= k < |rows| :: placed[entries[k]].0 == Place(rows[k])
    ensures SummariesStand(items, shown, summaries, rows, entries)
  {
    hide StandsFirst, Replaced, StandsAsFirst, Sorted, EarlierPlaced, Place;
    forall k, m | 0 <= k < |shown| && 0 <= m < |rows|
      ensures StandsAsFirst(items, shown[k], summaries[k], rows[m], entries[m])
    {
      assert summaries[k] in summaries && entries[m] in entries;
      Stands(items, shown[k], rows[m], placed, summaries[k], entries[m]);
    }
  }

  lemma Stands(items: seq<Item>, c: Compaction, x: Item, placed: seq<(int, Placed)>, i: nat, j: nat)
    requires i < |placed| && j < |placed| && i != j && Sorted(placed, EarlierPlaced)
    requires StandsFirst(Replaced(items, c), placed[i].0) && placed[j].0 == Place(x)
    ensures StandsAsFirst(items, c, i, x, j)
  {
    hide StandsFirst, Replaced;
  }

  lemma PlacedParts(items: seq<Item>, compactions: seq<Compaction>, count: Counter)
    ensures var placed := PlacedOf(items, compactions, count);
            var a := Map(PlaceOf(Ordered(items), count), Shown(items, compactions));
            && multiset(placed) == multiset(a + TurnSections(Verbatim(items, compactions, count), count))
            && Sorted(placed, EarlierPlaced)
            && ProjectOf(items, compactions, count).sections == Map(SectionOf, placed)
  {
    hide Sort, Filter, Map, Snapped, PlaceAll, TurnSections, Ordered, ShownOf;
    PlacedAreShown(Ordered(items), NewestFirst(compactions), Shelf(map[], [], []), count);
    var a := Map(PlaceOf(Ordered(items), count), Shown(items, compactions));
    assert [] + a == a;
    SortSorted(a + TurnSections(Verbatim(items, compactions, count), count), EarlierPlaced);
  }

  lemma ShownHoldSome(items: seq<Item>, compactions: seq<Compaction>, k: nat)
    requires k < |Shown(items, compactions)|
    ensures InsideSet(Ordered(items), Shown(items, compactions)[k]) != {}
  {
    hide ShownOf, InsideSet, Ordered, NewestFirst;
    ShownApart(Ordered(items), NewestFirst(compactions), map[]);
    assert Shown(items, compactions)[k] in Shown(items, compactions);
  }

  // ------------------------------------------------------------ what is said of the compactions left out

  /** The compactions passed over, newest first. */
  function UnshownOf(ordered: seq<Item>, active: seq<Compaction>, covered: map<int, int>): seq<Compaction> {
    if active == [] then []
    else
      var inside := Inside(ordered, Snapped(active[0], ordered));
      if inside != [] && FirstCovered(inside, covered).None?
      then UnshownOf(ordered, active[1..], CoverAll(covered, inside, active[0].seqNo))
      else [active[0]] + UnshownOf(ordered, active[1..], covered)
  }

  /** `d` covers an entry of `c` before which none of `known` covers another entry of it. */
  ghost predicate TakesFirst(items: seq<Item>, known: seq<Compaction>, c: Compaction, d: Compaction) {
    exists x | x in Replaced(items, c) :: x in Replaced(items, d) && NoneBefore(items, known, c, x)
  }

  ghost predicate NoneBefore(items: seq<Item>, known: seq<Compaction>, c: Compaction, x: Item) {
    forall y, e | y in Replaced(items, c) && Place(y) < Place(x) && e in known :: y !in Replaced(items, e)
  }

  /**
   * Of a compaction that covers no entry it is said so; of any other, which of the newer ones shown stands for the
   * first of its entries that one of them stands for.
   */
  ghost predicate Answers(items: seq<Item>, known: seq<Compaction>, c: Compaction, notice: string) {
    if Replaced(items, c) == [] then
      notice == "compaction " + Printed(c.seqNo) + " covers nothing still in the transcript"
    else
      exists d | d in known :: Supersedes(items, known, d, c, notice)
  }

  ghost predicate Supersedes(items: seq<Item>, known: seq<Compaction>, d: Compaction, c: Compaction, notice: string) {
    && TakesFirst(items, known, c, d)
    && notice == "compaction " + Printed(c.seqNo) + " is superseded by compaction " + Printed(d.seqNo)
  }

  /** The first `m` of the shown ones are as new as this one, and the others no newer. */
  ghost predicate AsNew(shown: seq<Compaction>, m: nat, c: Compaction) {
    && m <= |shown| && (forall i | 0 <= i < m :: shown[i].seqNo >= c.seqNo)
    && forall i | m <= i < |shown| :: shown[i].seqNo <= c.seqNo
  }

  ghost predicate AnswersAmong(items: seq<Item>, shown: seq<Compaction>, c: Compaction, notice: string) {
    exists m: nat | AsNew(shown, m, c) :: Answers(items, shown[..m], c, notice)
  }

  /** Who the table of covered entries names is a known compaction that covers them, and it names all they cover. */
  ghost predicate Owned(items: seq<Item>, covered: map<int, int>, known: seq<Compaction>) {
    && (forall n | n in covered :: exists d | d in known :: d.seqNo == covered[n] && n in InsideSet(Ordered(items), d))
    && forall d | d in known :: InsideSet(Ordered(items), d) <= covered.Keys
  }

  lemma FirstCoveredOf(items: seq<Item>, range: (int, int), covered: map<int, int>)
    requires FirstCovered(Inside(items, range), covered).Some?
    ensures items != []
    ensures FirstCovered(Inside(items, range), covered)
            == if Within(items[0], range) && items[0].seqNo in covered then Some(covered[items[0].seqNo])
               else FirstCovered(Inside(items[1..], range), covered)
  {
    assert items != [];
    var rest := Inside(items[1..], range);
    assert ([items[0].seqNo] + rest)[1..] == rest && [] + rest == rest;
  }

  /** The entry that decides, and that none before it is covered. */
  lemma {:induction false} FirstCoveredAt(items: seq<Item>, range: (int, int), covered: map<int, int>) returns (k: nat)
    requires FirstCovered(Inside(items, range), covered).Some?
    ensures k < |items| && Within(items[k], range) && items[k].seqNo in covered
    ensures covered[items[k].seqNo] == FirstCovered(Inside(items, range), covered).value
    ensures forall j | 0 <= j < k && Within(items[j], range) :: items[j].seqNo !in covered
  {
    k := 0;
    FirstCoveredOf(items, range, covered);
    if !(Within(items[0], range) && items[0].seqNo in covered) {
      var later := FirstCoveredAt(items[1..], range, covered);
      forall j | 0 <= j < later + 1 && Within(items[j], range) ensures items[j].seqNo !in covered {
        if j > 0 { assert items[j] == items[1..][j - 1]; }
      }
      k := later + 1;
    }
  }

  lemma InsideIsReplaced(items: seq<Item>, c: Compaction, n: int)
    ensures n in InsideSet(Ordered(items), c) <==> exists x | x in Replaced(items, c) :: x.seqNo == n
  {
    hide Ordered, Snap, Filter;
    var ordered, range := Ordered(items), Snap(Ordered(items), (c.coversFrom, c.coversTo));
    OrderedAgain(items);
    SameElements(ordered, items);
    InsideMembers(ordered, range, n);
    FilterMembers(Between(range.0, range.1), items);
    assert n in InsideSet(ordered, c) <==> n in Inside(ordered, range);
    if x :| x in items && Within(x, range) && x.seqNo == n { assert x in Replaced(items, c); }
    if x :| x in ordered && Within(x, range) && x.seqNo == n { assert x in items; }
    if x :| x in Replaced(items, c) && x.seqNo == n { assert x in ordered && Within(x, range); }
  }

  lemma EmptyReplaced(items: seq<Item>, c: Compaction)
    ensures Inside(Ordered(items), Snapped(c, Ordered(items))) == [] <==> Replaced(items, c) == []
  {
    hide Ordered, Snap;
    var inside := Inside(Ordered(items), Snapped(c, Ordered(items)));
    if inside != [] {
      assert inside[0] in InsideSet(Ordered(items), c);
      InsideIsReplaced(items, c, inside[0]);
    }
    if Replaced(items, c) != [] {
      var x := Replaced(items, c)[0];
      assert x in Replaced(items, c);
      InsideIsReplaced(items, c, x.seqNo);
    }
  }

  lemma NewerTakesFirst(items: seq<Item>, c: Compaction, covered: map<int, int>, known: seq<Compaction>)
    returns (d: Compaction)
    requires Owned(items, covered, known)
    requires FirstCovered(Inside(Ordered(items), Snapped(c, Ordered(items))), covered).Some?
    ensures d in known && TakesFirst(items, known, c, d) && Replaced(items, c) != []
    ensures d.seqNo == FirstCovered(Inside(Ordered(items), Snapped(c, Ordered(items))), covered).value
  {
    hide Ordered, Snap, Replaced, InsideSet;
    var ordered, range := Ordered(items), Snapped(c, Ordered(items));
    var k := FirstCoveredAt(ordered, range, covered);
    var x := ordered[k];
    d :| d in known && d.seqNo == covered[x.seqNo] && x.seqNo in InsideSet(ordered, d);
    OrderedAgain(items);
    SameElements(ordered, items);
    assert x in ordered;
    InRangeReplaced(items, c, x);
    CoveredReplaced(items, d, x);
    forall y, e | y in Replaced(items, c) && Place(y) < Place(x) && e in known ensures y !in Replaced(items, e) {
      var j := StandsBefore(items, c, y, k);
      if y in Replaced(items, e) { ReplacedCovered(items, e, y); }
    }
  }

  lemma InRangeReplaced(items: seq<Item>, c: Compaction, x: Item)
    requires x in items
    ensures x in Replaced(items, c) <==> Within(x, Snapped(c, Ordered(items)))
  {
    hide Ordered, Snap;
    var range := Snapped(c, Ordered(items));
    FilterMembers(Between(range.0, range.1), items);
  }

  lemma CoveredReplaced(items: seq<Item>, d: Compaction, x: Item)
    requires x in items && x.seqNo in InsideSet(Ordered(items), d)
    ensures x in Replaced(items, d)
  {
    hide Ordered, Snap, Replaced;
    InsideMembers(Ordered(items), Snapped(d, Ordered(items)), x.seqNo);
    InRangeReplaced(items, d, x);
  }

  lemma ReplacedCovered(items: seq<Item>, d: Compaction, x: Item)
    requires x in Replaced(items, d)
    ensures x.seqNo in InsideSet(Ordered(items), d)
  {
    hide Replaced;
    InsideIsReplaced(items, d, x.seqNo);
  }

  /** An entry in range at an earlier place comes earlier in the ordering. */
  lemma StandsBefore(items: seq<Item>, c: Compaction, y: Item, k: nat) returns (j: nat)
    requires k < |Ordered(items)| && y in Replaced(items, c) && Place(y) < Place(Ordered(items)[k])
    ensures j < k && Ordered(items)[j] == y && Within(y, Snapped(c, Ordered(items)))
  {
    hide Snap, Sort;
    var range := Snapped(c, Ordered(items));
    FilterMembers(Between(range.0, range.1), items);
    SortSorted(items, PositionBefore);
    SameElements(items, Ordered(items));
    j :| 0 <= j < |Ordered(items)| && Ordered(items)[j] == y;
  }

  lemma CoverOwned(items: seq<Item>, c: Compaction, covered: map<int, int>, known: seq<Compaction>)
    requires Owned(items, covered, known)
    ensures Owned(items, CoverAll(covered, Inside(Ordered(items), Snapped(c, Ordered(items))), c.seqNo), known + [c])
  {
    hide Ordered, Snapped;
    var inside := Inside(Ordered(items), Snapped(c, Ordered(items)));
    var covered' := CoverAll(covered, inside, c.seqNo);
    forall n | n in covered'
      ensures exists d | d in known + [c] :: d.seqNo == covered'[n] && n in InsideSet(Ordered(items), d)
    {
      if n in inside {
        assert c in known + [c];
      } else {
        var d :| d in known && d.seqNo == covered[n] && n in InsideSet(Ordered(items), d);
        assert d in known + [c];
      }
    }
    forall d | d in known + [c] ensures InsideSet(Ordered(items), d) <= covered'.Keys {
      if d == c { assert InsideSet(Ordered(items), c) <= covered'.Keys; } else { assert d in known; }
    }
  }

  lemma Answered(items: seq<Item>, c: Compaction, s: Shelf, known: seq<Compaction>, count: Counter)
    returns (notice: string)
    requires Owned(items, s.covered, known)
    requires var inside := Inside(Ordered(items), Snapped(c, Ordered(items)));
             !(inside != [] && FirstCovered(inside, s.covered).None?)
    ensures PlaceOne(Ordered(items), c, s, count) == s.(notices := s.notices + [notice])
    ensures Answers(items, known, c, notice)
  {
    hide Ordered, Snapped, Replaced, Owned, TakesFirst;
    var inside := Inside(Ordered(items), Snapped(c, Ordered(items)));
    EmptyReplaced(items, c);
    if inside == [] {
      notice := EmptyNotice(c);
    } else {
      var d := NewerTakesFirst(items, c, s.covered, known);
      notice := SupersededNotice(c, d.seqNo);
      assert Supersedes(items, known, d, c, notice);
    }
  }

  ghost predicate AllAnswered(items: seq<Item>, shown: seq<Compaction>, unshown: seq<Compaction>, said: seq<string>) {
    |said| == |unshown| && forall k | 0 <= k < |said| :: AnswersAmong(items, shown, unshown[k], said[k])
  }

  lemma AnsweredCons(items: seq<Item>, shown: seq<Compaction>, c: Compaction, notice: string,
                     unshown: seq<Compaction>, said: seq<string>)
    requires AnswersAmong(items, shown, c, notice) && AllAnswered(items, shown, unshown, said)
    ensures AllAnswered(items, shown, [c] + unshown, [notice] + said)
  {
    hide AnswersAmong;
  }

  lemma AnswersMore(items: seq<Item>, known: seq<Compaction>, more: seq<Compaction>, c: Compaction, notice: string)
    requires Answers(items, known, c, notice)
    requires (forall d | d in known :: d.seqNo >= c.seqNo) && forall d | d in more :: d.seqNo <= c.seqNo
    ensures AnswersAmong(items, known + more, c, notice)
  {
    hide Answers;
    var shown := known + more;
    assert shown[..|known|] == known;
    forall i | 0 <= i < |shown| ensures if i < |known| then shown[i].seqNo >= c.seqNo else shown[i].seqNo <= c.seqNo {
      if i < |known| { assert shown[i] in known; } else { assert shown[i] in more; }
    }
    assert AsNew(shown, |known|, c);
  }

  lemma {:induction false} NoticesAre(items: seq<Item>, active: seq<Compaction>, s: Shelf, known: seq<Compaction>,
                                      count: Counter) returns (said: seq<string>)
    requires Owned(items, s.covered, known) && Sorted(active, NewerFirst)
    requires forall d, c | d in known && c in active :: d.seqNo >= c.seqNo
    ensures PlaceAll(Ordered(items), active, s, count).notices == s.notices + said
    ensures AllAnswered(items, known + ShownOf(Ordered(items), active, s.covered),
                        UnshownOf(Ordered(items), active, s.covered), said)
  {
    hide Ordered, Snapped, Owned, Answers, AllAnswered, AnswersAmong;
    hide SummarySection, LeastPosition, EmptyNotice, SupersededNotice;
    said := [];
    if active == [] {
      NoneAnswered(items, known + []);
    } else {
      var c, rest := active[0], active[1..];
      var inside := Inside(Ordered(items), Snapped(c, Ordered(items)));
      var s' := PlaceOne(Ordered(items), c, s, count);
      LaterIsOlder(active);
      if inside != [] && FirstCovered(inside, s.covered).None? {
        CoverOwned(items, c, s.covered, known);
        said := NoticesAre(items, rest, s', known + [c], count);
        Regroup3(known, [c], ShownOf(Ordered(items), rest, s'.covered));
      } else {
        var notice := Answered(items, c, s, known, count);
        var later := NoticesAre(items, rest, s', known, count);
        said := [notice] + later;
        var shown := ShownOf(Ordered(items), rest, s.covered);
        ShownApart(Ordered(items), rest, s.covered);
        AnswersMore(items, known, shown, c, notice);
        AnsweredCons(items, known + shown, c, notice, UnshownOf(Ordered(items), rest, s.covered), later);
        Regroup3(s.notices, [notice], later);
      }
    }
  }

  lemma NoneAnswered(items: seq<Item>, shown: seq<Compaction>)
    ensures AllAnswered(items, shown, [], [])
  {
  }

  lemma LaterIsOlder(active: seq<Compaction>)
    requires active != [] && Sorted(active, NewerFirst)
    ensures Sorted(active[1..], NewerFirst) && forall c | c in active[1..] :: c in active && c.seqNo <= active[0].seqNo
  {
    forall c | c in active[1..] ensures c in active && c.seqNo <= active[0].seqNo {
      var k :| 0 <= k < |active[1..]| && active[1..][k] == c;
      assert active[k + 1] == c && !NewerFirst(active[k + 1], active[0]);
    }
  }

  lemma {:induction false} ShownOrNot(ordered: seq<Item>, active: seq<Compaction>, covered: map<int, int>)
    ensures multiset(ShownOf(ordered, active, covered)) + multiset(UnshownOf(ordered, active, covered))
            == multiset(active)
  {
    hide Snapped;
    if active != [] {
      var inside := Inside(ordered, Snapped(active[0], ordered));
      assert active == [active[0]] + active[1..];
      if inside != [] && FirstCovered(inside, covered).None? {
        ShownOrNot(ordered, active[1..], CoverAll(covered, inside, active[0].seqNo));
      } else {
        ShownOrNot(ordered, active[1..], covered);
      }
    }
  }

  /** Every active compaction is shown, or answered for in one notice, newest first. */
  lemma EveryCompactionAnswered(items: seq<Item>, compactions: seq<Compaction>, count: Counter)
    ensures var shown, unshown := Shown(items, compactions), UnshownOf(Ordered(items), NewestFirst(compactions), map[]);
            && AllAnswered(items, shown, unshown, ProjectOf(items, compactions, count).notices)
            && multiset(shown) + multiset(unshown) == multiset(Filter(Active, compactions))
  {
    hide Ordered, Filter, AllAnswered, Owned, PlaceAll, UnshownOf, ShownOf;
    var active := NewestFirst(compactions);
    SortSorted(Filter(Active, compactions), NewerFirst);
    NothingOwned(items);
    var said := NoticesAre(items, active, Shelf(map[], [], []), [], count);
    assert [] + said == said && [] + Shown(items, compactions) == Shown(items, compactions);
    ShownOrNot(Ordered(items), active, map[]);
  }

  lemma NothingOwned(items: seq<Item>)
    ensures Owned(items, map[], [])
  {
  }

  /** The figures that go with the history: entries and turns stood for, counted once each, and summaries shown. */
  lemma ProjectionCounts(items: seq<Item>, compactions: seq<Compaction>, count: Counter)
    ensures var p := ProjectOf(items, compactions, count);
            && p.replaced == |p.covered| && p.summaries == |Shown(items, compactions)|
            && p.summarisedTurns
               == |set x | x in items && x.seqNo in p.covered && x.turn.Some? && x.turn != Some("") :: x.turn.value|
  {
    hide Sort, Filter, Map, PlaceAll, PlacedOf;
    SectionsOfProjection(items, compactions, count);
    OrderedAgain(items);
    SameElements(Ordered(items), items);
    var covered := ShelfOf(items, compactions, count).covered;
    TurnsCounted(items, Ordered(items), covered);
    MapSize(covered);
  }

  lemma TurnsCounted(items: seq<Item>, ordered: seq<Item>, covered: map<int, int>)
    requires (forall x | x in items :: x in ordered) && forall x | x in ordered :: x in items
    ensures SummarisedTurns(ordered, covered)
            == set x | x in items && x.seqNo in covered.Keys && x.turn.Some? && x.turn != Some("") :: x.turn.value
  {
  }

  lemma MapSize(m: map<int, int>)
    ensures |m| == |m.Keys|
  {
  }
}
