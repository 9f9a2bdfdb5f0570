/** Seventy-one entries and no more: past that, whichever counter is used, what survives need not be the newest. */
module Survival {
  import opened Sorting
  import opened Text
  import opened Bands
  import opened Accounting
  import opened Isolation
  import opened Projection
  import opened Tokens
  import opened History

  // ------------------------------------------------------------ a transcript whose ids run against its age

  /** The older the entry, the later its id. */
  function Id(k: nat, n: nat): string
    requires k <= n
  {
    seq(n - k, i requires 0 <= i < n - k => 'a')
  }

  function EntryOf(k: nat, n: nat): Item
    requires k <= n
  {
    Item(Id(k, n), k, "user", "", None, "message", None)
  }

  function Transcript(n: nat): (items: seq<Item>)
    ensures |items| == n && forall k | 0 <= k < n :: items[k] == EntryOf(k, n)
  {
    seq(n, k requires 0 <= k < n => EntryOf(k, n))
  }

  lemma TranscriptOrdered(n: nat)
    ensures Ordered(Transcript(n)) == Transcript(n)
  {
    SortOfSorted(Transcript(n), PositionBefore);
  }

  lemma AllVerbatim(n: nat, count: Counter)
    ensures Verbatim(Transcript(n), [], count) == Transcript(n)
  {
    TranscriptOrdered(n);
    assert NewestFirst([]) == [];
    FilterAll(Uncovered(map[]), Transcript(n));
  }

  function Priced(n: nat, count: Counter): seq<Placed> { TurnsOf(Transcript(n), [], count) }

  lemma PricedAt(n: nat, k: nat, count: Counter)
    requires k < n
    ensures |Priced(n, count)| == n && Priced(n, count)[k] == ItemSection(EntryOf(k, n), AgePriority(k, n), count)
  {
    AllVerbatim(n, count);
  }

  lemma ProjectedWhole(n: nat, count: Counter)
    ensures ProjectOf(Transcript(n), [], count).sections == Priced(n, count)
  {
    AllVerbatim(n, count);
    TurnPairsSorted(Transcript(n), [], count);
    assert ShelfOf(Transcript(n), [], count).placed == [];
    var pairs := TurnSections(Transcript(n), count);
    assert [] + pairs == pairs;
    SortOfSorted(pairs, EarlierPlaced);
  }

  // ------------------------------------------------------------ ids

  lemma {:induction false} ShorterFirst(a: string, b: string)
    requires |a| < |b| && (forall c | c in a :: c == 'a') && forall c | c in b :: c == 'a'
    ensures Less(a, b)
  {
    if a != "" {
      assert a[0] in a && b[0] in b;
      assert forall c | c in a[1..] :: c in a;
      assert forall c | c in b[1..] :: c in b;
      ShorterFirst(a[1..], b[1..]);
    }
  }

  lemma {:induction false} PrefixedLess(p: string, a: string, b: string)
    requires Less(a, b)
    ensures Less(p + a, p + b)
  {
    if p == "" {
      assert p + a == a && p + b == b;
    } else {
      PrefixedLess(p[1..], a, b);
      assert (p + a)[1..] == p[1..] + a && (p + b)[1..] == p[1..] + b;
    }
  }

  function Entries(n: nat, count: Counter): seq<Entry> { NumberFrom(Priced(n, count), 0, count) }

  /** What every entry of the transcript costs. */
  function Cost(count: Counter): nat { count("user" + ": " + "") }

  lemma CostsSomething(count: Counter)
    requires ByLength(count)
    ensures Cost(count) > 0
  {
    assert "user" + ": " + "" != "";
  }

  lemma EntryAtRow(n: nat, k: nat, count: Counter)
    requires k < n
    ensures |Entries(n, count)| == n
    ensures var e := Entries(n, count)[k];
            && e.order == k && e.cost == Cost(count) == e.section.tokens && e.section == Priced(n, count)[k]
            && e.section.band == History && e.section.floorTokens == 0
            && e.section.id == ITEM_PREFIX + Id(k, n) && e.section.priority == AgePriority(k, n)
  {
    PricedAt(n, k, count);
    hide Priced, AgePriority;
  }

  /** Where age does not give a higher priority, the newer of two goes first. */
  lemma NewerGoesFirst(n: nat, i: nat, j: nat, count: Counter)
    requires i < j < n && AgePriority(i, n) <= AgePriority(j, n)
    ensures |Entries(n, count)| == n && GivenUpBefore(Entries(n, count)[j], Entries(n, count)[i])
  {
    EntryAtRow(n, i, count);
    EntryAtRow(n, j, count);
    hide Entries, AgePriority;
    ShorterFirst(Id(j, n), Id(i, n));
    PrefixedLess(ITEM_PREFIX, Id(j, n), Id(i, n));
  }

  // ------------------------------------------------------------ equal costs are dropped whole, from the front

  /** With nothing allowed there is no excerpt: its marker alone costs something. */
  lemma NoExcerpt(text: string, original: nat, allowance: int, count: Counter)
    requires ByLength(count) && original >= 1 && allowance <= 0
    ensures ExcerptOf(text, original, allowance, count).None?
  {
    hide Lines, Marker, Fragments;
    var (head, tail) := Fragments(text, 0);
    MarkerCosts(head, tail, count(Lines([head, tail])), original, count);
  }

  lemma MarkerCosts(head: string, tail: string, shown: nat, original: nat, count: Counter)
    requires ByLength(count)
    ensures count(Lines([head, Marker(shown, original), tail])) > 0
  {
    assert Marker(shown, original) != "";
    LinesOfThree(head, Marker(shown, original), tail);
  }

  lemma JudgedAlike(e: Entry, allocation: int, over: nat, count: Counter)
    requires ByLength(count) && e.cost > 0
    ensures var o := Judge(e, allocation + e.cost * over, allocation, count);
            if over == 0 then o.Kept? else o.Dropped?
  {
    hide ExcerptOf, DropNotice, TrimNotice;
    if over > 0 {
      assert e.cost * over >= e.cost;
      NoExcerpt(e.section.body, e.cost, e.cost - e.cost * over, count);
    }
  }

  lemma OneLess(c: nat, d: nat)
    requires d > 0
    ensures c * d - c == c * (d - 1)
  {
  }

  /** When the band is over by exactly so many equal costs, so many are dropped and the others kept. */
  lemma {:induction false} DroppedFromFront(ranked: seq<Entry>, c: nat, allocation: int, over: nat, count: Counter,
                                            k: nat)
    requires ByLength(count) && c > 0 && k < |ranked| && forall e | e in ranked :: e.cost == c
    ensures var o := GiveUp(ranked, allocation + c * over, allocation, count)[k];
            if k < over then o.Dropped? else o.Kept?
    decreases k
  {
    hide Judge;
    var total := allocation + c * over;
    assert ranked[0].cost == c;
    JudgedAlike(ranked[0], allocation, over, count);
    if k > 0 {
      var o := Judge(ranked[0], total, allocation, count);
      if over > 0 { OneLess(c, over); }
      var left := if over > 0 then over - 1 else 0;
      assert total - ranked[0].cost + CostAfter(ranked[0], o) == allocation + c * left;
      assert forall e | e in ranked[1..] :: e in ranked;
      DroppedFromFront(ranked[1..], c, allocation, left, count, k - 1);
    }
  }

  lemma {:induction false} TotalAlike(entries: seq<Entry>, c: nat)
    requires forall e | e in entries :: e.cost == c
    ensures Total(entries) == c * |entries|
  {
    if entries != [] {
      TotalAlike(entries[1..], c);
      OneLess(c, |entries|);
    }
  }

  lemma AllAlike(n: nat, count: Counter)
    ensures |Entries(n, count)| == n && forall e | e in Entries(n, count) :: e.cost == Cost(count)
    ensures forall e | e in Ranked(Entries(n, count)) :: e.cost == Cost(count)
  {
    assert |Priced(n, count)| == n by { AllVerbatim(n, count); }
    forall e | e in Entries(n, count) ensures e.cost == Cost(count) {
      var k :| 0 <= k < |Entries(n, count)| && Entries(n, count)[k] == e;
      EntryAtRow(n, k, count);
    }
    hide Entries;
    SameElements(Entries(n, count), Ranked(Entries(n, count)));
  }

  lemma RankOf(entries: seq<Entry>, k: nat) returns (p: nat)
    requires k < |entries|
    ensures p < |Ranked(entries)| == |entries| && Ranked(entries)[p] == entries[k]
  {
    hide Ranked;
    SameElements(entries, Ranked(entries));
    SameLength(entries, Ranked(entries));
    assert entries[k] in entries;
    assert entries[k] in Ranked(entries);
    p :| 0 <= p < |Ranked(entries)| && Ranked(entries)[p] == entries[k];
  }

  /** No two entries share an id. */
  ghost predicate IdsDiffer(entries: seq<Entry>) {
    forall a, b | 0 <= a < b < |entries| :: entries[a].section.id != entries[b].section.id
  }

  /** The id tells which entry it is, and so where it ranks. */
  lemma RankedById(entries: seq<Entry>, p: nat, q: nat)
    requires IdsDiffer(entries) && p < q < |Ranked(entries)|
    ensures Ranked(entries)[p].section.id != Ranked(entries)[q].section.id
  {
    hide Ranked, IdsDiffer;
    var ranked := Ranked(entries);
    if ranked[p].section.id == ranked[q].section.id {
      SameElements(entries, ranked);
      assert ranked[p] in ranked && ranked[q] in ranked;
      SameEntry(entries, ranked[p], ranked[q]);
      TwiceCounted(ranked, p, q);
      SeparatePositions(entries, ranked[p]);
      var a, b :| 0 <= a < b < |entries| && entries[a] == ranked[p] && entries[b] == ranked[p];
      DifferAt(entries, a, b);
    }
  }

  lemma DifferAt(entries: seq<Entry>, a: nat, b: nat)
    requires IdsDiffer(entries) && a < b < |entries|
    ensures entries[a].section.id != entries[b].section.id
  {
  }

  lemma SameEntry(entries: seq<Entry>, x: Entry, y: Entry)
    requires IdsDiffer(entries) && x in entries && y in entries && x.section.id == y.section.id
    ensures x == y
  {
    var a :| 0 <= a < |entries| && entries[a] == x;
    var b :| 0 <= b < |entries| && entries[b] == y;
  }

  lemma RanksInOrder(entries: seq<Entry>, i: nat, j: nat, p: nat, q: nat)
    requires i < |entries| && j < |entries| && p < |Ranked(entries)| && q < |Ranked(entries)|
    requires Ranked(entries)[p] == entries[i] && Ranked(entries)[q] == entries[j]
    requires GivenUpBefore(entries[j], entries[i])
    ensures q < p
  {
    hide GivenUpBefore;
    GivenUpBeforeStrict();
    SortSorted(entries, GivenUpBefore);
    assert Sorted(Ranked(entries), GivenUpBefore);
    assert !GivenUpBefore(entries[i], entries[j]);
  }

  // ------------------------------------------------------------ what is read

  function Room(allocation: nat): Budget { Budget((b: Band) => if b == History then allocation else 0, allocation) }

  lemma PromisedCons(budget: Budget, band: Band, rest: seq<Band>)
    ensures Promised(budget, [band] + rest) == Max(0, budget.allocation(band)) + Promised(budget, rest)
  {
    assert ([band] + rest)[1..] == rest;
  }

  lemma NothingPromised(budget: Budget)
    ensures Promised(budget, []) == 0
  {
  }

  lemma RoomIsCeiling(allocation: nat)
    ensures Ceiling(Room(allocation), History) == allocation
  {
    hide Promised;
    var b := Room(allocation);
    assert WRITABLE_BANDS == [System] + ([Pinned] + ([History] + ([Tools] + [])));
    PromisedCons(b, System, [Pinned] + ([History] + ([Tools] + [])));
    PromisedCons(b, Pinned, [History] + ([Tools] + []));
    PromisedCons(b, History, [Tools] + []);
    PromisedCons(b, Tools, []);
    NothingPromised(b);
  }

  function Read(n: nat, allocation: nat, count: Counter): seq<Placed> {
    AssembledOf(ProjectOf(Transcript(n), [], count).sections, Room(allocation), count).sections
  }

  lemma ReadIsFit(n: nat, allocation: nat, count: Counter)
    ensures Read(n, allocation, count) == Map(Recounted, FitOf(Entries(n, count), allocation, count).survivors)
  {
    ProjectedWhole(n, count);
    RoomIsCeiling(allocation);
    forall s | s in Priced(n, count) ensures s.band == History {
      AllVerbatim(n, count);
      var k :| 0 <= k < |Priced(n, count)| && Priced(n, count)[k] == s;
      PricedAt(n, k, count);
    }
    hide Priced, FitOf, Transcript, Ceiling, ProjectOf, AssembledOf, Room;
    OneBandAllocated(Priced(n, count), History, Room(allocation), count);
  }

  /** Entries that all cost the same, priced as their sections say, with a budget short by so many of them. */
  ghost predicate ShortBy(entries: seq<Entry>, c: nat, allocation: int, over: nat) {
    && c > 0 && Total(entries) == allocation + c * over && IdsDiffer(entries)
    && forall e | e in entries :: e.cost == c && Recounted(e) == e.section
  }

  lemma OutcomeAt(entries: seq<Entry>, c: nat, allocation: int, over: nat, p: nat, count: Counter)
    requires ByLength(count) && ShortBy(entries, c, allocation, over) && p < |Ranked(entries)|
    ensures var o := OutcomesOf(entries, allocation, count)[p]; if p < over then o.Dropped? else o.Kept?
  {
    hide GiveUp, Ranked, ByLength;
    SameElements(entries, Ranked(entries));
    DroppedFromFront(Ranked(entries), c, allocation, over, count, p);
  }

  /** What is left of a band is what stands past the first so many of the give-up order, each as it was. */
  lemma FitExactly(entries: seq<Entry>, c: nat, allocation: int, over: nat, k: nat, p: nat, count: Counter)
    requires ByLength(count) && ShortBy(entries, c, allocation, over)
    requires k < |entries| && p < |Ranked(entries)| && Ranked(entries)[p] == entries[k]
    ensures entries[k].section in Map(Recounted, FitOf(entries, allocation, count).survivors) <==> p >= over
  {
    hide GiveUp, Ranked, ByLength, IdsDiffer, Total, Map;
    var survivors := FitOf(entries, allocation, count).survivors;
    OutcomeAt(entries, c, allocation, over, p, count);
    if p >= over {
      LeftAt(entries, allocation, p, count);
      ShownWhenSurviving(survivors, entries[k]);
      assert entries[k] in entries;
    }
    if entries[k].section in Map(Recounted, survivors) {
      var r := ShownFrom(survivors, entries[k].section);
      var q := SurvivorOrigin(entries, allocation, count, r);
      OutcomeAt(entries, c, allocation, over, q, count);
      if p < q { RankedById(entries, p, q); }
      if q < p { RankedById(entries, q, p); }
    }
  }

  lemma ShownFrom(survivors: seq<Entry>, s: Placed) returns (r: Entry)
    requires s in Map(Recounted, survivors)
    ensures r in survivors && Recounted(r) == s
  {
    var m :| 0 <= m < |survivors| && Map(Recounted, survivors)[m] == s;
    r := survivors[m];
  }

  lemma LeftAt(entries: seq<Entry>, allocation: int, p: nat, count: Counter)
    requires p < |Ranked(entries)| && OutcomesOf(entries, allocation, count)[p].Kept?
    ensures Ranked(entries)[p] in FitOf(entries, allocation, count).survivors
  {
    KeptSurvives(entries, allocation, count, p);
  }

  /** The room that leaves out so many entries. */
  function Allowing(n: nat, over: nat, count: Counter): nat
    requires over <= n
  {
    Cost(count) * (n - over)
  }

  lemma EntriesPriced(n: nat, count: Counter)
    ensures forall e | e in Entries(n, count) :: e.cost == Cost(count) && Recounted(e) == e.section
  {
    AllAlike(n, count);
    var entries := Entries(n, count);
    hide Entries, Cost;
    forall e | e in entries ensures e.cost == Cost(count) && Recounted(e) == e.section {
      var k :| 0 <= k < |entries| && entries[k] == e;
      EntryAtRow(n, k, count);
    }
  }

  lemma EntriesShort(n: nat, over: nat, count: Counter)
    requires ByLength(count) && over <= n
    ensures ShortBy(Entries(n, count), Cost(count), Allowing(n, over, count), over)
  {
    hide Entries, Cost, IdsDiffer, Total, ByLength;
    AllAlike(n, count);
    CostsSomething(count);
    EntriesDiffer(n, count);
    EntriesPriced(n, count);
    TotalAlike(Entries(n, count), Cost(count));
    Distributed(Cost(count), n, over);
  }

  lemma Distributed(c: nat, n: nat, over: nat)
    requires over <= n
    ensures c * n == c * (n - over) + c * over
  {
  }

  lemma EntriesDiffer(n: nat, count: Counter)
    ensures IdsDiffer(Entries(n, count))
  {
    AllAlike(n, count);
    forall a, b | 0 <= a < b < n ensures Entries(n, count)[a].section.id != Entries(n, count)[b].section.id {
      EntryAtRow(n, a, count);
      EntryAtRow(n, b, count);
      IdLength(a, n);
      IdLength(b, n);
    }
  }

  lemma IdLength(k: nat, n: nat)
    requires k <= n
    ensures |ITEM_PREFIX + Id(k, n)| == |ITEM_PREFIX| + (n - k)
  {
  }

  /** An entry of the transcript is read exactly when it ranks past the ones left out. */
  lemma ReadExactly(n: nat, over: nat, k: nat, p: nat, count: Counter)
    requires ByLength(count) && over <= n && k < n && |Entries(n, count)| == n
    requires p < |Ranked(Entries(n, count))| && Ranked(Entries(n, count))[p] == Entries(n, count)[k]
    ensures |Priced(n, count)| == n
    ensures Priced(n, count)[k] in Read(n, Allowing(n, over, count), count) <==> p >= over
  {
    PricedAt(n, k, count);
    EntryAtRow(n, k, count);
    ReadIsFit(n, Allowing(n, over, count), count);
    EntriesShort(n, over, count);
    hide Entries, Priced, Read, Allowing, ByLength, ShortBy, Cost, Ranked, FitOf, Map;
    FitExactly(Entries(n, count), Cost(count), Allowing(n, over, count), over, k, p, count);
  }

  // ------------------------------------------------------------ the bound is exact

  /** Past 71 entries, for every counter that goes by length, some entry is read while one that came after it is not. */
  lemma OlderOutlivesNewer(n: nat, count: Counter) returns (allocation: nat, i: nat, j: nat)
    requires n > 71 && ByLength(count)
    ensures i < j < |Priced(n, count)|
    ensures Priced(n, count)[i] in Read(n, allocation, count) && Priced(n, count)[j] !in Read(n, allocation, count)
  {
    SeventyOneRungs(n);
    hide AgePriority, Entries, Priced, Read, GivenUpBefore, ByLength, Allowing, Ranked;
    i, j :| 0 <= i < j < n && AgePriority(i, n) <= AgePriority(j, n);
    NewerGoesFirst(n, i, j, count);
    var p := RankOf(Entries(n, count), i);
    var q := RankOf(Entries(n, count), j);
    RanksInOrder(Entries(n, count), i, j, p, q);
    allocation := Allowing(n, q + 1, count);
    ReadExactly(n, q + 1, i, p, count);
    ReadExactly(n, q + 1, j, q, count);
  }

  /** What is read of the verbatim entries is a contiguous newest suffix, cut if at all in its oldest member. */
  ghost predicate NewestSurvive(items: seq<Item>, compactions: seq<Compaction>, budget: Budget, count: Counter) {
    exists m :: SurvivingSuffix(
      TurnsOf(items, compactions, count),
      Filter(NotSummary, AssembledOf(ProjectOf(items, compactions, count).sections, budget, count).sections),
      m, count)
  }

  /** In a suffix everything after a survivor survives. */
  lemma SuffixKeepsLater(turns: seq<Placed>, shown: seq<Placed>, m: nat, count: Counter, i: nat, j: nat)
    requires SurvivingSuffix(turns, shown, m, count) && i < j < |turns| && turns[i] in shown
    requires forall a, b | 0 <= a < |turns| && 0 <= b < |turns| && turns[a].id == turns[b].id :: a == b
    ensures turns[j] in shown
  {
    var k :| 0 <= k < |shown| && shown[k] == turns[i];
    assert shown[k].id == turns[m + k].id by {
      if k == 0 { ShownKeepsId(turns[m], shown[0], count); }
    }
    assert i == m + k;
    assert shown[j - m] == turns[j];
  }

  lemma ShownKeepsId(s: Placed, shown: Placed, count: Counter)
    requires ShownAs(s, shown, count)
    ensures shown.id == s.id
  {
  }

  lemma IdsApart(n: nat, count: Counter)
    ensures |Priced(n, count)| == n
    ensures forall a, b | 0 <= a < n && 0 <= b < n && Priced(n, count)[a].id == Priced(n, count)[b].id :: a == b
  {
    assert |Priced(n, count)| == n by { AllVerbatim(n, count); }
    forall a, b | 0 <= a < n && 0 <= b < n && Priced(n, count)[a].id == Priced(n, count)[b].id ensures a == b {
      PricedAt(n, a, count);
      PricedAt(n, b, count);
      hide Priced;
      IdLength(a, n);
      IdLength(b, n);
    }
  }

  lemma NewestLost(n: nat, count: Counter) returns (budget: Budget)
    requires n > 71 && ByLength(count)
    ensures !NewestSurvive(Transcript(n), [], budget, count)
  {
    hide Priced, Read, NewestSurvive, ByLength;
    var allocation, i, j := OlderOutlivesNewer(n, count);
    budget := Room(allocation);
    IdsApart(n, count);
    if NewestSurvive(Transcript(n), [], budget, count) {
      var m := SurvivingFrom(n, allocation, count);
      SuffixKeepsLater(Priced(n, count), Read(n, allocation, count), m, count, i, j);
    }
  }

  lemma SurvivingFrom(n: nat, allocation: nat, count: Counter) returns (m: nat)
    requires NewestSurvive(Transcript(n), [], Room(allocation), count)
    ensures SurvivingSuffix(Priced(n, count), Read(n, allocation, count), m, count)
  {
    NoSummaries(n, allocation, count);
    hide SurvivingSuffix, TurnsOf, AssembledOf, ProjectOf, Transcript, Room;
    m :| SurvivingSuffix(
      TurnsOf(Transcript(n), [], count),
      Filter(NotSummary, AssembledOf(ProjectOf(Transcript(n), [], count).sections, Room(allocation), count).sections),
      m, count);
  }

  lemma NoSummaries(n: nat, allocation: nat, count: Counter)
    ensures Filter(NotSummary, Read(n, allocation, count)) == Read(n, allocation, count)
  {
    ReadIsFit(n, allocation, count);
    var survivors := FitOf(Entries(n, count), allocation, count).survivors;
    forall s | s in Read(n, allocation, count) ensures NotSummary(s) {
      var k :| 0 <= k < |survivors| && Map(Recounted, survivors)[k] == s;
      assert survivors[k] in survivors;
      SurvivorKind(n, allocation, survivors[k], count);
    }
    hide Read;
    FilterAll(NotSummary, Read(n, allocation, count));
  }

  lemma SurvivorKind(n: nat, allocation: nat, r: Entry, count: Counter)
    requires r in FitOf(Entries(n, count), allocation, count).survivors
    ensures !IsSummary(r.section)
  {
    hide Entries, GiveUp;
    AllAlike(n, count);
    var entries, ranked := Entries(n, count), Ranked(Entries(n, count));
    var q := SurvivorOrigin(entries, allocation, count, r);
    SameElements(entries, ranked);
    assert ranked[q] in ranked;
    var m :| 0 <= m < |entries| && entries[m] == ranked[q];
    EntryAtRow(n, m, count);
    ItemIsNotSummary(Id(m, n));
  }

  lemma ItemIsNotSummary(id: string)
    ensures !(SUMMARY_PREFIX <= ITEM_PREFIX + id)
  {
    assert SUMMARY_PREFIX[8] == 's' && (ITEM_PREFIX + id)[8] == 'i';
  }

  /** So 71 is exact for what is read, for each counter that goes by length. */
  lemma NewestSurviveExactly(n: nat, count: Counter)
    requires ByLength(count)
    ensures (forall items, compactions, budget | |Verbatim(items, compactions, count)| == n ::
               NewestSurvive(items, compactions, budget, count))
            <==> n <= 71
  {
    hide NewestSurvive, Verbatim, ByLength;
    if n <= 71 {
      forall items, compactions, budget | |Verbatim(items, compactions, count)| == n
        ensures NewestSurvive(items, compactions, budget, count)
      {
        SurviveUpTo(items, compactions, budget, count);
      }
    } else {
      var budget := NewestLost(n, count);
      AllVerbatim(n, count);
    }
  }

  lemma SurviveUpTo(items: seq<Item>, compactions: seq<Compaction>, budget: Budget, count: Counter)
    requires ByLength(count) && |Verbatim(items, compactions, count)| <= 71
    ensures NewestSurvive(items, compactions, budget, count)
  {
    hide SurvivingSuffix, TurnsOf, Verbatim, ByLength, AssembledOf, ProjectOf;
    NewestTurnsSurvive(items, compactions, budget, count);
  }

  /** And so for the counter a caller gets by default. */
  lemma DefaultSurvivesExactly(n: nat)
    ensures (forall items, compactions, budget | |Verbatim(items, compactions, Estimate)| == n ::
               NewestSurvive(items, compactions, budget, Estimate))
            <==> n <= 71
  {
    hide NewestSurvive, Verbatim, ByLength;
    EstimateByLength();
    NewestSurviveExactly(n, Estimate);
  }
}
