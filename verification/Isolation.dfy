/** Two-run properties: a band sees only itself, and the order sections arrive in does not matter. */
module Isolation {
  import opened Sorting
  import opened Text
  import opened Bands
  import opened BandsProofs
  import opened Accounting

  // ------------------------------------------------------------ renumbering

  function Renumber(g: nat -> nat): Entry -> Entry {
    (e: Entry) => e.(order := g(e.order))
  }

  lemma JudgeRenumbered(e: Entry, g: nat -> nat, total: int, allocation: int, count: Counter)
    ensures Judge(Renumber(g)(e), total, allocation, count) == Judge(e, total, allocation, count)
  {
    hide ExcerptOf, DropNotice, TrimNotice, WithBody;
  }

  /** The loop never looks at an order, only at sections and costs. */
  lemma {:induction false} GiveUpRenumbered(ranked: seq<Entry>, g: nat -> nat, total: int, allocation: int,
        count: Counter)
    ensures GiveUp(Map(Renumber(g), ranked), total, allocation, count) == GiveUp(ranked, total, allocation, count)
  {
    hide Judge, CostAfter;
    if ranked != [] {
      var o := Judge(ranked[0], total, allocation, count);
      MapTail(Renumber(g), ranked);
      JudgeRenumbered(ranked[0], g, total, allocation, count);
      RenumberedCosts(ranked[0], g, o);
      GiveUpRenumbered(ranked[1..], g, total - ranked[0].cost + CostAfter(ranked[0], o), allocation, count);
    }
  }

  lemma MapTail<A, B>(f: A -> B, s: seq<A>)
    requires s != []
    ensures Map(f, s) != [] && Map(f, s)[0] == f(s[0]) && Map(f, s)[1..] == Map(f, s[1..])
  {
  }

  lemma RenumberedCosts(e: Entry, g: nat -> nat, o: Outcome)
    ensures Renumber(g)(e).cost == e.cost && CostAfter(Renumber(g)(e), o) == CostAfter(e, o)
  {
  }

  lemma {:induction false} TotalRenumbered(entries: seq<Entry>, g: nat -> nat)
    ensures Total(Map(Renumber(g), entries)) == Total(entries)
  {
    if entries != [] {
      assert Map(Renumber(g), entries)[1..] == Map(Renumber(g), entries[1..]);
      TotalRenumbered(entries[1..], g);
    }
  }

  lemma {:induction false} RemainingRenumbered(ranked: seq<Entry>, outcomes: seq<Outcome>, g: nat -> nat)
    requires |ranked| == |outcomes|
    ensures Remaining(Map(Renumber(g), ranked), outcomes) == Map(Renumber(g), Remaining(ranked, outcomes))
  {
    if ranked != [] {
      RemainingRenumbered(ranked[1..], outcomes[1..], g);
      assert Map(Renumber(g), ranked)[1..] == Map(Renumber(g), ranked[1..]);
      MapCons(Renumber(g), After(ranked[0], outcomes[0]), Remaining(ranked[1..], outcomes[1..]));
      PilesUnfold(ranked, outcomes);
      PilesUnfold(Map(Renumber(g), ranked), outcomes);
    }
  }

  lemma RecountedRenumbered(entries: seq<Entry>, g: nat -> nat)
    ensures Map(Recounted, Map(Renumber(g), entries)) == Map(Recounted, entries)
  {
  }

  /** `g` keeps the give-up order of these entries, as far as it goes. */
  ghost predicate KeepsRank(entries: seq<Entry>, g: nat -> nat) {
    Carries(entries, Renumber(g), GivenUpBefore, GivenUpBefore)
  }

  /** Relabelling arrivals without disturbing the give-up order changes neither verdicts nor notices. */
  lemma FitRenumbered(entries: seq<Entry>, g: nat -> nat, allocation: int, count: Counter)
    requires KeepsRank(entries, g)
    ensures OutcomesOf(Map(Renumber(g), entries), allocation, count) == OutcomesOf(entries, allocation, count)
    ensures Remaining(Ranked(Map(Renumber(g), entries)), OutcomesOf(entries, allocation, count))
            == Map(Renumber(g), Remaining(Ranked(entries), OutcomesOf(entries, allocation, count)))
  {
    hide GiveUp;
    SortMap(entries, Renumber(g), GivenUpBefore, GivenUpBefore);
    TotalRenumbered(entries, g);
    GiveUpRenumbered(Ranked(entries), g, Total(entries), allocation, count);
    RemainingRenumbered(Ranked(entries), OutcomesOf(entries, allocation, count), g);
  }

  // ------------------------------------------------------------ a band sees only itself

  /** The same sections at the same costs, arriving in the same relative order. */
  ghost predicate Aligned(es: seq<Entry>, fs: seq<Entry>) {
    && |es| == |fs| && InOrder(es) && InOrder(fs)
    && forall i | 0 <= i < |es| :: es[i].section == fs[i].section && es[i].cost == fs[i].cost
  }

  function NewOrder(es: seq<Entry>, fs: seq<Entry>, order: nat): nat
    requires |es| == |fs|
  {
    if es == [] then 0 else if es[0].order == order then fs[0].order else NewOrder(es[1..], fs[1..], order)
  }

  lemma {:induction false} NewOrderAt(es: seq<Entry>, fs: seq<Entry>, i: nat)
    requires Aligned(es, fs) && i < |es|
    ensures NewOrder(es, fs, es[i].order) == fs[i].order
  {
    if i > 0 {
      NewOrderAt(es[1..], fs[1..], i - 1);
    }
  }

  /** Two entries of `es` compare as their twins in `fs` do. */
  lemma TwinsCompare(es: seq<Entry>, fs: seq<Entry>, x: nat, y: nat)
    requires Aligned(es, fs) && x in Map(OrderOf, es) && y in Map(OrderOf, es)
    ensures NewOrder(es, fs, x) < NewOrder(es, fs, y) <==> x < y
    ensures NewOrder(es, fs, x) == NewOrder(es, fs, y) <==> x == y
  {
    var i :| 0 <= i < |es| && es[i].order == x;
    var j :| 0 <= j < |es| && es[j].order == y;
    NewOrderAt(es, fs, i);
    NewOrderAt(es, fs, j);
  }

  lemma AlignedFit(es: seq<Entry>, fs: seq<Entry>, allocation: int, count: Counter)
    requires Aligned(es, fs)
    ensures var a, b := FitOf(es, allocation, count), FitOf(fs, allocation, count);
            && Map(Recounted, a.survivors) == Map(Recounted, b.survivors)
            && a.total == b.total && a.notices == b.notices
  {
    hide GiveUp, NewOrder;
    var g := (order: nat) => NewOrder(es, fs, order);
    forall i | 0 <= i < |es| ensures Renumber(g)(es[i]) == fs[i] { NewOrderAt(es, fs, i); }
    assert Map(Renumber(g), es) == fs;
    forall x, y | x in es && y in es
      ensures GivenUpBefore(Renumber(g)(y), Renumber(g)(x)) == GivenUpBefore(y, x)
    {
      OrderListed(es, x);
      OrderListed(es, y);
      TwinsCompare(es, fs, y.order, x.order);
    }
    FitRenumbered(es, g, allocation, count);
    var left := Remaining(Ranked(es), OutcomesOf(es, allocation, count));
    forall x, y | x in left && y in left ensures ByOrder(Renumber(g)(y), Renumber(g)(x)) == ByOrder(y, x) {
      LeftFromEntries(es, allocation, count, x);
      LeftFromEntries(es, allocation, count, y);
      TwinsCompare(es, fs, y.order, x.order);
    }
    SortMap(left, Renumber(g), ByOrder, ByOrder);
    RecountedRenumbered(Sort(left, ByOrder), g);
    TotalRenumbered(Sort(left, ByOrder), g);
  }

  lemma OrderListed(es: seq<Entry>, e: Entry)
    requires e in es
    ensures e.order in Map(OrderOf, es)
  {
    var i :| 0 <= i < |es| && es[i] == e;
    assert Map(OrderOf, es)[i] == e.order;
  }

  lemma LeftFromEntries(es: seq<Entry>, allocation: int, count: Counter, x: Entry)
    requires x in Remaining(Ranked(es), OutcomesOf(es, allocation, count))
    ensures x.order in Map(OrderOf, es)
  {
    hide FairlyShortened, GiveUp;
    OutcomesFair(es, allocation, count);
    var e := RemainingAccounted(Ranked(es), OutcomesOf(es, allocation, count), count, x);
    SameElements(Ranked(es), es);
    OrderListed(es, e);
  }

  function SectionIn(band: Band): Placed -> bool {
    (s: Placed) => s.band == band
  }

  function Only(checked: seq<Placed>, band: Band): seq<Placed> {
    Filter(SectionIn(band), checked)
  }

  lemma InOrderCons(e: Entry, es: seq<Entry>)
    requires InOrder(es) && forall x | x in es :: e.order < x.order
    ensures InOrder([e] + es)
  {
    var s := [e] + es;
    forall i, j | 0 <= i < j < |s| ensures s[i].order < s[j].order {
      assert s[j] == es[j - 1] && es[j - 1] in es;
    }
  }

  lemma AlignedCons(e: Entry, es: seq<Entry>, f: Entry, fs: seq<Entry>)
    requires Aligned(es, fs) && e.section == f.section && e.cost == f.cost
    requires forall x | x in es :: e.order < x.order
    requires forall x | x in fs :: f.order < x.order
    ensures Aligned([e] + es, [f] + fs)
  {
    InOrderCons(e, es);
    InOrderCons(f, fs);
    hide InOrder;
  }

  lemma NothingAligned()
    ensures Aligned([], [])
  {
  }

  lemma {:induction false} OnlyAligned(checked: seq<Placed>, band: Band, k: nat, m: nat, count: Counter)
    ensures Aligned(InBand(NumberFrom(checked, k, count), band), NumberFrom(Only(checked, band), m, count))
  {
    hide Aligned;
    if checked == [] {
      NothingAligned();
    } else {
      var entries := NumberFrom(checked, k, count);
      var rest := InBand(NumberFrom(checked[1..], k + 1, count), band);
      if checked[0].band == band {
        OnlyAligned(checked[1..], band, k + 1, m + 1, count);
        FilterMembers(IsIn(band), NumberFrom(checked[1..], k + 1, count));
        assert Only(checked, band)[1..] == Only(checked[1..], band);
        assert entries == [entries[0]] + NumberFrom(checked[1..], k + 1, count);
        AlignedCons(entries[0], rest, Entry(m, checked[0], count(checked[0].body)),
            NumberFrom(Only(checked[1..], band), m + 1, count));
      } else {
        OnlyAligned(checked[1..], band, k + 1, m, count);
      }
    }
  }

  lemma FitNothing(allocation: nat, count: Counter)
    ensures FitOf([], allocation, count) == Fitted([], 0, [])
  {
    assert Ranked([]) == [];
  }

  /** With sections of one band only, every other band is empty and the result is that band's fit. */
  lemma OneBandAllocated(only: seq<Placed>, band: Band, budget: Budget, count: Counter)
    requires band in WRITABLE_BANDS && forall s | s in only :: s.band == band
    ensures var a := AssembledOf(only, budget, count);
            var fit := FitOf(NumberFrom(only, 0, count), Ceiling(budget, band), count);
            && a.sections == Map(Recounted, fit.survivors) && a.notices == fit.notices && a.total == fit.total
            && (forall b | b in WRITABLE_BANDS :: a.byBand[b] == if b == band then fit.total else 0)
  {
    hide FitOf, Ceiling, Map, SurvivorsOf, NoticesOf, SpentOn, NumberFrom;
    var entries := NumberFrom(only, 0, count);
    var fit := FitOf(entries, Ceiling(budget, band), count);
    forall e | e in entries ensures e.section.band == band { assert e.section in only; }
    forall b | b in WRITABLE_BANDS
      ensures FitBand(entries, b, budget, count) == if b == band then fit else Fitted([], 0, [])
    {
      OneBandFit(entries, band, b, budget, count);
    }
    assert System in WRITABLE_BANDS && Pinned in WRITABLE_BANDS && History in WRITABLE_BANDS && Tools in WRITABLE_BANDS;
    OneBandTotals(entries, band, fit, budget, count);
    FitSorted(entries, Ceiling(budget, band), count);
    OrdersStrict();
    SortOfSorted(fit.survivors, ByOrder);
  }

  lemma OneBandTotals(entries: seq<Entry>, band: Band, fit: Fitted, budget: Budget, count: Counter)
    requires band in WRITABLE_BANDS
    requires FitBand(entries, System, budget, count) == if System == band then fit else Fitted([], 0, [])
    requires FitBand(entries, Pinned, budget, count) == if Pinned == band then fit else Fitted([], 0, [])
    requires FitBand(entries, History, budget, count) == if History == band then fit else Fitted([], 0, [])
    requires FitBand(entries, Tools, budget, count) == if Tools == band then fit else Fitted([], 0, [])
    ensures SurvivorsOf(entries, WRITABLE_BANDS, budget, count) == fit.survivors
    ensures NoticesOf(entries, WRITABLE_BANDS, budget, count) == fit.notices
    ensures SpentOn(entries, WRITABLE_BANDS, budget, count) == fit.total
  {
    hide FitBand, SurvivorsOf, NoticesOf, SpentOn;
    BandsUnfolded(entries, budget, count);
  }

  lemma OneBandFit(entries: seq<Entry>, band: Band, b: Band, budget: Budget, count: Counter)
    requires forall e | e in entries :: e.section.band == band
    ensures FitBand(entries, b, budget, count)
            == if b == band then FitOf(entries, Ceiling(budget, band), count) else Fitted([], 0, [])
  {
    hide FitOf, Ceiling;
    if b == band {
      FilterAll(IsIn(b), entries);
    } else {
      FilterNone(IsIn(b), entries);
      FitNothing(Ceiling(budget, b), count);
    }
  }

  lemma OrdersStrict()
    ensures StrictWeak(ByOrder)
  {
  }

  lemma FitSorted(entries: seq<Entry>, allocation: int, count: Counter)
    ensures Sorted(FitOf(entries, allocation, count).survivors, ByOrder)
  {
    hide OutcomesOf;
    SortSorted(Remaining(Ranked(entries), OutcomesOf(entries, allocation, count)), ByOrder);
  }

  lemma BandsUnfolded(entries: seq<Entry>, budget: Budget, count: Counter)
    ensures SurvivorsOf(entries, WRITABLE_BANDS, budget, count)
            == FitBand(entries, System, budget, count).survivors + FitBand(entries, Pinned, budget, count).survivors
             + FitBand(entries, History, budget, count).survivors + FitBand(entries, Tools, budget, count).survivors
    ensures NoticesOf(entries, WRITABLE_BANDS, budget, count)
            == FitBand(entries, System, budget, count).notices + FitBand(entries, Pinned, budget, count).notices
             + FitBand(entries, History, budget, count).notices + FitBand(entries, Tools, budget, count).notices
    ensures SpentOn(entries, WRITABLE_BANDS, budget, count)
            == FitBand(entries, System, budget, count).total + FitBand(entries, Pinned, budget, count).total
             + FitBand(entries, History, budget, count).total + FitBand(entries, Tools, budget, count).total
  {
    hide FitBand;
    BandsStep(entries, Tools, [], budget, count);
    BandsStep(entries, History, [Tools], budget, count);
    BandsStep(entries, Pinned, [History, Tools], budget, count);
    BandsStep(entries, System, [Pinned, History, Tools], budget, count);
    assert WRITABLE_BANDS == [System] + [Pinned, History, Tools];
  }

  lemma BandsStep(entries: seq<Entry>, band: Band, rest: seq<Band>, budget: Budget, count: Counter)
    ensures SurvivorsOf(entries, [band] + rest, budget, count)
            == FitBand(entries, band, budget, count).survivors + SurvivorsOf(entries, rest, budget, count)
    ensures NoticesOf(entries, [band] + rest, budget, count)
            == FitBand(entries, band, budget, count).notices + NoticesOf(entries, rest, budget, count)
    ensures SpentOn(entries, [band] + rest, budget, count)
            == FitBand(entries, band, budget, count).total + SpentOn(entries, rest, budget, count)
  {
    hide FitBand;
    assert ([band] + rest)[1..] == rest;
  }

  lemma SurvivorsInBand(entries: seq<Entry>, band: Band, budget: Budget, count: Counter, r: Entry)
    requires r in FitBand(entries, band, budget, count).survivors
    ensures r.section.band == band
  {
    hide FitOf, ExcerptOfText;
    FitAccounts(InBand(entries, band), Ceiling(budget, band), count);
    var e :| e in InBand(entries, band) && Accounted(e, r, count);
    FilterMembers(IsIn(band), entries);
  }

  /** No two survivors stand at the same place. */
  lemma SliceUntied(checked: seq<Placed>, band: Band, budget: Budget, count: Counter)
    requires Writable(checked) && band in WRITABLE_BANDS
    ensures var survivors := SurvivorsOf(NumberFrom(checked, 0, count), WRITABLE_BANDS, budget, count);
            Untied(Filter(IsIn(band), Sort(survivors, ByOrder)), ByOrder)
  {
    hide FitBand, SurvivorsOf, LostOf, Positions, Filter;
    var sorted := Sort(SurvivorsOf(NumberFrom(checked, 0, count), WRITABLE_BANDS, budget, count), ByOrder);
    OrdersPartition(checked, budget, count);
    KeptAccounted(checked, budget, count, sorted);
    FilterMembers(IsIn(band), sorted);
  }

  /** Reading one band back out of the prompt gives exactly that band's own fit. */
  lemma BandSlice(checked: seq<Placed>, band: Band, budget: Budget, count: Counter)
    requires Writable(checked) && band in WRITABLE_BANDS
    ensures var entries := NumberFrom(checked, 0, count);
            Filter(IsIn(band), Sort(SurvivorsOf(entries, WRITABLE_BANDS, budget, count), ByOrder))
            == FitBand(entries, band, budget, count).survivors
  {
    hide FitBand, SurvivorsOf, LostOf, Positions;
    var entries := NumberFrom(checked, 0, count);
    var survivors := SurvivorsOf(entries, WRITABLE_BANDS, budget, count);
    var sorted, own := Sort(survivors, ByOrder), FitBand(entries, band, budget, count).survivors;
    SliceOfSurvivors(entries, band, budget, count);
    FilterPermuted(IsIn(band), survivors, sorted);
    OrdersStrict();
    SortSorted(survivors, ByOrder);
    FilterSorted(IsIn(band), sorted, ByOrder);
    FitBandSorted(entries, band, budget, count);
    SliceUntied(checked, band, budget, count);
    SortedUnique(Filter(IsIn(band), sorted), own, ByOrder);
  }

  lemma FitBandSorted(entries: seq<Entry>, band: Band, budget: Budget, count: Counter)
    ensures Sorted(FitBand(entries, band, budget, count).survivors, ByOrder)
  {
    hide FitOf;
    FitSorted(InBand(entries, band), Ceiling(budget, band), count);
  }

  lemma SliceOfSurvivors(entries: seq<Entry>, band: Band, budget: Budget, count: Counter)
    requires band in WRITABLE_BANDS
    ensures Filter(IsIn(band), SurvivorsOf(entries, WRITABLE_BANDS, budget, count))
            == FitBand(entries, band, budget, count).survivors
  {
    hide FitBand, SurvivorsOf, Filter;
    var a := FitBand(entries, System, budget, count).survivors;
    var b := FitBand(entries, Pinned, budget, count).survivors;
    var c := FitBand(entries, History, budget, count).survivors;
    var d := FitBand(entries, Tools, budget, count).survivors;
    BandsUnfolded(entries, budget, count);
    FilterAppend(IsIn(band), a + b + c, d);
    FilterAppend(IsIn(band), a + b, c);
    FilterAppend(IsIn(band), a, b);
    OwnSlice(entries, System, band, budget, count);
    OwnSlice(entries, Pinned, band, budget, count);
    OwnSlice(entries, History, band, budget, count);
    OwnSlice(entries, Tools, band, budget, count);
  }

  lemma OwnSlice(entries: seq<Entry>, of: Band, band: Band, budget: Budget, count: Counter)
    ensures var own := FitBand(entries, of, budget, count).survivors;
            Filter(IsIn(band), own) == if of == band then own else []
  {
    hide FitBand;
    var own := FitBand(entries, of, budget, count).survivors;
    forall r | r in own ensures r.section.band == of { SurvivorsInBand(entries, of, budget, count, r); }
    if of == band { FilterAll(IsIn(band), own); } else { FilterNone(IsIn(band), own); }
  }

  /** Throwing every other band's sections away changes nothing for this one: not a body, not a count. */
  lemma BandsArePrivate(checked: seq<Placed>, band: Band, budget: Budget, count: Counter)
    requires Writable(checked) && band in WRITABLE_BANDS
    ensures var whole, alone := AssembledOf(checked, budget, count), AssembledOf(Only(checked, band), budget, count);
            && alone.sections == Only(whole.sections, band)
            && alone.byBand[band] == whole.byBand[band]
            && alone.notices == FitBand(NumberFrom(checked, 0, count), band, budget, count).notices
  {
    hide FitOf, Ceiling, SurvivorsOf;
    var entries := NumberFrom(checked, 0, count);
    var sorted := Sort(SurvivorsOf(entries, WRITABLE_BANDS, budget, count), ByOrder);
    FilterMembers(SectionIn(band), checked);
    OneBandAllocated(Only(checked, band), band, budget, count);
    OnlyAligned(checked, band, 0, 0, count);
    AlignedFit(InBand(entries, band), NumberFrom(Only(checked, band), 0, count), Ceiling(budget, band), count);
    BandSlice(checked, band, budget, count);
    FilterMap(SectionIn(band), IsIn(band), Recounted, sorted);
  }

  /** The notices are the bands' own notices, band after band. */
  lemma NoticesBandByBand(checked: seq<Placed>, budget: Budget, count: Counter)
    requires Writable(checked)
    ensures AssembledOf(checked, budget, count).notices
            == AssembledOf(Only(checked, System), budget, count).notices
             + AssembledOf(Only(checked, Pinned), budget, count).notices
             + AssembledOf(Only(checked, History), budget, count).notices
             + AssembledOf(Only(checked, Tools), budget, count).notices
  {
    hide FitBand, SurvivorsOf, SpentOn, Only;
    BandsArePrivate(checked, System, budget, count);
    BandsArePrivate(checked, Pinned, budget, count);
    BandsArePrivate(checked, History, budget, count);
    BandsArePrivate(checked, Tools, budget, count);
    BandsUnfolded(NumberFrom(checked, 0, count), budget, count);
  }

  // ------------------------------------------------------------ arrival order does not matter

  /** No two sections of one band share both id and priority; distinct ids are more than enough. */
  ghost predicate DistinctKeys(sections: seq<Placed>) {
    forall i, j | 0 <= i < j < |sections| :: !SameKey(sections[i], sections[j])
  }

  predicate SameKey(s: Placed, t: Placed) {
    s.band == t.band && s.priority == t.priority && s.id == t.id
  }

  lemma DistinctKeysPermuted(xs: seq<Placed>, ys: seq<Placed>)
    requires multiset(xs) == multiset(ys) && DistinctKeys(xs)
    ensures DistinctKeys(ys)
  {
    forall i, j | 0 <= i < j < |ys| ensures !SameKey(ys[i], ys[j]) {
      SameElements(xs, ys);
      assert ys[i] in xs && ys[j] in xs;
      if ys[i] == ys[j] {
        TwiceCounted(ys, i, j);
        SeparatePositions(xs, ys[i]);
      }
    }
  }

  const FORGET: nat -> nat := (order: nat) => 0

  function Bare(count: Counter): Placed -> Entry {
    (s: Placed) => Entry(0, s, count(s.body))
  }

  /** With distinct keys the arrival order never breaks a tie. */
  lemma ForgettingKeepsRank(checked: seq<Placed>, band: Band, count: Counter)
    requires DistinctKeys(checked)
    ensures KeepsRank(InBand(NumberFrom(checked, 0, count), band), FORGET)
    ensures Untied(Map(Renumber(FORGET), InBand(NumberFrom(checked, 0, count), band)), GivenUpBefore)
  {
    var entries := NumberFrom(checked, 0, count);
    var es := InBand(entries, band);
    FilterMembers(IsIn(band), entries);
    forall x, y | x in es && y in es
      ensures GivenUpBefore(Renumber(FORGET)(y), Renumber(FORGET)(x)) == GivenUpBefore(y, x)
    {
      KeysApart(checked, count, x, y);
    }
    var bare := Map(Renumber(FORGET), es);
    forall x, y | x in bare && y in bare && x != y ensures GivenUpBefore(x, y) || GivenUpBefore(y, x) {
      var i :| 0 <= i < |bare| && bare[i] == x;
      var j :| 0 <= j < |bare| && bare[j] == y;
      assert es[i] in es && es[j] in es;
      KeysApart(checked, count, es[i], es[j]);
    }
  }

  lemma KeysApart(checked: seq<Placed>, count: Counter, x: Entry, y: Entry)
    requires DistinctKeys(checked)
    requires x in NumberFrom(checked, 0, count) && y in NumberFrom(checked, 0, count)
    ensures x == y || !SameKey(x.section, y.section)
    ensures x.section.priority == y.section.priority && x.section.id != y.section.id
            ==> Less(x.section.id, y.section.id) || Less(y.section.id, x.section.id)
    ensures !Less(x.section.id, x.section.id)
  {
    var entries := NumberFrom(checked, 0, count);
    var i :| 0 <= i < |entries| && entries[i] == x;
    var j :| 0 <= j < |entries| && entries[j] == y;
    LessTotal(x.section.id, y.section.id);
    LessTotal(x.section.id, x.section.id);
    assert i < j ==> !SameKey(checked[i], checked[j]);
    assert j < i ==> !SameKey(checked[j], checked[i]);
  }

  lemma BarePermuted(xs: seq<Placed>, ys: seq<Placed>, band: Band, count: Counter)
    requires multiset(xs) == multiset(ys)
    ensures multiset(Map(Renumber(FORGET), InBand(NumberFrom(xs, 0, count), band)))
            == multiset(Map(Renumber(FORGET), InBand(NumberFrom(ys, 0, count), band)))
  {
    BareBand(xs, band, count);
    BareBand(ys, band, count);
    MapPermuted(Bare(count), xs, ys);
    FilterPermuted(IsIn(band), Map(Bare(count), xs), Map(Bare(count), ys));
  }

  lemma BareBand(xs: seq<Placed>, band: Band, count: Counter)
    ensures Map(Renumber(FORGET), InBand(NumberFrom(xs, 0, count), band)) == Filter(IsIn(band), Map(Bare(count), xs))
  {
    var entries := NumberFrom(xs, 0, count);
    assert Map(Renumber(FORGET), entries) == Map(Bare(count), xs);
    FilterMap(IsIn(band), IsIn(band), Renumber(FORGET), entries);
  }

  /** One band, two arrival orders: the same verdicts in the same order. */
  lemma BandArrival(xs: seq<Placed>, ys: seq<Placed>, band: Band, budget: Budget, count: Counter)
    requires multiset(xs) == multiset(ys) && DistinctKeys(xs)
    ensures var a := FitBand(NumberFrom(xs, 0, count), band, budget, count);
            var b := FitBand(NumberFrom(ys, 0, count), band, budget, count);
            && multiset(Map(Recounted, a.survivors)) == multiset(Map(Recounted, b.survivors))
            && a.total == b.total && a.notices == b.notices
  {
    hide NumberFrom, GiveUp;
    var es, fs := InBand(NumberFrom(xs, 0, count), band), InBand(NumberFrom(ys, 0, count), band);
    var ceiling := Ceiling(budget, band);
    DistinctKeysPermuted(xs, ys);
    ForgettingKeepsRank(xs, band, count);
    ForgettingKeepsRank(ys, band, count);
    BarePermuted(xs, ys, band, count);
    GivenUpBeforeStrict();
    var bareE, bareF := Map(Renumber(FORGET), es), Map(Renumber(FORGET), fs);
    SortPermuted(bareE, bareF, GivenUpBefore);
    TotalPermuted(bareE, bareF);
    FitRenumbered(es, FORGET, ceiling, count);
    FitRenumbered(fs, FORGET, ceiling, count);
    SameLeft(Remaining(Ranked(es), OutcomesOf(es, ceiling, count)),
        Remaining(Ranked(fs), OutcomesOf(fs, ceiling, count)));
  }

  lemma SameLeft(a: seq<Entry>, b: seq<Entry>)
    requires Map(Renumber(FORGET), a) == Map(Renumber(FORGET), b)
    ensures multiset(Map(Recounted, Sort(a, ByOrder))) == multiset(Map(Recounted, Sort(b, ByOrder)))
    ensures Total(Sort(a, ByOrder)) == Total(Sort(b, ByOrder))
  {
    hide Renumber, Recounted;
    RecountedRenumbered(a, FORGET);
    RecountedRenumbered(b, FORGET);
    MapPermuted(Recounted, a, Sort(a, ByOrder));
    MapPermuted(Recounted, b, Sort(b, ByOrder));
    TotalRenumbered(a, FORGET);
    TotalRenumbered(b, FORGET);
    TotalPermuted(a, Sort(a, ByOrder));
    TotalPermuted(b, Sort(b, ByOrder));
  }

  /** The order a caller happened to collect its sections in decides nothing but where they sit. */
  lemma ArrivalIrrelevant(xs: seq<Placed>, ys: seq<Placed>, budget: Budget, count: Counter)
    requires multiset(xs) == multiset(ys) && DistinctKeys(xs)
    ensures var a, b := AssembledOf(xs, budget, count), AssembledOf(ys, budget, count);
            && multiset(a.sections) == multiset(b.sections)
            && a.byBand == b.byBand && a.total == b.total && a.notices == b.notices
  {
    SectionsArrival(xs, ys, budget, count);
    NumbersArrival(xs, ys, budget, count);
  }

  lemma NumbersArrival(xs: seq<Placed>, ys: seq<Placed>, budget: Budget, count: Counter)
    requires multiset(xs) == multiset(ys) && DistinctKeys(xs)
    ensures var a, b := AssembledOf(xs, budget, count), AssembledOf(ys, budget, count);
            a.byBand == b.byBand && a.total == b.total && a.notices == b.notices
  {
    hide FitBand, NumberFrom, SurvivorsOf, NoticesOf, SpentOn, DistinctKeys, Sort, Map;
    var es, fs := NumberFrom(xs, 0, count), NumberFrom(ys, 0, count);
    forall b ensures FitBand(es, b, budget, count).total == FitBand(fs, b, budget, count).total
                  && FitBand(es, b, budget, count).notices == FitBand(fs, b, budget, count).notices {
      BandArrival(xs, ys, b, budget, count);
    }
    BandsUnfolded(es, budget, count);
    BandsUnfolded(fs, budget, count);
  }

  lemma SectionsArrival(xs: seq<Placed>, ys: seq<Placed>, budget: Budget, count: Counter)
    requires multiset(xs) == multiset(ys) && DistinctKeys(xs)
    ensures multiset(AssembledOf(xs, budget, count).sections) == multiset(AssembledOf(ys, budget, count).sections)
  {
    hide FitBand, NumberFrom, SurvivorsOf, NoticesOf, SpentOn, DistinctKeys, Sort;
    var es, fs := NumberFrom(xs, 0, count), NumberFrom(ys, 0, count);
    var s, t := SurvivorsOf(es, WRITABLE_BANDS, budget, count), SurvivorsOf(fs, WRITABLE_BANDS, budget, count);
    RecountedByBand(es, budget, count);
    RecountedByBand(fs, budget, count);
    BandArrival(xs, ys, System, budget, count);
    BandArrival(xs, ys, Pinned, budget, count);
    BandArrival(xs, ys, History, budget, count);
    BandArrival(xs, ys, Tools, budget, count);
    MapPermuted(Recounted, s, Sort(s, ByOrder));
    MapPermuted(Recounted, t, Sort(t, ByOrder));
  }

  lemma RecountedByBand(entries: seq<Entry>, budget: Budget, count: Counter)
    ensures multiset(Map(Recounted, SurvivorsOf(entries, WRITABLE_BANDS, budget, count)))
            == multiset(Map(Recounted, FitBand(entries, System, budget, count).survivors))
             + multiset(Map(Recounted, FitBand(entries, Pinned, budget, count).survivors))
             + multiset(Map(Recounted, FitBand(entries, History, budget, count).survivors))
             + multiset(Map(Recounted, FitBand(entries, Tools, budget, count).survivors))
  {
    hide FitBand, SurvivorsOf, Map;
    var a, b := FitBand(entries, System, budget, count).survivors, FitBand(entries, Pinned, budget, count).survivors;
    var c, d := FitBand(entries, History, budget, count).survivors, FitBand(entries, Tools, budget, count).survivors;
    BandsUnfolded(entries, budget, count);
    MapAppend(Recounted, a + b + c, d);
    MapAppend(Recounted, a + b, c);
    MapAppend(Recounted, a, b);
  }
}
