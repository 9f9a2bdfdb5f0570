/** The whole allocation: ceilings hold, bands are private, order is irrelevant, nothing disappears. */
module Accounting {
  import opened Sorting
  import opened Text
  import opened Bands
  import opened BandsProofs

  // ------------------------------------------------------------ orders

  lemma GivenUpBeforeStrict()
    ensures StrictWeak(GivenUpBefore)
  {
    forall a, b | GivenUpBefore(a, b) ensures !GivenUpBefore(b, a) {
      LessTotal(a.section.id, b.section.id);
    }
    forall a, b, c | GivenUpBefore(a, c) ensures GivenUpBefore(a, b) || GivenUpBefore(b, c) {
      LessTotal(a.section.id, b.section.id);
      LessTotal(b.section.id, c.section.id);
      if Less(a.section.id, c.section.id) { LessThrough(a.section.id, b.section.id, c.section.id); }
    }
  }

  ghost predicate InOrder(entries: seq<Entry>) {
    forall i, j | 0 <= i < j < |entries| :: entries[i].order < entries[j].order
  }

  function OrderOf(e: Entry): nat { e.order }

  lemma {:induction false} TotalAppend(s: seq<Entry>, t: seq<Entry>)
    ensures Total(s + t) == Total(s) + Total(t)
  {
    if s == [] {
      assert s + t == t;
    } else {
      TotalAppend(s[1..], t);
      assert (s + t)[0] == s[0] && (s + t)[1..] == s[1..] + t;
    }
  }

  lemma {:induction false} TotalPermuted(s: seq<Entry>, t: seq<Entry>)
    requires multiset(s) == multiset(t)
    ensures Total(s) == Total(t)
  {
    SameLength(s, t);
    if s != [] {
      var rest, i := Extract(s, t);
      TotalPermuted(s[1..], rest);
      TotalAppend(t[..i], t[i + 1..]);
      TotalAppend(t[..i], [s[0]] + t[i + 1..]);
      assert t == t[..i] + ([s[0]] + t[i + 1..]);
      assert ([s[0]] + t[i + 1..])[1..] == t[i + 1..];
    }
  }

  // ------------------------------------------------------------ ceilings

  lemma FitTotal(entries: seq<Entry>, allocation: nat, count: Counter)
    ensures FitOf(entries, allocation, count).total <= allocation
  {
    hide GiveUp;
    var ranked := Ranked(entries);
    TotalPermuted(ranked, entries);
    RemainingFits(ranked, Total(ranked), allocation, count);
    var left := Remaining(ranked, OutcomesOf(entries, allocation, count));
    TotalPermuted(Sort(left, ByOrder), left);
  }

  lemma ScaledShare(own: nat, usable: nat, promised: nat)
    requires promised > 0
    ensures own * usable / promised * promised <= own * usable
  {
    assert own * usable >= 0;
  }

  lemma ScaledSum(scaled: nat, scaledRest: nat, own: nat, rest: nat, usable: nat, promised: nat)
    requires scaled * promised <= own * usable && scaledRest * promised <= rest * usable
    ensures (scaled + scaledRest) * promised <= (own + rest) * usable
  {
    assert (scaled + scaledRest) * promised == scaled * promised + scaledRest * promised;
    assert (own + rest) * usable == own * usable + rest * usable;
  }

  lemma Bigger(u: nat, more: nat, p: nat)
    ensures (u + 1 + more) * p >= p * u + p
  {
    assert (u + 1 + more) * p == p * u + p + more * p;
    assert more * p >= 0;
  }

  lemma CancelFactor(c: nat, u: nat, p: nat)
    requires p > 0 && c * p <= p * u
    ensures c <= u
  {
    if c > u { Bigger(u, c - u - 1, p); }
  }

  function Ceilings(budget: Budget, bands: seq<Band>): nat {
    if bands == [] then 0 else Ceiling(budget, bands[0]) + Ceilings(budget, bands[1..])
  }

  lemma {:induction false} CeilingsScaled(budget: Budget, bands: seq<Band>)
    requires Promised(budget, WRITABLE_BANDS) > Max(0, budget.usable)
    ensures Ceilings(budget, bands) * Promised(budget, WRITABLE_BANDS)
            <= Promised(budget, bands) * Max(0, budget.usable)
  {
    if bands != [] {
      var own, u, p := Max(0, budget.allocation(bands[0])), Max(0, budget.usable), Promised(budget, WRITABLE_BANDS);
      CeilingsScaled(budget, bands[1..]);
      ScaledShare(own, u, p);
      ScaledSum(Ceiling(budget, bands[0]), Ceilings(budget, bands[1..]), own, Promised(budget, bands[1..]), u, p);
    }
  }

  lemma {:induction false} CeilingsUnscaled(budget: Budget, bands: seq<Band>)
    requires Promised(budget, WRITABLE_BANDS) <= Max(0, budget.usable)
    ensures Ceilings(budget, bands) == Promised(budget, bands)
  {
    if bands != [] {
      CeilingsUnscaled(budget, bands[1..]);
    }
  }

  /** However absurd the budget, the ceilings together stay inside the usable window. */
  lemma CeilingsWithinWindow(budget: Budget)
    ensures Ceilings(budget, WRITABLE_BANDS) <= Max(0, budget.usable)
  {
    var u, p := Max(0, budget.usable), Promised(budget, WRITABLE_BANDS);
    if p <= u {
      CeilingsUnscaled(budget, WRITABLE_BANDS);
    } else {
      CeilingsScaled(budget, WRITABLE_BANDS);
      CancelFactor(Ceilings(budget, WRITABLE_BANDS), u, p);
    }
  }

  /**
   * A band's ceiling is its own allocation while all of them together fit the usable window, and else its share of
   * the window, in proportion and rounded down.
   */
  lemma CeilingExactly(budget: Budget, band: Band)
    ensures var own, usable := Max(0, budget.allocation(band)), Max(0, budget.usable);
            var promised := Max(0, budget.allocation(System)) + Max(0, budget.allocation(Pinned))
                            + Max(0, budget.allocation(History)) + Max(0, budget.allocation(Tools));
            var c := Ceiling(budget, band);
            if promised <= usable then c == own else c * promised <= own * usable < (c + 1) * promised
  {
    PromisedOfFour(budget);
    var own, usable := Max(0, budget.allocation(band)), Max(0, budget.usable);
    var promised := Promised(budget, WRITABLE_BANDS);
    if promised > usable { SharedOut(own * usable, promised); }
  }

  lemma SharedOut(m: int, d: nat)
    requires d > 0
    ensures m / d * d <= m < (m / d + 1) * d
  {
    var k := m / d;
    assert m == k * d + m % d;
  }

  lemma PromisedOfFour(budget: Budget)
    ensures Promised(budget, WRITABLE_BANDS)
            == Max(0, budget.allocation(System)) + Max(0, budget.allocation(Pinned))
               + Max(0, budget.allocation(History)) + Max(0, budget.allocation(Tools))
  {
    assert WRITABLE_BANDS[1..] == [Pinned, History, Tools] && [Pinned, History, Tools][1..] == [History, Tools];
    assert [History, Tools][1..] == [Tools] && [Tools][1..] == [];
    assert Promised(budget, [Tools]) == Max(0, budget.allocation(Tools));
    assert Promised(budget, [History, Tools])
        == Max(0, budget.allocation(History)) + Max(0, budget.allocation(Tools));
  }

  lemma {:induction false} SpentWithinCeilings(entries: seq<Entry>, bands: seq<Band>, budget: Budget, count: Counter)
    ensures SpentOn(entries, bands, budget, count) <= Ceilings(budget, bands)
  {
    hide FitOf;
    if bands != [] {
      FitTotal(InBand(entries, bands[0]), Ceiling(budget, bands[0]), count);
      SpentWithinCeilings(entries, bands[1..], budget, count);
    }
  }

  /** No band overspends its ceiling, and the prompt never overspends the window. */
  lemma NeverOverspent(checked: seq<Placed>, budget: Budget, count: Counter)
    ensures var a := AssembledOf(checked, budget, count);
            && a.byBand.Keys == set b | b in WRITABLE_BANDS
            && (forall b | b in WRITABLE_BANDS :: a.byBand[b] <= Ceiling(budget, b))
            && a.total <= Max(0, budget.usable)
  {
    hide FitOf;
    var entries := NumberFrom(checked, 0, count);
    forall b | b in WRITABLE_BANDS ensures FitBand(entries, b, budget, count).total <= Ceiling(budget, b) {
      FitTotal(InBand(entries, b), Ceiling(budget, b), count);
    }
    SpentWithinCeilings(entries, WRITABLE_BANDS, budget, count);
    CeilingsWithinWindow(budget);
  }

  // ------------------------------------------------------------ nothing goes missing

  function EntryAt(checked: seq<Placed>, k: nat, count: Counter): Entry
    requires k < |checked|
  {
    Entry(k, checked[k], count(checked[k].body))
  }

  /** `r` is the section it came in as, or a fair shortening of it. */
  ghost predicate Accounted(e: Entry, r: Entry, count: Counter) {
    r == e || (r.order == e.order && FairlyShortened(e, r.section, r.cost, count))
  }

  function Dropouts(ranked: seq<Entry>, outcomes: seq<Outcome>): seq<Entry>
    requires |ranked| == |outcomes|
  {
    if ranked == [] then []
    else (if outcomes[0].Dropped? then [ranked[0]] else []) + Dropouts(ranked[1..], outcomes[1..])
  }

  /** Every entry is in exactly one of the two piles. */
  lemma {:induction false} PilesPartition(ranked: seq<Entry>, outcomes: seq<Outcome>)
    requires |ranked| == |outcomes|
    ensures multiset(Map(OrderOf, Remaining(ranked, outcomes))) + multiset(Map(OrderOf, Dropouts(ranked, outcomes)))
            == multiset(Map(OrderOf, ranked))
  {
    hide Map;
    if ranked != [] {
      var e, o := ranked[0], outcomes[0];
      var kept, lost := Remaining(ranked[1..], outcomes[1..]), Dropouts(ranked[1..], outcomes[1..]);
      PilesPartition(ranked[1..], outcomes[1..]);
      OrdersCons(e, e, ranked[1..]);
      assert ranked == [e] + ranked[1..];
      OrdersCons(e, After(e, o), kept);
      OrdersCons(e, e, lost);
      PilesUnfold(ranked, outcomes);
    }
  }

  lemma OrdersCons(e: Entry, e': Entry, rest: seq<Entry>)
    requires e'.order == e.order
    ensures multiset(Map(OrderOf, [e'] + rest)) == multiset{e.order} + multiset(Map(OrderOf, rest))
  {
    MapCons(OrderOf, e', rest);
  }

  lemma PilesUnfold(ranked: seq<Entry>, outcomes: seq<Outcome>)
    requires |ranked| == |outcomes| > 0
    ensures Remaining(ranked, outcomes) == if outcomes[0].Dropped? then Remaining(ranked[1..], outcomes[1..])
                                           else [After(ranked[0], outcomes[0])] + Remaining(ranked[1..], outcomes[1..])
    ensures Dropouts(ranked, outcomes)
            == if outcomes[0].Dropped? then [ranked[0]] + Dropouts(ranked[1..], outcomes[1..])
                                          else Dropouts(ranked[1..], outcomes[1..])
  {
  }

  ghost predicate AllFair(ranked: seq<Entry>, outcomes: seq<Outcome>, count: Counter)
    requires |ranked| == |outcomes|
  {
    forall i | 0 <= i < |ranked| :: Fair(ranked[i], outcomes[i], count)
  }

  /** Each dropout has exactly one notice, its own. */
  ghost predicate Notified(lost: seq<Entry>, notices: seq<string>) {
    |lost| == |notices| && forall j | 0 <= j < |lost| :: FairlyDropped(lost[j], notices[j])
  }

  lemma {:induction false} DropoutsNotified(ranked: seq<Entry>, outcomes: seq<Outcome>, count: Counter)
    requires |ranked| == |outcomes| && AllFair(ranked, outcomes, count)
    ensures Notified(Dropouts(ranked, outcomes), Confessed(outcomes))
    ensures forall d | d in Dropouts(ranked, outcomes) :: d in ranked
  {
    hide FairlyDropped, FairlyShortened;
    if ranked != [] {
      assert Fair(ranked[0], outcomes[0], count);
      forall i | 0 <= i < |ranked[1..]| ensures Fair(ranked[1..][i], outcomes[1..][i], count) {
        assert Fair(ranked[i + 1], outcomes[i + 1], count);
      }
      DropoutsNotified(ranked[1..], outcomes[1..], count);
      assert ranked == [ranked[0]] + ranked[1..];
    }
  }

  lemma RemainingAccounted(ranked: seq<Entry>, outcomes: seq<Outcome>, count: Counter, r: Entry) returns (e: Entry)
    requires |ranked| == |outcomes| && AllFair(ranked, outcomes, count)
    requires r in Remaining(ranked, outcomes)
    ensures e in ranked && Accounted(e, r, count)
    decreases ranked
  {
    hide FairlyDropped, FairlyShortened;
    assert Fair(ranked[0], outcomes[0], count);
    if !outcomes[0].Dropped? && r == After(ranked[0], outcomes[0]) {
      e := ranked[0];
    } else {
      forall i | 0 <= i < |ranked[1..]| ensures Fair(ranked[1..][i], outcomes[1..][i], count) {
        assert Fair(ranked[i + 1], outcomes[i + 1], count);
      }
      e := RemainingAccounted(ranked[1..], outcomes[1..], count, r);
      assert e in ranked[1..];
    }
  }

  lemma {:induction false} RemainingAt(ranked: seq<Entry>, outcomes: seq<Outcome>, j: nat)
    requires j < |ranked| == |outcomes| && !outcomes[j].Dropped?
    ensures After(ranked[j], outcomes[j]) in Remaining(ranked, outcomes)
  {
    hide After;
    PilesUnfold(ranked, outcomes);
    if j > 0 {
      RemainingAt(ranked[1..], outcomes[1..], j - 1);
      assert ranked[1..][j - 1] == ranked[j] && outcomes[1..][j - 1] == outcomes[j];
    }
    hide Remaining;
  }

  lemma {:induction false} RemainingFrom(ranked: seq<Entry>, outcomes: seq<Outcome>, r: Entry) returns (j: nat)
    requires |ranked| == |outcomes| && r in Remaining(ranked, outcomes)
    ensures j < |ranked| && !outcomes[j].Dropped? && r == After(ranked[j], outcomes[j])
  {
    PilesUnfold(ranked, outcomes);
    if !outcomes[0].Dropped? && r == After(ranked[0], outcomes[0]) {
      j := 0;
    } else {
      j := RemainingFrom(ranked[1..], outcomes[1..], r);
      j := j + 1;
    }
  }

  function LostIn(entries: seq<Entry>, allocation: int, count: Counter): seq<Entry> {
    Dropouts(Ranked(entries), OutcomesOf(entries, allocation, count))
  }

  function LostOf(entries: seq<Entry>, bands: seq<Band>, budget: Budget, count: Counter): seq<Entry> {
    if bands == [] then []
    else
      var first := LostIn(InBand(entries, bands[0]), Ceiling(budget, bands[0]), count);
      first + LostOf(entries, bands[1..], budget, count)
  }

  function InBands(entries: seq<Entry>, bands: seq<Band>): seq<Entry> {
    if bands == [] then [] else InBand(entries, bands[0]) + InBands(entries, bands[1..])
  }

  lemma OutcomesFair(entries: seq<Entry>, allocation: int, count: Counter)
    ensures AllFair(Ranked(entries), OutcomesOf(entries, allocation, count), count)
  {
    var cut := CutPoint(Ranked(entries), Total(entries), allocation, count);
  }

  /** One band: two piles that together are the band, notices for one, accounts for the other. */
  lemma FitAccounts(entries: seq<Entry>, allocation: int, count: Counter)
    ensures var kept, lost := FitOf(entries, allocation, count).survivors, LostIn(entries, allocation, count);
            && multiset(Map(OrderOf, kept)) + multiset(Map(OrderOf, lost)) == multiset(Map(OrderOf, entries))
            && Notified(lost, FitOf(entries, allocation, count).notices)
            && (forall d | d in lost :: d in entries)
            && (forall r | r in kept :: exists e | e in entries :: Accounted(e, r, count))
  {
    hide GiveUp, FairlyDropped, FairlyShortened;
    var ranked, outcomes := Ranked(entries), OutcomesOf(entries, allocation, count);
    var left := Remaining(ranked, outcomes);
    var kept := Sort(left, ByOrder);
    OutcomesFair(entries, allocation, count);
    PilesPartition(ranked, outcomes);
    DropoutsNotified(ranked, outcomes, count);
    MapPermuted(OrderOf, left, kept);
    MapPermuted(OrderOf, ranked, entries);
    SameElements(ranked, entries);
    SameElements(left, kept);
    forall r | r in kept ensures exists e | e in entries :: Accounted(e, r, count) {
      var e := RemainingAccounted(ranked, outcomes, count, r);
    }
  }

  lemma NotifiedAppend(a: seq<Entry>, m: seq<string>, b: seq<Entry>, n: seq<string>)
    requires Notified(a, m) && Notified(b, n)
    ensures Notified(a + b, m + n)
  {
    hide FairlyDropped;
  }

  lemma {:induction false} BandsAccount(entries: seq<Entry>, bands: seq<Band>, budget: Budget, count: Counter)
    ensures var kept, lost := SurvivorsOf(entries, bands, budget, count), LostOf(entries, bands, budget, count);
            && multiset(Map(OrderOf, kept)) + multiset(Map(OrderOf, lost))
               == multiset(Map(OrderOf, InBands(entries, bands)))
            && Notified(lost, NoticesOf(entries, bands, budget, count))
            && (forall d | d in lost :: d in entries)
            && (forall r | r in kept :: exists e | e in entries :: Accounted(e, r, count))
  {
    hide FitOf, LostIn, FairlyDropped, FairlyShortened, Ceiling, Map, Accounted;
    if bands != [] {
      var own := InBand(entries, bands[0]);
      var ceiling := Ceiling(budget, bands[0]);
      FitAccounts(own, ceiling, count);
      FilterMembers(IsIn(bands[0]), entries);
      BandsAccount(entries, bands[1..], budget, count);
      var kept, lost := FitOf(own, ceiling, count).survivors, LostIn(own, ceiling, count);
      var kept', lost' := SurvivorsOf(entries, bands[1..], budget, count), LostOf(entries, bands[1..], budget, count);
      MapAppend(OrderOf, kept, kept');
      MapAppend(OrderOf, lost, lost');
      MapAppend(OrderOf, own, InBands(entries, bands[1..]));
      NotifiedAppend(lost, FitOf(own, ceiling, count).notices, lost', NoticesOf(entries, bands[1..], budget, count));
    }
  }

  /** What `_checked` leaves: every section in a band that may be written to. */
  ghost predicate Writable(checked: seq<Placed>) {
    forall s | s in checked :: s.band != Reserve
  }

  lemma FourBands(entries: seq<Entry>)
    ensures InBands(entries, WRITABLE_BANDS)
            == InBand(entries, System)
               + (InBand(entries, Pinned) + (InBand(entries, History) + InBand(entries, Tools)))
  {
    hide InBand;
    assert [Tools][1..] == [] && [History, Tools][1..] == [Tools];
    assert InBands(entries, [Tools]) == InBand(entries, Tools);
    assert InBands(entries, [History, Tools]) == InBand(entries, History) + InBand(entries, Tools);
    assert [Pinned, History, Tools][1..] == [History, Tools];
    assert WRITABLE_BANDS[1..] == [Pinned, History, Tools];
  }

  lemma InBandsWhole(entries: seq<Entry>)
    requires forall e | e in entries :: e.section.band != Reserve
    ensures multiset(InBands(entries, WRITABLE_BANDS)) == multiset(entries)
  {
    var a, b, c, d := InBand(entries, System), InBand(entries, Pinned), InBand(entries, History),
        InBand(entries, Tools);
    FourBands(entries);
    forall e ensures (multiset(a) + multiset(b) + multiset(c) + multiset(d))[e] == multiset(entries)[e] {
      FilterCount(IsIn(System), entries, e);
      FilterCount(IsIn(Pinned), entries, e);
      FilterCount(IsIn(History), entries, e);
      FilterCount(IsIn(Tools), entries, e);
      if multiset(entries)[e] > 0 { assert e in multiset(entries) && e in entries; }
    }
  }

  /** How an `Assembled` accounts for its input: `kept` are the positions shown, `lost` those confessed. */
  ghost predicate Accounts(a: Assembled, checked: seq<Placed>, count: Counter, kept: seq<nat>, lost: seq<nat>) {
    && multiset(kept) + multiset(lost) == multiset(Positions(|checked|))
    && (forall i, j | 0 <= i < j < |kept| :: kept[i] < kept[j])
    && |kept| == |a.sections| && |lost| == |a.notices|
    && (forall i | 0 <= i < |kept| :: kept[i] < |checked| && ShownAs(checked[kept[i]], a.sections[i], count))
    && (forall j | 0 <= j < |lost| ::
          lost[j] < |checked| && FairlyDropped(EntryAt(checked, lost[j], count), a.notices[j]))
  }

  /** Shown whole with its own recount, or fairly shortened with the recount of what is left. */
  ghost predicate ShownAs(s: Placed, shown: Placed, count: Counter) {
    || shown == s.(tokens := count(s.body))
    || (shown.tokens == count(shown.body) && FairlyShortened(Entry(0, s, count(s.body)), shown, shown.tokens, count))
  }

  function Positions(n: nat): (s: seq<nat>)
    ensures |s| == n && forall i | 0 <= i < n :: s[i] == i
  {
    seq(n, i => i)
  }

  lemma {:induction false} PositionsCount(n: nat, x: nat)
    ensures multiset(Positions(n))[x] == if x < n then 1 else 0
  {
    if n > 0 {
      PositionsCount(n - 1, x);
      assert Positions(n) == Positions(n - 1) + [n - 1];
    }
  }

  lemma DistinctFromMultiset(s: seq<nat>, n: nat)
    requires multiset(s) <= multiset(Positions(n))
    ensures forall i, j | 0 <= i < j < |s| :: s[i] != s[j]
    ensures forall x | x in s :: x < n
  {
    forall i, j | 0 <= i < j < |s| ensures s[i] != s[j] {
      PositionsCount(n, s[i]);
      if s[i] == s[j] { TwiceCounted(s, i, j); }
    }
    forall x | x in s ensures x < n {
      assert x in multiset(s);
      PositionsCount(n, x);
    }
  }

  lemma OrdersOfNumbered(checked: seq<Placed>, count: Counter)
    ensures Map(OrderOf, NumberFrom(checked, 0, count)) == Positions(|checked|)
  {
    hide NumberFrom, Positions, Map;
    var orders := Map(OrderOf, NumberFrom(checked, 0, count));
    forall i | 0 <= i < |orders| ensures orders[i] == Positions(|checked|)[i] {
    }
  }

  /** The orders of what is shown and what is lost are the positions of the input, each once. */
  lemma OrdersPartition(checked: seq<Placed>, budget: Budget, count: Counter)
    requires Writable(checked)
    ensures var entries := NumberFrom(checked, 0, count);
            multiset(Map(OrderOf, Sort(SurvivorsOf(entries, WRITABLE_BANDS, budget, count), ByOrder)))
            + multiset(Map(OrderOf, LostOf(entries, WRITABLE_BANDS, budget, count))) == multiset(Positions(|checked|))
  {
    hide SurvivorsOf, LostOf, NoticesOf, FairlyDropped, FairlyShortened, InBands, Notified, Positions;
    var entries := NumberFrom(checked, 0, count);
    var survivors := SurvivorsOf(entries, WRITABLE_BANDS, budget, count);
    BandsAccount(entries, WRITABLE_BANDS, budget, count);
    forall e | e in entries ensures e.section.band != Reserve { assert e.section in checked; }
    InBandsWhole(entries);
    MapPermuted(OrderOf, InBands(entries, WRITABLE_BANDS), entries);
    OrdersOfNumbered(checked, count);
    MapPermuted(OrderOf, survivors, Sort(survivors, ByOrder));
  }

  lemma SortedOrders(s: seq<Entry>)
    requires forall i, j | 0 <= i < j < |s| :: Map(OrderOf, s)[i] != Map(OrderOf, s)[j]
    requires Sorted(s, ByOrder)
    ensures InOrder(s)
  {
    forall i, j | 0 <= i < j < |s| ensures s[i].order < s[j].order {
      assert !ByOrder(s[j], s[i]) && Map(OrderOf, s)[i] != Map(OrderOf, s)[j];
    }
  }

  lemma SurvivorShown(checked: seq<Placed>, bands: seq<Band>, budget: Budget, count: Counter, r: Entry)
    requires r in SurvivorsOf(NumberFrom(checked, 0, count), bands, budget, count)
    ensures r.order < |checked| && ShownAs(checked[r.order], Recounted(r), count)
  {
    hide SurvivorsOf, LostOf, NoticesOf, FairlyDropped, FairlyShortened, InBands, Notified, ShownAs;
    var entries := NumberFrom(checked, 0, count);
    BandsAccount(entries, bands, budget, count);
    var e :| e in entries && Accounted(e, r, count);
    ShownFromAccounted(checked, e, r, count);
  }

  lemma ShownFromAccounted(checked: seq<Placed>, e: Entry, r: Entry, count: Counter)
    requires e.order < |checked| && e == EntryAt(checked, e.order, count)
    requires Accounted(e, r, count)
    ensures r.order < |checked| && ShownAs(checked[r.order], Recounted(r), count)
  {
    if r != e {
      var x :| ExcerptOfText(x, e.section.body, e.cost, count)
        && x.shown >= Floor(e.section) && r.cost == x.tokens < e.cost
        && r.section == e.section.(body := x.body, tokens := x.tokens, truncated := true,
                                   notice := ShortenedText(e.section, x.shown, e.cost));
      var head, tail :| ExcerptBetween(x, e.section.body, e.cost, count, head, tail);
      assert Recounted(r) == r.section;
      assert FairlyShortened(Entry(0, e.section, e.cost), r.section, r.cost, count);
    }
  }

  /** Nothing is lost quietly: sections and notices together account for every section handed in. */
  lemma NothingLost(checked: seq<Placed>, budget: Budget, count: Counter)
    requires Writable(checked)
    ensures exists kept, lost :: Accounts(AssembledOf(checked, budget, count), checked, count, kept, lost)
  {
    hide SurvivorsOf, LostOf, NoticesOf, SpentOn, FitBand, FairlyDropped, ShownAs, Positions, Sort, Map;
    var entries := NumberFrom(checked, 0, count);
    var survivors, lost := SurvivorsOf(entries, WRITABLE_BANDS, budget, count),
        LostOf(entries, WRITABLE_BANDS, budget, count);
    var sorted := Sort(survivors, ByOrder);
    OrdersPartition(checked, budget, count);
    KeptAccounted(checked, budget, count, sorted);
    LostAccounted(checked, budget, count, lost);
    AssembleAccounts(AssembledOf(checked, budget, count), checked, count, sorted, lost);
  }

  lemma AssembleAccounts(a: Assembled, checked: seq<Placed>, count: Counter, sorted: seq<Entry>, lost: seq<Entry>)
    requires a.sections == Map(Recounted, sorted) && |a.notices| == |lost|
    requires multiset(Map(OrderOf, sorted)) + multiset(Map(OrderOf, lost)) == multiset(Positions(|checked|))
    requires InOrder(sorted)
    requires forall i | 0 <= i < |sorted| :: sorted[i].order < |checked|
                                         && ShownAs(checked[sorted[i].order], Recounted(sorted[i]), count)
    requires forall j | 0 <= j < |lost| :: lost[j].order < |checked|
                                        && FairlyDropped(EntryAt(checked, lost[j].order, count), a.notices[j])
    ensures exists kept, dropped :: Accounts(a, checked, count, kept, dropped)
  {
    hide Map, ShownAs, FairlyDropped, Positions;
    assert Accounts(a, checked, count, Map(OrderOf, sorted), Map(OrderOf, lost));
  }

  lemma KeptAccounted(checked: seq<Placed>, budget: Budget, count: Counter, sorted: seq<Entry>)
    requires sorted == Sort(SurvivorsOf(NumberFrom(checked, 0, count), WRITABLE_BANDS, budget, count), ByOrder)
    requires multiset(Map(OrderOf, sorted)) <= multiset(Positions(|checked|))
    ensures InOrder(sorted)
    ensures forall i | 0 <= i < |sorted| :: sorted[i].order < |checked|
                                         && ShownAs(checked[sorted[i].order], Recounted(sorted[i]), count)
  {
    hide SurvivorsOf, FairlyDropped, FairlyShortened, ShownAs, Positions, Map;
    var survivors := SurvivorsOf(NumberFrom(checked, 0, count), WRITABLE_BANDS, budget, count);
    DistinctFromMultiset(Map(OrderOf, sorted), |checked|);
    SortSorted(survivors, ByOrder);
    SortedOrders(sorted);
    SameElements(survivors, sorted);
    forall i | 0 <= i < |sorted|
      ensures sorted[i].order < |checked| && ShownAs(checked[sorted[i].order], Recounted(sorted[i]), count)
    {
      assert sorted[i] in sorted;
      SurvivorShown(checked, WRITABLE_BANDS, budget, count, sorted[i]);
    }
  }

  lemma LostAccounted(checked: seq<Placed>, budget: Budget, count: Counter, lost: seq<Entry>)
    requires lost == LostOf(NumberFrom(checked, 0, count), WRITABLE_BANDS, budget, count)
    ensures var notices := NoticesOf(NumberFrom(checked, 0, count), WRITABLE_BANDS, budget, count);
            && |lost| == |notices|
            && (forall j | 0 <= j < |lost| :: lost[j].order < |checked|
                  && FairlyDropped(EntryAt(checked, lost[j].order, count), notices[j]))
  {
    hide LostOf, NoticesOf, SurvivorsOf, FairlyDropped, InBands;
    var entries := NumberFrom(checked, 0, count);
    BandsAccount(entries, WRITABLE_BANDS, budget, count);
    forall j | 0 <= j < |lost| ensures lost[j].order < |checked| && lost[j] == EntryAt(checked, lost[j].order, count) {
      assert lost[j] in lost && lost[j] in entries;
    }
  }
}
