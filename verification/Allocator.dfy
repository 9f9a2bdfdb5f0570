/** The allocator as it runs: entries mutated in place, proved against the specification in `Bands`. */
module Allocator {
  import opened Sorting
  import opened Text
  import opened Bands
  import opened BandsProofs
  import opened Accounting

  /** One section while it is being fitted, plus the facts that change about it. */
  class Cell {
    const order: nat
    var section: Placed
    var cost: nat
    var dropped: bool

    constructor (order: nat, section: Placed, cost: nat)
      ensures Now() == Entry(order, section, cost) && !dropped
    {
      this.order, this.section, this.cost, dropped := order, section, cost, false;
    }

    function Now(): Entry
      reads this
    {
      Entry(order, section, cost)
    }
  }

  function Values(cells: seq<Cell>): (r: seq<Entry>)
    reads cells
    ensures |r| == |cells| && forall i | 0 <= i < |cells| :: r[i] == cells[i].Now()
  {
    seq(|cells|, i requires 0 <= i < |cells| reads cells => cells[i].Now())
  }

  function CellsIn(cells: seq<Cell>, band: Band): seq<Cell>
    reads cells
  {
    if cells == [] then []
    else if cells[0].section.band == band then [cells[0]] + CellsIn(cells[1..], band)
    else CellsIn(cells[1..], band)
  }

  function Undropped(cells: seq<Cell>): seq<Cell>
    reads cells
  {
    if cells == [] then []
    else if cells[0].dropped then Undropped(cells[1..])
    else [cells[0]] + Undropped(cells[1..])
  }

  ghost predicate Distinct<T>(s: seq<T>) {
    forall i, j | 0 <= i < j < |s| :: s[i] != s[j]
  }

  /** The shrinking loop: a ceiling holds because the loop measures what it built. */
  method MakeExcerpt(text: string, original: nat, allowance: int, count: Counter) returns (r: Option<Excerpt>)
    requires original >= 1
    ensures r == ExcerptOf(text, original, allowance, count)
    ensures r.Some? ==> r.value.tokens <= allowance && ExcerptOfText(r.value, text, original, count)
  {
    ExcerptSound(text, original, allowance, count);
    var chars := FirstGuess(text, original, allowance);
    while true
      invariant 0 <= chars <= |text| && (chars > 0 ==> allowance > 0)
      invariant Shrink(text, original, allowance, count, chars) == ExcerptOf(text, original, allowance, count)
      decreases chars
    {
      var (head, tail) := Fragments(text, chars);
      var shown := count(Lines([head, tail]));
      var body := Lines([head, Marker(shown, original), tail]);
      var tokens := count(body);
      if tokens <= allowance {
        return Some(Excerpt(body, tokens, shown));
      }
      if chars <= 0 {
        return None;
      }
      chars := Max(0, Min(chars - 1, chars * allowance / tokens));
    }
  }

  // ------------------------------------------------------------ one band

  function Before(p: (Entry, Cell), q: (Entry, Cell)): bool { GivenUpBefore(p.0, q.0) }

  function First(p: (Entry, Cell)): Entry { p.0 }

  function Paired(cells: seq<Cell>): (pairs: seq<(Entry, Cell)>)
    reads cells
    ensures |pairs| == |cells| && forall i | 0 <= i < |cells| :: pairs[i] == (cells[i].Now(), cells[i])
  {
    seq(|cells|, i requires 0 <= i < |cells| reads cells => (cells[i].Now(), cells[i]))
  }

  /** Python's `sorted` reads the keys once, up front: the ranking is of the entries as they came in. */
  lemma RankedPairs(cells: seq<Cell>)
    requires Distinct(cells)
    ensures var ranked := Sort(Paired(cells), Before);
            && Map(First, ranked) == Ranked(Values(cells))
            && |ranked| == |cells|
            && (forall p | p in ranked :: p.1 in cells && p.0 == p.1.Now())
            && (forall c | c in cells :: (c.Now(), c) in ranked)
            && (forall i, j | 0 <= i < j < |ranked| :: ranked[i].1 != ranked[j].1)
  {
    var pairs, ranked := Paired(cells), Sort(Paired(cells), Before);
    assert Map(First, pairs) == Values(cells);
    SortMap(pairs, First, Before, GivenUpBefore);
    SameLength(pairs, ranked);
    PairsFound(cells, ranked);
    PairsApart(pairs, ranked);
  }

  lemma PairsFound(cells: seq<Cell>, ranked: seq<(Entry, Cell)>)
    requires multiset(ranked) == multiset(Paired(cells))
    ensures forall p | p in ranked :: p.1 in cells && p.0 == p.1.Now()
    ensures forall c | c in cells :: (c.Now(), c) in ranked
  {
    hide Paired;
    var pairs := Paired(cells);
    SameElements(pairs, ranked);
    forall p | p in ranked ensures p.1 in cells && p.0 == p.1.Now() {
      var i :| 0 <= i < |pairs| && pairs[i] == p;
    }
    forall c | c in cells ensures (c.Now(), c) in ranked {
      var i :| 0 <= i < |cells| && cells[i] == c;
      assert pairs[i] in pairs;
    }
  }

  lemma PairsApart(pairs: seq<(Entry, Cell)>, ranked: seq<(Entry, Cell)>)
    requires multiset(ranked) == multiset(pairs)
    requires forall i, j | 0 <= i < j < |pairs| :: pairs[i].1 != pairs[j].1
    ensures forall i, j | 0 <= i < j < |ranked| :: ranked[i].1 != ranked[j].1
  {
    SameElements(pairs, ranked);
    forall i, j | 0 <= i < j < |ranked| ensures ranked[i].1 != ranked[j].1 {
      assert ranked[i] in pairs && ranked[j] in pairs;
      if ranked[i] == ranked[j] {
        TwiceCounted(ranked, i, j);
        SeparatePositions(pairs, ranked[i]);
      }
    }
  }

  ghost predicate Among(cells: seq<Cell>, ranked: seq<(Entry, Cell)>) {
    forall j | 0 <= j < |ranked| :: ranked[j].1 in cells
  }

  /** What the loop has done to the ranked cells after `k` of them. */
  ghost predicate Progress(cells: seq<Cell>, ranked: seq<(Entry, Cell)>, outcomes: seq<Outcome>, k: nat)
    requires |ranked| == |outcomes| && k <= |ranked| && Among(cells, ranked)
    reads cells
  {
    && (forall j | 0 <= j < k :: ranked[j].1.Now() == After(ranked[j].0, outcomes[j])
                              && ranked[j].1.dropped == outcomes[j].Dropped?)
    && (forall j | k <= j < |ranked| :: ranked[j].1.Now() == ranked[j].0 && !ranked[j].1.dropped)
  }

  lemma ConfessedCons(o: Outcome, rest: seq<Outcome>)
    ensures Confessed([o] + rest) == (if o.Dropped? then [o.notice] else []) + Confessed(rest)
  {
    assert ([o] + rest)[1..] == rest;
  }

  lemma {:induction false} ConfessedAppend(a: seq<Outcome>, b: seq<Outcome>)
    ensures Confessed(a + b) == Confessed(a) + Confessed(b)
  {
    if a == [] {
      assert a + b == b;
    } else {
      ConfessedAppend(a[1..], b);
      ConfessedCons(a[0], a[1..] + b);
      ConfessedCons(a[0], a[1..]);
      Regroup(a, b);
    }
  }

  lemma {:induction false} NothingConfessed(outcomes: seq<Outcome>)
    requires forall o | o in outcomes :: o.Kept?
    ensures Confessed(outcomes) == []
  {
    if outcomes != [] {
      assert outcomes[0] in outcomes && forall o | o in outcomes[1..] :: o in outcomes;
      NothingConfessed(outcomes[1..]);
    }
  }

  /** One turn of the loop: one cell kept, shortened in place, or dropped and confessed. */
  method GiveUpOne(cell: Cell, running: int, allocation: int, count: Counter)
        returns (left: int, confessed: seq<string>)
    requires running > allocation && !cell.dropped
    modifies cell
    ensures var e, o := old(cell.Now()), Judge(old(cell.Now()), running, allocation, count);
            && cell.Now() == After(e, o) && cell.dropped == o.Dropped?
            && left == running - e.cost + CostAfter(e, o)
            && confessed == Confessed([o])
    ensures cell.section.band == old(cell.section.band)
  {
    hide ExcerptOf, ExcerptOfText, DropNotice, TrimNotice;
    left, confessed := running, [];
    if cell.cost != 0 {
      var section := cell.section;
      var floor := Floor(section);
      var excerpt := MakeExcerpt(section.body, cell.cost, cell.cost - (running - allocation), count);
      var shown := if excerpt.Some? then excerpt.value.shown else 0;
      if excerpt.None? || shown < floor {
        cell.dropped := true;
        left := running - cell.cost;
        confessed := [DropNotice(section, cell.cost, shown, floor)];
      } else {
        cell.section := WithBody(section, excerpt.value.body, excerpt.value.tokens,
            TrimNotice(section, shown, cell.cost));
        left := running - (cell.cost - excerpt.value.tokens);
        cell.cost := excerpt.value.tokens;
      }
    }
  }

  /** Two listings in strict order with the same elements are the same listing. */
  lemma {:induction false} SameWhenInOrder(s: seq<Entry>, t: seq<Entry>)
    requires InOrder(s) && InOrder(t)
    requires forall e | e in s :: e in t
    requires forall e | e in t :: e in s
    ensures s == t
  {
    assert t != [] ==> t[0] in t;
    if s != [] {
      SameHeads(s, t);
      SameTails(s, t);
      SameTails(t, s);
      SameWhenInOrder(s[1..], t[1..]);
      assert s == [s[0]] + s[1..] && t == [t[0]] + t[1..];
    }
  }

  lemma SameHeads(s: seq<Entry>, t: seq<Entry>)
    requires InOrder(s) && InOrder(t) && s != []
    requires forall e | e in s :: e in t
    requires forall e | e in t :: e in s
    ensures t != [] && s[0] == t[0]
  {
    assert s[0] in t && t[0] in s;
    var i :| 0 <= i < |t| && t[i] == s[0];
    var j :| 0 <= j < |s| && s[j] == t[0];
    assert i == 0 && j == 0;
  }

  lemma SameTails(s: seq<Entry>, t: seq<Entry>)
    requires s != [] && t != [] && s[0] == t[0] && InOrder(s)
    requires forall e | e in s :: e in t
    ensures forall e | e in s[1..] :: e in t[1..]
  {
    forall e | e in s[1..] ensures e in t[1..] {
      var k :| 0 <= k < |s[1..]| && s[1..][k] == e;
      assert s[k + 1].order > s[0].order && e in s;
      assert t == [t[0]] + t[1..];
    }
  }

  lemma FitInOrder(entries: seq<Entry>, allocation: int, count: Counter)
    requires InOrder(entries)
    ensures InOrder(FitOf(entries, allocation, count).survivors)
  {
    hide OutcomesOf, Fair, FairlyDropped, FairlyShortened, LostIn;
    var kept := FitOf(entries, allocation, count).survivors;
    var orders := Map(OrderOf, kept);
    FitAccounts(entries, allocation, count);
    SortSorted(Remaining(Ranked(entries), OutcomesOf(entries, allocation, count)), ByOrder);
    forall i, j | 0 <= i < j < |kept| ensures orders[i] != orders[j] {
      if orders[i] == orders[j] {
        TwiceCounted(orders, i, j);
        SeparatePositions(Map(OrderOf, entries), orders[i]);
      }
    }
    SortedOrders(kept);
  }

  lemma {:induction false} UndroppedCells(cells: seq<Cell>)
    ensures forall c | c in Undropped(cells) :: c in cells && !c.dropped
    ensures forall c | c in cells && !c.dropped :: c in Undropped(cells)
  {
    if cells != [] {
      UndroppedCells(cells[1..]);
      assert cells == [cells[0]] + cells[1..];
    }
  }

  ghost predicate CellsInOrder(cells: seq<Cell>) {
    forall i, j | 0 <= i < j < |cells| :: cells[i].order < cells[j].order
  }

  lemma {:induction false} UndroppedInOrder(cells: seq<Cell>)
    requires CellsInOrder(cells)
    ensures CellsInOrder(Undropped(cells))
  {
    if cells != [] {
      var rest := Undropped(cells[1..]);
      UndroppedInOrder(cells[1..]);
      UndroppedCells(cells[1..]);
      forall i | 0 <= i < |rest| ensures cells[0].order < rest[i].order {
        assert rest[i] in cells[1..];
      }
    }
  }

  /** The cells not dropped, in the order they came, are the specification's survivors. */
  lemma SurvivorsMatch(cells: seq<Cell>, ranked: seq<(Entry, Cell)>, outcomes: seq<Outcome>)
    requires |outcomes| == |ranked| && Among(cells, ranked) && Progress(cells, ranked, outcomes, |ranked|)
    requires InOrder(Values(cells))
    requires forall c | c in cells :: exists p | p in ranked :: p.1 == c
    requires InOrder(Sort(Remaining(Map(First, ranked), outcomes), ByOrder))
    ensures Values(Undropped(cells)) == Sort(Remaining(Map(First, ranked), outcomes), ByOrder)
  {
    hide Remaining, After;
    var entries, survivors := Map(First, ranked), Undropped(cells);
    var left := Remaining(entries, outcomes);
    UndroppedCells(cells);
    forall i, j | 0 <= i < j < |cells| ensures cells[i].order < cells[j].order {
      assert Values(cells)[i].order < Values(cells)[j].order;
    }
    UndroppedInOrder(cells);
    SameElements(left, Sort(left, ByOrder));
    forall e | e in Values(survivors) ensures e in left {
      var i :| 0 <= i < |survivors| && Values(survivors)[i] == e;
      assert survivors[i] in survivors && survivors[i] in cells;
      var p :| p in ranked && p.1 == survivors[i];
      var j :| 0 <= j < |ranked| && ranked[j] == p;
      RemainingAt(entries, outcomes, j);
    }
    forall e | e in left ensures e in Values(survivors) {
      var j := RemainingFrom(entries, outcomes, e);
      assert ranked[j] in ranked && ranked[j].1 in survivors;
      var i :| 0 <= i < |survivors| && survivors[i] == ranked[j].1;
      assert Values(survivors)[i] == e;
    }
    SameWhenInOrder(Values(survivors), Sort(left, ByOrder));
  }

  lemma StepOutcome(ranked: seq<Entry>, running: int, allocation: int, count: Counter, outcomes: seq<Outcome>, k: nat)
    requires k < |ranked| == |outcomes| && GiveUp(ranked[k..], running, allocation, count) == outcomes[k..]
    ensures outcomes[k] == Judge(ranked[k], running, allocation, count)
    ensures GiveUp(ranked[k + 1..], running - ranked[k].cost + CostAfter(ranked[k], outcomes[k]), allocation, count)
            == outcomes[k + 1..]
    ensures Confessed(outcomes[..k]) + Confessed([outcomes[k]]) == Confessed(outcomes[..k + 1])
  {
    hide Judge, CostAfter, Confessed;
    ConfessedAppend(outcomes[..k], [outcomes[k]]);
    assert outcomes[..k + 1] == outcomes[..k] + [outcomes[k]];
    assert ranked[k..][1..] == ranked[k + 1..] && outcomes[k..][1..] == outcomes[k + 1..];
    assert outcomes[k..][0] == outcomes[k];
  }

  /** Once the band fits, everything still to be judged is kept. */
  lemma Finished(cells: seq<Cell>, ranked: seq<(Entry, Cell)>, outcomes: seq<Outcome>, entries: seq<Entry>,
                 running: int, allocation: int, count: Counter, k: nat)
    requires |ranked| == |outcomes| == |entries| && k <= |ranked| && Among(cells, ranked)
            && Progress(cells, ranked, outcomes, k)
    requires k < |ranked| ==> running <= allocation
    requires GiveUp(entries[k..], running, allocation, count) == outcomes[k..]
    ensures Progress(cells, ranked, outcomes, |ranked|)
    ensures Confessed(outcomes[..k]) == Confessed(outcomes)
  {
    if k < |ranked| {
      AffordedKept(entries[k..], running, allocation, count);
      forall j | k <= j < |ranked| ensures outcomes[j].Kept? {
        assert outcomes[j] == outcomes[k..][j - k];
      }
      NothingConfessed(outcomes[k..]);
    }
    ConfessedAppend(outcomes[..k], outcomes[k..]);
    assert outcomes == outcomes[..k] + outcomes[k..];
  }

  lemma Started(cells: seq<Cell>, ranked: seq<(Entry, Cell)>, outcomes: seq<Outcome>)
    requires |ranked| == |outcomes| && Among(cells, ranked)
    requires forall p | p in ranked :: p.1.Now() == p.0 && !p.1.dropped
    ensures Progress(cells, ranked, outcomes, 0)
    ensures Confessed(outcomes[..0]) == []
  {
  }

  /** The loop's body: the next cell in the ranking meets its outcome, and no other cell is touched. */
  method GiveUpNext(cells: seq<Cell>, ranked: seq<(Entry, Cell)>, ghost outcomes: seq<Outcome>, k: nat,
                    running: int, allocation: int, count: Counter) returns (left: int, confessed: seq<string>)
    requires k < |ranked| == |outcomes| && Among(cells, ranked) && Progress(cells, ranked, outcomes, k)
    requires forall i, j | 0 <= i < j < |ranked| :: ranked[i].1 != ranked[j].1
    requires running > allocation && outcomes[k] == Judge(ranked[k].0, running, allocation, count)
    modifies cells
    ensures Progress(cells, ranked, outcomes, k + 1)
    ensures left == running - ranked[k].0.cost + CostAfter(ranked[k].0, outcomes[k])
    ensures confessed == Confessed([outcomes[k]])
    ensures forall c | c in cells :: c.section.band == old(c.section.band)
  {
    hide Judge, After, CostAfter, Confessed;
    left, confessed := GiveUpOne(ranked[k].1, running, allocation, count);
    assert forall j | 0 <= j < |ranked| && j != k ::
      ranked[j].1.Now() == old(ranked[j].1.Now()) && ranked[j].1.dropped == old(ranked[j].1.dropped);
  }

  /** The loop over the give-up order, until the running total fits. */
  method GiveUpInOrder(cells: seq<Cell>, ranked: seq<(Entry, Cell)>, total: int, allocation: int, count: Counter)
      returns (notices: seq<string>)
    requires forall p | p in ranked :: p.1.Now() == p.0 && !p.1.dropped
    requires forall i, j | 0 <= i < j < |ranked| :: ranked[i].1 != ranked[j].1
    requires Among(cells, ranked)
    modifies cells
    ensures Progress(cells, ranked, GiveUp(Map(First, ranked), total, allocation, count), |ranked|)
    ensures notices == Confessed(GiveUp(Map(First, ranked), total, allocation, count))
    ensures forall c | c in cells :: c.section.band == old(c.section.band)
  {
    hide Judge, After, CostAfter, GiveUp, Progress, Confessed, Map;
    ghost var order := Map(First, ranked);
    ghost var outcomes := GiveUp(order, total, allocation, count);
    var running := total;
    notices := [];
    var k := 0;
    Started(cells, ranked, outcomes);
    assert order[0..] == order && outcomes[0..] == outcomes;
    while k < |ranked|
      invariant 0 <= k <= |ranked| == |outcomes| == |order|
      invariant Progress(cells, ranked, outcomes, k)
      invariant GiveUp(order[k..], running, allocation, count) == outcomes[k..]
      invariant notices == Confessed(outcomes[..k])
      invariant forall c | c in cells :: c.section.band == old(c.section.band)
    {
      if running <= allocation {
        break;
      }
      StepOutcome(order, running, allocation, count, outcomes, k);
      var left, confessed := GiveUpNext(cells, ranked, outcomes, k, running, allocation, count);
      running, notices := left, notices + confessed;
      k := k + 1;
    }
    Finished(cells, ranked, outcomes, order, running, allocation, count, k);
  }

  /** One band's cells updated in place; what survives, its total and its notices are those of `FitOf`. */
  method Fit(cells: seq<Cell>, allocation: int, count: Counter)
    returns (survivors: seq<Cell>, total: nat, notices: seq<string>)
    requires Distinct(cells) && InOrder(Values(cells)) && forall c | c in cells :: !c.dropped
    modifies cells
    ensures Values(survivors) == FitOf(old(Values(cells)), allocation, count).survivors
    ensures total == FitOf(old(Values(cells)), allocation, count).total
    ensures notices == FitOf(old(Values(cells)), allocation, count).notices
    ensures forall c | c in cells :: c.section.band == old(c.section.band)
    ensures forall c | c in survivors :: c in cells
  {
    hide GiveUp, Progress, Confessed, Sort, Remaining, Total, Before;
    ghost var entries := Values(cells);
    var ranked := Sort(Paired(cells), Before);
    RankedPairs(cells);
    notices := GiveUpInOrder(cells, ranked, Total(Values(cells)), allocation, count);
    survivors := Undropped(cells);
    total := Total(Values(survivors));
    FitInOrder(entries, allocation, count);
    UndroppedCells(cells);
    SurvivorsMatch(cells, ranked, OutcomesOf(entries, allocation, count));
  }

  // ------------------------------------------------------------ all the bands

  lemma ValuesCons(cell: Cell, rest: seq<Cell>)
    ensures Values([cell] + rest) == [cell.Now()] + Values(rest)
  {
  }

  lemma {:induction false} CellsInBand(cells: seq<Cell>, band: Band)
    ensures Values(CellsIn(cells, band)) == InBand(Values(cells), band)
    ensures forall c | c in CellsIn(cells, band) :: c in cells && c.section.band == band
  {
    hide Values;
    if cells == [] {
      assert Values(cells) == [];
    } else {
      CellsInBand(cells[1..], band);
      assert cells == [cells[0]] + cells[1..];
      ValuesCons(cells[0], cells[1..]);
      FilterCons(IsIn(band), cells[0].Now(), Values(cells[1..]));
      ValuesCons(cells[0], CellsIn(cells[1..], band));
      assert [] + InBand(Values(cells[1..]), band) == InBand(Values(cells[1..]), band);
    }
  }

  lemma {:induction false} CellsInInOrder(cells: seq<Cell>, band: Band)
    requires CellsInOrder(cells)
    ensures CellsInOrder(CellsIn(cells, band))
  {
    if cells != [] {
      var rest := CellsIn(cells[1..], band);
      CellsInInOrder(cells[1..], band);
      CellsInBand(cells[1..], band);
      forall i | 0 <= i < |rest| ensures cells[0].order < rest[i].order {
        assert rest[i] in cells[1..];
      }
    }
  }

  method Number(checked: seq<Placed>, count: Counter) returns (cells: seq<Cell>)
    ensures Values(cells) == NumberFrom(checked, 0, count)
    ensures fresh(cells) && forall c | c in cells :: !c.dropped
  {
    cells := [];
    for i := 0 to |checked|
      invariant |cells| == i
      invariant forall j | 0 <= j < i :: fresh(cells[j]) && !cells[j].dropped
                                       && cells[j].Now() == Entry(j, checked[j], count(checked[j].body))
    {
      var cell := new Cell(i, checked[i], count(checked[i].body));
      cells := cells + [cell];
    }
  }

  lemma {:induction false} BandsSnoc(entries: seq<Entry>, bands: seq<Band>, band: Band, budget: Budget, count: Counter)
    ensures SurvivorsOf(entries, bands + [band], budget, count)
            == SurvivorsOf(entries, bands, budget, count) + FitBand(entries, band, budget, count).survivors
    ensures NoticesOf(entries, bands + [band], budget, count)
            == NoticesOf(entries, bands, budget, count) + FitBand(entries, band, budget, count).notices
    ensures SpentOn(entries, bands + [band], budget, count)
            == SpentOn(entries, bands, budget, count) + FitBand(entries, band, budget, count).total
  {
    hide FitBand;
    if bands == [] {
      assert [] + [band] == [band] && [band][1..] == [];
    } else {
      BandsSnoc(entries, bands[1..], band, budget, count);
      assert (bands + [band])[0] == bands[0] && (bands + [band])[1..] == bands[1..] + [band];
    }
  }

  /** The state between two bands: bands done are final, bands to come are untouched. */
  ghost predicate Untouched(cells: seq<Cell>, entries: seq<Entry>, done: seq<Band>)
    reads cells
  {
    && |cells| == |entries| && CellsInOrder(cells)
    && forall i | 0 <= i < |cells| ::
         && cells[i].section.band == entries[i].section.band
         && (entries[i].section.band !in done ==> cells[i].Now() == entries[i] && !cells[i].dropped)
  }

  lemma BandUntouched(cells: seq<Cell>, entries: seq<Entry>, done: seq<Band>, band: Band)
    requires Untouched(cells, entries, done) && band !in done
    ensures Values(CellsIn(cells, band)) == InBand(entries, band)
    ensures forall c | c in CellsIn(cells, band) :: c in cells && c.section.band == band && !c.dropped
    ensures Distinct(CellsIn(cells, band)) && InOrder(Values(CellsIn(cells, band)))
  {
    CellsInBand(cells, band);
    CellsInInOrder(cells, band);
    SameBand(Values(cells), entries, band);
    forall c | c in CellsIn(cells, band) ensures !c.dropped {
      var i :| 0 <= i < |cells| && cells[i] == c;
    }
  }

  lemma {:induction false} SameBand(es: seq<Entry>, fs: seq<Entry>, band: Band)
    requires |es| == |fs|
    requires forall i | 0 <= i < |es| :: es[i].section.band == fs[i].section.band
    requires forall i | 0 <= i < |es| && es[i].section.band == band :: es[i] == fs[i]
    ensures InBand(es, band) == InBand(fs, band)
  {
    if es != [] {
      SameBand(es[1..], fs[1..], band);
    }
  }

  /** Fitting one band leaves every other band's cells as they were. */
  method FitNext(cells: seq<Cell>, ghost entries: seq<Entry>, ghost done: seq<Band>, band: Band,
                 ghost survivors: seq<Cell>, budget: Budget, count: Counter)
    returns (kept: seq<Cell>, spent: nat, dropped: seq<string>)
    requires Untouched(cells, entries, done) && band !in done
    requires forall c | c in survivors :: c in cells && c.section.band in done
    modifies cells
    ensures Untouched(cells, entries, done + [band])
    ensures Values(survivors) == old(Values(survivors))
    ensures forall c | c in survivors + kept :: c in cells && c.section.band in done + [band]
    ensures Values(kept) == FitBand(entries, band, budget, count).survivors
    ensures spent == FitBand(entries, band, budget, count).total
    ensures dropped == FitBand(entries, band, budget, count).notices
  {
    hide FitOf, Ceiling, InBand, CellsIn;
    BandUntouched(cells, entries, done, band);
    var inBand := CellsIn(cells, band);
    kept, spent, dropped := Fit(inBand, Ceiling(budget, band), count);
    assert forall c | c in cells :: c.section.band == old(c.section.band);
    assert forall c | c in cells && old(c.section.band) != band ::
        c.Now() == old(c.Now()) && c.dropped == old(c.dropped);
    forall i | 0 <= i < |cells|
      ensures cells[i].section.band == entries[i].section.band
      ensures entries[i].section.band !in done + [band] ==> cells[i].Now() == entries[i] && !cells[i].dropped
    {
      assert cells[i] in cells && band in done + [band];
    }
  }

  lemma ValuesAppend(a: seq<Cell>, b: seq<Cell>)
    ensures Values(a + b) == Values(a) + Values(b)
  {
  }

  ghost function SpentBy(entries: seq<Entry>, bands: seq<Band>, budget: Budget, count: Counter): map<Band, nat> {
    map band | band in bands :: FitBand(entries, band, budget, count).total
  }

  lemma SpentStep(entries: seq<Entry>, done: seq<Band>, band: Band, budget: Budget, count: Counter,
                  byBand: map<Band, nat>, spent: nat)
    requires byBand == SpentBy(entries, done, budget, count) && spent == FitBand(entries, band, budget, count).total
    ensures byBand[band := spent] == SpentBy(entries, done + [band], budget, count)
  {
    hide FitBand;
  }

  /** The loop over the bands: no pass looks at another band's cells. */
  method FitBands(cells: seq<Cell>, ghost entries: seq<Entry>, budget: Budget, count: Counter)
    returns (survivors: seq<Cell>, notices: seq<string>, byBand: map<Band, nat>)
    requires Values(cells) == entries && InOrder(entries) && forall c | c in cells :: !c.dropped
    modifies cells
    ensures Values(survivors) == SurvivorsOf(entries, WRITABLE_BANDS, budget, count)
    ensures notices == NoticesOf(entries, WRITABLE_BANDS, budget, count)
    ensures byBand == SpentBy(entries, WRITABLE_BANDS, budget, count)
  {
    hide FitBand, SurvivorsOf, NoticesOf, SpentOn, Untouched, InOrder, Values;
    survivors, notices, byBand := [], [], map[];
    NoBands(entries, budget, count);
    StartUntouched(cells, entries);
    for k := 0 to |WRITABLE_BANDS|
      invariant Untouched(cells, entries, WRITABLE_BANDS[..k])
      invariant forall c | c in survivors :: c in cells && c.section.band in WRITABLE_BANDS[..k]
      invariant Values(survivors) == SurvivorsOf(entries, WRITABLE_BANDS[..k], budget, count)
      invariant notices == NoticesOf(entries, WRITABLE_BANDS[..k], budget, count)
      invariant byBand == SpentBy(entries, WRITABLE_BANDS[..k], budget, count)
    {
      var band := WRITABLE_BANDS[k];
      assert WRITABLE_BANDS[..k + 1] == WRITABLE_BANDS[..k] + [band];
      BandsSnoc(entries, WRITABLE_BANDS[..k], band, budget, count);
      var kept, spent, dropped := FitNext(cells, entries, WRITABLE_BANDS[..k], band, survivors, budget, count);
      SpentStep(entries, WRITABLE_BANDS[..k], band, budget, count, byBand, spent);
      ValuesAppend(survivors, kept);
      survivors := survivors + kept;
      notices := notices + dropped;
      byBand := byBand[band := spent];
    }
    assert WRITABLE_BANDS[..|WRITABLE_BANDS|] == WRITABLE_BANDS;
  }

  lemma StartUntouched(cells: seq<Cell>, entries: seq<Entry>)
    requires Values(cells) == entries && InOrder(entries) && forall c | c in cells :: !c.dropped
    ensures Untouched(cells, entries, WRITABLE_BANDS[..0])
  {
    forall i, j | 0 <= i < j < |cells| ensures cells[i].order < cells[j].order {
      assert entries[i].order < entries[j].order;
    }
  }

  /** Fit sections into a budget, one band at a time, confessing every loss. */
  method Allocate(sections: seq<Section<string>>, budget: Budget, count: Counter)
        returns (r: Result<Assembled, Refusal>)
    ensures r == AllocateOf(sections, budget, count)
  {
    hide FitBand, SurvivorsOf, NoticesOf, SpentOn, Sort, Map;
    var checking := CheckAll(sections);
    if checking.Err? {
      return Err(checking.error);
    }
    ghost var entries := NumberFrom(checking.value, 0, count);
    var cells := Number(checking.value, count);
    var survivors, notices, byBand := FitBands(cells, entries, budget, count);
    var total := AddUp(byBand, entries, budget, count);
    var sorted := Sort(Paired(survivors), Earlier);
    SortedPairs(survivors);
    r := Ok(Assembled(Map(RecountedFirst, sorted), byBand, total, notices));
  }

  /** `sum(by_band.values())`: the dictionary holds each writable band once. */
  method AddUp(byBand: map<Band, nat>, ghost entries: seq<Entry>, ghost budget: Budget, ghost count: Counter)
        returns (total: nat)
    requires byBand == SpentBy(entries, WRITABLE_BANDS, budget, count)
    ensures total == SpentOn(entries, WRITABLE_BANDS, budget, count)
  {
    hide FitBand;
    total := 0;
    for k := 0 to |WRITABLE_BANDS|
      invariant total == SpentOn(entries, WRITABLE_BANDS[..k], budget, count)
    {
      var band := WRITABLE_BANDS[k];
      assert WRITABLE_BANDS[..k + 1] == WRITABLE_BANDS[..k] + [band];
      BandsSnoc(entries, WRITABLE_BANDS[..k], band, budget, count);
      total := total + byBand[band];
    }
    assert WRITABLE_BANDS[..|WRITABLE_BANDS|] == WRITABLE_BANDS;
  }

  lemma NoBands(entries: seq<Entry>, budget: Budget, count: Counter)
    ensures SurvivorsOf(entries, WRITABLE_BANDS[..0], budget, count) == []
    ensures NoticesOf(entries, WRITABLE_BANDS[..0], budget, count) == []
  {
  }

  function Earlier(p: (Entry, Cell), q: (Entry, Cell)): bool { ByOrder(p.0, q.0) }

  function RecountedFirst(p: (Entry, Cell)): Placed { Recounted(p.0) }

  lemma SortedPairs(cells: seq<Cell>)
    ensures Map(RecountedFirst, Sort(Paired(cells), Earlier)) == Map(Recounted, Sort(Values(cells), ByOrder))
  {
    var pairs := Paired(cells);
    assert Map(First, pairs) == Values(cells);
    SortMap(pairs, First, Earlier, ByOrder);
    hide Map, Sort;
    var sorted := Sort(pairs, Earlier);
    assert Map(RecountedFirst, sorted) == Map(Recounted, Map(First, sorted));
  }
}
