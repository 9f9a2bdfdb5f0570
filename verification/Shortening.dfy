/** What can be shortened is shortened: how much of a section the default counter keeps. */
module Shortening {
  import opened Text
  import opened Numbers
  import opened Sorting
  import opened Bands
  import opened BandsProofs
  import opened Tokens

  // ------------------------------------------------------------ what a cut keeps of its budget

  /** A head is the whole budget, or ends at the last line break that leaves at least half of it. */
  lemma HeadExactly(text: string, chars: nat)
    requires chars <= |text|
    ensures var h, least := Head(text, chars), if chars < 2 then 1 else chars / 2;
            && |h| <= chars && h == text[..|h|]
            && (|h| < chars ==> |h| >= least && text[|h|] == '\n')
            && (forall k | |h| < k < chars :: text[k] != '\n')
            && (|h| == chars ==> forall k | least <= k < chars :: text[k] != '\n')
  {
    var fragment := text[..chars];
    var boundary := LastIndex(fragment, '\n');
    forall k | boundary < k < chars ensures text[k] != '\n' { assert text[k] == fragment[k]; }
    if boundary >= 0 { assert text[boundary] == fragment[boundary]; }
  }

  /** A tail is the whole budget, or starts after the first line break that leaves at least half of it. */
  lemma TailExactly(text: string, chars: nat)
    requires chars <= |text|
    ensures var t, least := Tail(text, chars), if chars < 2 then 1 else chars / 2;
            && |t| <= chars && t == text[|text| - |t|..]
            && (|t| < chars ==> |t| >= least && text[|text| - |t| - 1] == '\n')
            && (forall k | |text| - chars <= k < |text| - |t| - 1 :: text[k] != '\n')
            && (|t| == chars ==> forall k | |text| - chars <= k < |text| - least :: text[k] != '\n')
  {
    var fragment, from := text[|text| - chars..], |text| - chars;
    var boundary := FirstIndex(fragment, '\n');
    hide FirstIndex;
    BreakAt(text, from, fragment, boundary);
    if boundary >= 0 { assert fragment[boundary + 1..] == text[from + boundary + 1..]; }
  }

  lemma BreakAt(text: string, from: nat, fragment: string, boundary: int)
    requires from <= |text| && fragment == text[from..] && -1 <= boundary < |fragment|
    requires boundary >= 0 ==> fragment[boundary] == '\n' && '\n' !in fragment[..boundary]
    requires boundary < 0 ==> '\n' !in fragment
    ensures forall k | from <= k < from + (if boundary < 0 then |fragment| else boundary) :: text[k] != '\n'
    ensures boundary >= 0 ==> text[from + boundary] == '\n'
  {
    forall k | from <= k < from + (if boundary < 0 then |fragment| else boundary) ensures text[k] != '\n' {
      var before := if boundary < 0 then fragment else fragment[..boundary];
      assert before[k - from] == text[k];
    }
  }

  /**
   * Below 160 characters all of the budget is the head's; from there on it has three fifths and the tail the rest.
   * Each keeps at least half of its share, and all of it where there is no line break.
   */
  lemma FragmentShares(text: string, chars: nat)
    requires chars <= |text|
    ensures var (h, t) := Fragments(text, chars);
            var share := if chars < 160 then chars else chars * 3 / 5;
            && share / 2 <= |h| <= share && (chars - share) / 2 <= |t| <= chars - share
            && h == text[..|h|] && t == text[|text| - |t|..]
            && ('\n' !in text ==> |h| == share && |t| == chars - share)
            && (chars > 0 ==> |h| >= 1) && (chars >= 160 ==> |t| >= 1)
  {
    hide Head, Tail;
    if chars > 0 {
      var share := if chars < 160 then chars else chars * 3 / 5;
      HeadExactly(text, share);
      TailExactly(text, chars - share);
    }
  }

  // ------------------------------------------------------------ what the excerpt costs

  /** How long the elision's line may be, when it names no more than the original. */
  function Elision(original: nat): nat { 29 + 2 * |Grouped(original)| }

  lemma MarkerLength(shown: nat, original: nat)
    requires shown <= original
    ensures |Marker(shown, original)| <= Elision(original)
  {
    GroupedWider(shown, original);
  }

  lemma TwoLines(head: string, tail: string)
    requires head != ""
    ensures Lines([head, tail]) == if tail == "" then head else head + "\n" + tail
  {
    assert [head, tail][1..] == [tail] && [tail][1..] == [];
    assert Filter(NonEmpty, [tail]) == if tail == "" then [] else [tail];
    if tail != "" { JoinCons(head, [tail], "\n"); }
  }

  lemma ThreeLines(head: string, mark: string, tail: string)
    requires head != "" && mark != ""
    ensures Lines([head, mark, tail]) == head + "\n" + (if tail == "" then mark else mark + "\n" + tail)
  {
    assert [head, mark, tail][1..] == [mark, tail];
    TwoLines(mark, tail);
    var kept := Filter(NonEmpty, [mark, tail]);
    assert Filter(NonEmpty, [tail]) == if tail == "" then [] else [tail];
    assert [mark, tail][1..] == [tail];
    assert Filter(NonEmpty, [head, mark, tail]) == [head] + kept;
    JoinCons(head, kept, "\n");
  }

  /** What an excerpt of `chars` characters shows and costs, on either side. */
  lemma TriedCosts(text: string, original: nat, chars: nat)
    requires 0 < chars <= |text| && (chars + 4) / 4 <= original
    ensures var (head, tail) := Fragments(text, chars);
            var x := Excerpted(head, tail, original, Estimate);
            && 8 * x.shown >= chars - 1 && ('\n' !in text ==> 4 * x.shown >= chars)
            && x.shown <= original && 4 * x.tokens <= chars + Elision(original) + 5
  {
    hide Fragments, Lines, Marker;
    var (head, tail) := Fragments(text, chars);
    FragmentShares(text, chars);
    TwoLines(head, tail);
    var shown := Estimate(Lines([head, tail]));
    assert |Lines([head, tail])| <= chars + 1;
    assert shown <= original;
    MarkerLength(shown, original);
    assert Marker(shown, original) != "" by { MarkerStarts(shown, original); }
    ThreeLines(head, Marker(shown, original), tail);
  }

  lemma MarkerStarts(shown: nat, original: nat)
    ensures Marker(shown, original) != ""
  {
  }

  // ------------------------------------------------------------ the search for a length that fits

  /** Where the search starts: within three characters of what the allowance buys, and short of the whole text. */
  lemma GuessIsRoomy(text: string, original: nat, allowance: nat)
    requires 0 < allowance < original == Estimate(text)
    ensures 4 * allowance - 3 <= FirstGuess(text, original, allowance) <= 4 * allowance
  {
    var n := |text|;
    assert 4 * original - 3 <= n <= 4 * original;
    Bought(allowance, n, original);
  }

  lemma Bought(a: nat, n: nat, d: nat)
    requires 0 < a < d && 4 * d - 3 <= n <= 4 * d
    ensures 4 * a - 3 <= a * n / d <= 4 * a
  {
    assert a * n >= a * (4 * d - 3) == (4 * a - 3) * d + 3 * (d - a);
    assert a * n <= a * (4 * d) == (4 * a) * d;
    Quotient(a * n, 4 * a - 3, d);
    QuotientAtMost(a * n, 4 * a, d);
  }

  lemma QuotientAtMost(m: int, q: int, d: nat)
    requires d > 0 && m <= q * d
    ensures m / d <= q
  {
    var k := m / d;
    assert m == k * d + m % d;
    assert k > q ==> (k - q - 1) * d >= 0;
  }

  lemma Quotient(m: int, q: int, d: nat)
    requires d > 0 && m >= q * d
    ensures m / d >= q
  {
    var k := m / d;
    assert m == k * d + m % d;
    assert k < q ==> (q - k - 1) * d >= 0;
  }

  /** What was too long by little is cut by little: the next length is at most five short of the room there was. */
  lemma NextIsRoomy(chars: nat, a: nat, tokens: nat, e: nat)
    requires 0 < a < tokens && 4 * tokens <= chars + e + 5 && chars > 0
    ensures NextGuess(chars, a, tokens) >= 4 * a - e - 6
  {
    var room := 4 * a - e - 6;
    if room > 0 {
      assert chars >= 4 * a - e - 1;
      assert 4 * (chars * a) >= room * (chars + e + 5) by { Crossed(chars, a, e); }
      assert room * (4 * tokens) <= room * (chars + e + 5);
      assert 4 * (room * tokens) == room * (4 * tokens);
      Quotient(chars * a, room, tokens);
    }
  }

  lemma Crossed(chars: nat, a: nat, e: nat)
    requires chars >= 4 * a - e - 1 > 0
    ensures 4 * (chars * a) >= (4 * a - e - 6) * (chars + e + 5)
  {
    var over := chars - (4 * a - e - 1);
    calc {
      4 * (chars * a) - (4 * a - e - 6) * (chars + e + 5);
      (e + 6) * (chars + e + 5) - 4 * a * (e + 5);
      (e + 6) * (4 * a + 4) + (e + 6) * over - 4 * a * (e + 5);
      4 * a + 4 * (e + 6) + (e + 6) * over;
    }
    assert (e + 6) * over >= 0;
  }

  lemma {:induction false} ShrinkIsRoomy(text: string, original: nat, allowance: nat, chars: nat)
    requires 0 < allowance < original && chars <= |text| && chars <= 4 * allowance
    requires chars >= 4 * allowance - Elision(original) - 6
    ensures var r := Shrink(text, original, allowance, Estimate, chars);
            r.Some? ==> && 8 * r.value.shown >= 4 * allowance - Elision(original) - 7
                        && ('\n' !in text ==> 4 * r.value.shown >= 4 * allowance - Elision(original) - 6)
    decreases chars
  {
    hide Fragments, Excerpted, Elision, NextGuess;
    if chars > 0 {
      TriedCosts(text, original, chars);
      var (head, tail) := Fragments(text, chars);
      var tried := Excerpted(head, tail, original, Estimate);
      if tried.tokens > allowance {
        NextIsRoomy(chars, allowance, tried.tokens, Elision(original));
        ShrinkIsRoomy(text, original, allowance, NextGuess(chars, allowance, tried.tokens));
      }
    }
  }

  /** An excerpt of the marker alone. */
  function Bare(original: nat): string { "[... showing 0 of " + Grouped(original) + " tokens ...]" }

  lemma BareIsMarker(original: nat)
    ensures Marker(0, original) == Bare(original) && Lines(["", Bare(original), ""]) == Bare(original)
    ensures Lines(["", ""]) == ""
  {
    hide Grouped;
    GroupedReads(0);
    assert "[... showing " + "0" + " of " == "[... showing 0 of ";
    var mark := Bare(original);
    assert ["", ""][1..] == [""] && [""][1..] == [] && ["", mark, ""][1..] == [mark, ""] && [mark, ""][1..] == [""];
    assert Filter(NonEmpty, [""]) == [] && Filter(NonEmpty, [mark, ""]) == [mark];
  }

  lemma BareIsCheapest(text: string, original: nat, chars: nat, count: Counter)
    requires ByLength(count) && chars <= |text|
    ensures var (head, tail) := Fragments(text, chars);
            count(Bare(original)) <= Excerpted(head, tail, original, count).tokens
  {
    hide Fragments, Lines, Grouped;
    BareIsMarker(original);
    var (head, tail) := Fragments(text, chars);
    FragmentShares(text, chars);
    var shown := count(Lines([head, tail]));
    if chars > 0 {
      MarkerStarts(shown, original);
      ThreeLines(head, Marker(shown, original), tail);
      GroupedWider(0, shown);
    } else {
      NoFragments(text);
      assert |Bare(original)| <= |Marker(shown, original)| by { GroupedWider(0, shown); }
      BareLine(Marker(shown, original));
    }
  }

  lemma NoFragments(text: string)
    ensures Fragments(text, 0) == ("", "")
  {
  }

  lemma BareLine(mark: string)
    requires mark != ""
    ensures Lines(["", mark, ""]) == mark
  {
    assert [""][1..] == [] && ["", mark, ""][1..] == [mark, ""] && [mark, ""][1..] == [""];
    assert Filter(NonEmpty, [""]) == [] && Filter(NonEmpty, [mark, ""]) == [mark];
  }

  lemma {:induction false} ShrinkNeedsBare(text: string, original: nat, allowance: int, count: Counter, chars: nat)
    requires ByLength(count) && chars <= |text| && (chars > 0 ==> allowance > 0)
    requires Shrink(text, original, allowance, count, chars).Some?
    ensures count(Bare(original)) <= allowance
    decreases chars
  {
    hide Fragments, Excerpted, Bare, ByLength;
    BareIsCheapest(text, original, chars, count);
    var (head, tail) := Fragments(text, chars);
    var tried := Excerpted(head, tail, original, count);
    if tried.tokens > allowance && chars > 0 {
      ShrinkNeedsBare(text, original, allowance, count, NextGuess(chars, allowance, tried.tokens));
    }
  }

  // ------------------------------------------------------------ what is kept

  /**
   * With the default counter a text too long for its allowance is given up whole only when the bare marker does not
   * fit, and what is shown of it is half the allowance at least, less the marker; all but seven characters of the
   * allowance, less the marker, where no line break is in the way.
   */
  lemma ShortensGenerously(text: string, allowance: int)
    requires 0 < allowance < Estimate(text)
    ensures var original := Estimate(text);
            var r := ExcerptOf(text, original, allowance, Estimate);
            && (r.Some? <==> Estimate("[... showing 0 of " + Grouped(original) + " tokens ...]") <= allowance)
            && (r.Some? ==> 8 * r.value.shown >= 4 * allowance - (29 + 2 * |Grouped(original)|) - 7)
            && (r.Some? && '\n' !in text ==>
                  4 * r.value.shown >= 4 * allowance - (29 + 2 * |Grouped(original)|) - 6)
  {
    hide Shrink, FirstGuess, Excerpted, Estimate, Grouped;
    var original := Estimate(text);
    var r, start := ExcerptOf(text, original, allowance, Estimate), FirstGuess(text, original, allowance);
    GuessIsRoomy(text, original, allowance);
    EstimateByLength();
    ShrinkIsRoomy(text, original, allowance, start);
    ExcerptSound(text, original, allowance, Estimate);
    NothingShown(original);
    if r.Some? { ShrinkNeedsBare(text, original, allowance, Estimate, start); }
  }

  lemma NothingShown(original: nat)
    ensures Excerpted("", "", original, Estimate).tokens == Estimate(Bare(original))
  {
    BareIsMarker(original);
    assert Estimate("") == 0;
  }

  /** Room for the marker and for twice the floor, or for the floor alone where no line break is in the way. */
  predicate Roomy(body: string, floorTokens: int, cost: nat, allowance: int) {
    var room, floor := 4 * allowance - (29 + 2 * |Grouped(cost)|), Max(floorTokens, 1);
    8 * floor <= room - 7 || ('\n' !in body && 4 * floor <= room - 6)
  }

  lemma RoomyShows(s: Placed, allowance: int)
    requires 0 < allowance < Estimate(s.body) && Roomy(s.body, s.floorTokens, Estimate(s.body), allowance)
    ensures var r := ExcerptOf(s.body, Estimate(s.body), allowance, Estimate);
            r.Some? && r.value.shown >= Floor(s)
  {
    hide ExcerptOf, Grouped;
    ShortensGenerously(s.body, allowance);
    var g := Grouped(Estimate(s.body));
    assert |"[... showing 0 of " + g + " tokens ...]"| == 30 + |g|;
  }

  /** A section with that much room is shortened when its turn comes, and not dropped. */
  lemma ShortenedNotDropped(e: Entry, total: int, allocation: int)
    requires e.cost == Estimate(e.section.body) && total > allocation
    requires e.cost > total - allocation
    requires Roomy(e.section.body, e.section.floorTokens, e.cost, e.cost - (total - allocation))
    ensures var o := Judge(e, total, allocation, Estimate);
            && o.Shortened? && o.cost <= e.cost - (total - allocation)
            && o.section.id == e.section.id && o.section.truncated && o.section.tokens == o.cost
            && FairlyShortened(e, o.section, o.cost, Estimate)
  {
    hide Roomy, ExcerptOf, FairlyShortened, ExcerptOfText, Estimate;
    RoomyShows(e.section, e.cost - (total - allocation));
    JudgeFair(e, total, allocation, Estimate);
  }

  // ------------------------------------------------------------ one section through the allocator

  lemma FitNothing(allocation: int, count: Counter)
    ensures FitOf([], allocation, count) == Fitted([], 0, [])
  {
  }

  lemma FitOne(e: Entry, allocation: int, count: Counter)
    ensures var o := Judge(e, e.cost, allocation, count);
            FitOf([e], allocation, count) == if o.Dropped? then Fitted([], 0, [o.notice])
                                             else Fitted([After(e, o)], After(e, o).cost, [])
  {
    hide Judge;
    var o := Judge(e, e.cost, allocation, count);
    assert [e][1..] == [];
    assert Sort([e], GivenUpBefore) == [e] && Total([e]) == e.cost;
    assert GiveUp([e], e.cost, allocation, count) == [o];
    assert [o][1..] == [];
    assert Remaining([e], [o]) == if o.Dropped? then [] else [After(e, o)];
    assert Confessed([o]) == if o.Dropped? then [o.notice] else [];
    if !o.Dropped? { assert [After(e, o)][1..] == [] && Sort([After(e, o)], ByOrder) == [After(e, o)]; }
  }

  lemma BandOfOne(e: Entry, band: Band, budget: Budget, count: Counter)
    ensures FitBand([e], band, budget, count)
            == if band == e.section.band then FitOf([e], Ceiling(budget, band), count) else Fitted([], 0, [])
  {
    hide FitOf, Ceiling;
    FitNothing(Ceiling(budget, band), count);
    assert [e][1..] == [];
    assert InBand([e], band) == if band == e.section.band then [e] else [];
  }

  lemma {:induction false} BandsOfOne(e: Entry, bands: seq<Band>, budget: Budget, count: Counter)
    requires forall i, j | 0 <= i < j < |bands| :: bands[i] != bands[j]
    ensures var fitted := FitOf([e], Ceiling(budget, e.section.band), count);
            if e.section.band in bands then
              SurvivorsOf([e], bands, budget, count) == fitted.survivors
              && NoticesOf([e], bands, budget, count) == fitted.notices
            else SurvivorsOf([e], bands, budget, count) == [] && NoticesOf([e], bands, budget, count) == []
  {
    hide FitOf, Ceiling, FitBand;
    if bands != [] {
      BandOfOne(e, bands[0], budget, count);
      BandsOfOne(e, bands[1..], budget, count);
      assert bands == [bands[0]] + bands[1..];
    }
  }

  function PlacedIn(s: Section<string>, band: Band): Placed {
    Section(s.id, band, s.body, s.tokens, s.priority, s.floorTokens, s.title, s.truncated, s.notice)
  }

  lemma CheckOne(s: Section<string>, band: Band)
    requires BandNamed(s.band) == Some(band) && band != Reserve
    ensures CheckAll([s]) == Ok([PlacedIn(s, band)])
  {
    hide BandNamed;
    assert [s][1..] == [];
    assert CheckAll([]) == Ok([]) && Checked([s][0]) == Ok(PlacedIn(s, band));
    var r := CheckAll([s]);
    assert r.Ok? && r.value == [r.value[0]];
  }

  lemma NumberOne(s: Placed, count: Counter)
    ensures NumberFrom([s], 0, count) == [Entry(0, s, count(s.body))]
  {
  }

  /** The whole allocation of one section is one verdict. */
  lemma AssembleOne(s: Placed, budget: Budget, count: Counter)
    requires s.band != Reserve
    ensures var e := Entry(0, s, count(s.body));
            var o, a := Judge(e, e.cost, Ceiling(budget, s.band), count), AssembledOf([s], budget, count);
            && a.sections == (if o.Dropped? then [] else [Recounted(After(e, o))])
            && a.notices == (if o.Dropped? then [o.notice] else [])
  {
    hide Ceiling, FitOf, Judge, SurvivorsOf, NoticesOf, FitBand;
    var e := Entry(0, s, count(s.body));
    NumberOne(s, count);
    FitOne(e, Ceiling(budget, s.band), count);
    BandsOfOne(e, WRITABLE_BANDS, budget, count);
    var out := After(e, Judge(e, e.cost, Ceiling(budget, s.band), count));
    assert [out][1..] == [] && Sort([out], ByOrder) == [out] && Map(Recounted, [out]) == [Recounted(out)];
  }

  /** A single section too long for its band's ceiling, with that much room, comes out shortened and confessed. */
  lemma LongSectionIsShortened(s: Section<string>, band: Band, budget: Budget)
    requires BandNamed(s.band) == Some(band) && band != Reserve
    requires 0 < Ceiling(budget, band) < Estimate(s.body)
    requires Roomy(s.body, s.floorTokens, Estimate(s.body), Ceiling(budget, band))
    ensures var r := AllocateOf([s], budget, Estimate);
            && r.Ok? && |r.value.sections| == 1 && r.value.notices == []
            && var out := r.value.sections[0];
               && out.id == s.id && out.truncated && out.tokens == Estimate(out.body) <= Ceiling(budget, band)
  {
    hide Ceiling, Judge, Roomy, AssembledOf, CheckAll, BandNamed, FairlyShortened, ExcerptOfText;
    var e := Entry(0, PlacedIn(s, band), Estimate(s.body));
    CheckOne(s, band);
    ShortenedNotDropped(e, e.cost, Ceiling(budget, band));
    AssembleOne(e.section, budget, Estimate);
    var o := Judge(e, e.cost, Ceiling(budget, band), Estimate);
    ShortenedCosts(e, o.section, o.cost);
  }

  lemma ShortenedCosts(e: Entry, s: Placed, cost: nat)
    requires FairlyShortened(e, s, cost, Estimate)
    ensures cost == Estimate(s.body)
  {
  }
}
