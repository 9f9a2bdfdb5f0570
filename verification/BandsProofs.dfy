/** What the allocator promises, for every token counter. */
module BandsProofs {
  import opened Text
  import opened Bands

  // ------------------------------------------------------------ excerpts

  /** `head` and `tail` are a prefix and a disjoint suffix of `text`, with a character missing between. */
  ghost predicate CutsOut(text: string, head: string, tail: string) {
    && |head| + |tail| <= |text| && (text != "" ==> |head| + |tail| < |text|)
    && head == text[..|head|] && tail == text[|text| - |tail|..]
  }

  lemma HeadCut(text: string, chars: nat)
    requires chars <= |text|
    ensures var h := Head(text, chars); |h| <= chars && h == text[..|h|] && (chars > 0 ==> h != "")
  {
  }

  lemma TailCut(text: string, chars: nat)
    requires chars <= |text|
    ensures var t := Tail(text, chars); |t| <= chars && t == text[|text| - |t|..]
  {
  }

  lemma FragmentsCut(text: string, chars: nat)
    requires chars <= |text| && (text != "" ==> chars < |text|)
    ensures var (head, tail) := Fragments(text, chars); CutsOut(text, head, tail) && |head| + |tail| <= chars
    ensures chars > 0 ==> Fragments(text, chars).0 != ""
  {
    hide Head, Tail;
    if chars > 0 {
      if chars < HEAD_TAIL_MINIMUM_CHARS {
        HeadCut(text, chars);
      } else {
        var headChars := Max(1, chars * 3 / 5);
        HeadCut(text, headChars);
        TailCut(text, chars - headChars);
      }
    }
  }

  /** The line that stands for what is missing. */
  function Elided(shown: nat, original: nat): string {
    "[... showing " + Grouped(shown) + " of " + Grouped(original) + " tokens ...]"
  }

  /** What it is to be an excerpt: two true fragments, with the elision and its exact counts between them. */
  ghost predicate ExcerptBetween(x: Excerpt, text: string, original: nat, count: Counter, head: string, tail: string) {
    && CutsOut(text, head, tail)
    && x.shown == count(Lines([head, tail]))
    && x.body == Lines([head, Elided(x.shown, original), tail])
    && x.tokens == count(x.body)
  }

  ghost predicate ExcerptOfText(x: Excerpt, text: string, original: nat, count: Counter) {
    exists head, tail :: ExcerptBetween(x, text, original, count, head, tail)
  }

  lemma {:induction false} ShrinkSound(text: string, original: nat, allowance: int, count: Counter, chars: nat)
    requires chars <= |text| && (text != "" ==> chars < |text|) && (chars > 0 ==> allowance > 0)
    ensures var r := Shrink(text, original, allowance, count, chars);
            && (r.Some? ==> r.value.tokens <= allowance && ExcerptOfText(r.value, text, original, count))
            && (r.None? ==> Excerpted("", "", original, count).tokens > allowance)
    decreases chars
  {
    var (head, tail) := Fragments(text, chars);
    var tried := Excerpted(head, tail, original, count);
    FragmentsCut(text, chars);
    assert ExcerptBetween(tried, text, original, count, head, tail);
    if tried.tokens > allowance && chars > 0 {
      ShrinkSound(text, original, allowance, count, NextGuess(chars, allowance, tried.tokens));
    }
  }

  /** An excerpt fits its allowance and tells the truth; there is none only when the bare confession does not fit. */
  lemma ExcerptSound(text: string, original: nat, allowance: int, count: Counter)
    requires original >= 1
    ensures var r := ExcerptOf(text, original, allowance, count);
            && (r.Some? ==> r.value.tokens <= allowance && ExcerptOfText(r.value, text, original, count))
            && (r.None? ==> Excerpted("", "", original, count).tokens > allowance)
  {
    ShrinkSound(text, original, allowance, count, FirstGuess(text, original, allowance));
  }

  // ------------------------------------------------------------ the cut point

  /** A shortened section: still itself, an excerpt at or above its floor, with both confessions. */
  ghost predicate FairlyShortened(e: Entry, s: Placed, cost: nat, count: Counter) {
    exists x: Excerpt ::
      && ExcerptOfText(x, e.section.body, e.cost, count)
      && x.shown >= Max(e.section.floorTokens, 1) && cost == x.tokens < e.cost
      && s == e.section.(body := x.body, tokens := x.tokens, truncated := true,
                         notice := ShortenedText(e.section, x.shown, e.cost))
  }

  function BandWord(band: Band): string {
    match band
    case System => "system"
    case Pinned => "pinned"
    case History => "history"
    case Tools => "tools"
    case Reserve => "reserve"
  }

  /** What is said of a section that was shortened: which, where, and how much of it is shown. */
  function ShortenedText(s: Placed, shown: nat, original: nat): string {
    s.id + " was shortened to fit the " + BandWord(s.band) + " band: showing "
    + Grouped(shown) + " of " + Grouped(original) + " tokens."
  }

  /** What is said of a section that was dropped: which, where, what it needs, what would fit, and its floor. */
  function DroppedText(s: Placed, cost: nat, shown: nat, floor: nat): string {
    s.id + " was dropped whole from the " + BandWord(s.band) + " band: it needs " + Grouped(cost)
    + " tokens, only " + Grouped(shown) + " would fit, and that is below its floor of "
    + Grouped(floor) + " tokens."
  }

  /** A dropped section: it cost something, and the one line left behind names it and its counts. */
  ghost predicate FairlyDropped(e: Entry, notice: string) {
    exists shown: nat | shown < Max(e.section.floorTokens, 1) ::
      e.cost > 0 && notice == DroppedText(e.section, e.cost, shown, Max(e.section.floorTokens, 1))
  }

  ghost predicate Fair(e: Entry, o: Outcome, count: Counter) {
    match o
    case Kept => true
    case Shortened(s, cost) => FairlyShortened(e, s, cost, count)
    case Dropped(notice) => FairlyDropped(e, notice)
  }

  lemma ShortenedIsFair(e: Entry, allowance: int, x: Excerpt, count: Counter)
    requires ExcerptOfText(x, e.section.body, e.cost, count) && x.tokens <= allowance < e.cost
    requires x.shown >= Floor(e.section)
    ensures var s := WithBody(e.section, x.body, x.tokens, TrimNotice(e.section, x.shown, e.cost));
            FairlyShortened(e, s, x.tokens, count)
  {
    hide ExcerptOfText;
    NoticesExactly(e.section, e.cost, x.shown, 0);
    assert TrimNotice(e.section, x.shown, e.cost) != "";
  }

  lemma DroppedIsFair(e: Entry, shown: nat)
    requires e.cost > 0 && shown < Floor(e.section)
    ensures FairlyDropped(e, DropNotice(e.section, e.cost, shown, Floor(e.section)))
  {
    NoticesExactly(e.section, e.cost, shown, Floor(e.section));
    hide DropNotice, DroppedText;
  }

  lemma NoticesExactly(s: Placed, cost: nat, shown: nat, floor: nat)
    ensures TrimNotice(s, shown, cost) == ShortenedText(s, shown, cost)
    ensures DropNotice(s, cost, shown, floor) == DroppedText(s, cost, shown, floor)
  {
    hide Grouped;
  }

  lemma JudgeFair(e: Entry, total: int, allocation: int, count: Counter)
    ensures var o := Judge(e, total, allocation, count);
            && Fair(e, o, count)
            && (o.Shortened? ==> o.cost <= e.cost - (total - allocation))
            && (o.Kept? <==> total <= allocation || e.cost == 0)
  {
    hide ExcerptOf, ExcerptOfText, FairlyShortened, FairlyDropped, DropNotice, TrimNotice, WithBody;
    if total > allocation && e.cost > 0 {
      var allowance := e.cost - (total - allocation);
      ExcerptSound(e.section.body, e.cost, allowance, count);
      var excerpt := ExcerptOf(e.section.body, e.cost, allowance, count);
      var shown := if excerpt.Some? then excerpt.value.shown else 0;
      if excerpt.None? || shown < Floor(e.section) {
        DroppedIsFair(e, shown);
      } else {
        ShortenedIsFair(e, allowance, excerpt.value, count);
      }
    }
  }

  /** Everything before the cut was dropped whole or was free; everything after it is untouched. */
  ghost predicate CutAt(ranked: seq<Entry>, outcomes: seq<Outcome>, cut: nat, count: Counter) {
    && |outcomes| == |ranked| && cut <= |ranked|
    && (forall i | 0 <= i < cut :: if ranked[i].cost == 0 then outcomes[i].Kept? else outcomes[i].Dropped?)
    && (forall i | cut < i < |ranked| :: outcomes[i].Kept?)
    && (forall i | 0 <= i < |ranked| :: Fair(ranked[i], outcomes[i], count))
  }

  lemma {:induction false} AffordedKept(ranked: seq<Entry>, total: int, allocation: int, count: Counter)
    requires total <= allocation
    ensures var outcomes := GiveUp(ranked, total, allocation, count);
            && (forall i | 0 <= i < |ranked| :: outcomes[i].Kept?)
            && Remaining(ranked, outcomes) == ranked
  {
    if ranked != [] {
      AffordedKept(ranked[1..], total, allocation, count);
    }
  }

  lemma CutAtCons(ranked: seq<Entry>, outcomes: seq<Outcome>, cut: nat, count: Counter)
    requires |outcomes| == |ranked| > 0 && CutAt(ranked[1..], outcomes[1..], cut, count)
    requires if ranked[0].cost == 0 then outcomes[0].Kept? else outcomes[0].Dropped?
    requires Fair(ranked[0], outcomes[0], count)
    ensures CutAt(ranked, outcomes, cut + 1, count)
  {
    hide Fair;
    assert ranked == [ranked[0]] + ranked[1..] && outcomes == [outcomes[0]] + outcomes[1..];
    forall i | 0 <= i < |ranked| ensures Fair(ranked[i], outcomes[i], count) {
      if i > 0 { assert ranked[i] == ranked[1..][i - 1] && outcomes[i] == outcomes[1..][i - 1]; }
    }
  }

  lemma NothingToCut(count: Counter)
    ensures CutAt([], [], 0, count)
  {
  }

  lemma CutHere(ranked: seq<Entry>, outcomes: seq<Outcome>, count: Counter)
    requires |outcomes| == |ranked| > 0 && Fair(ranked[0], outcomes[0], count)
    requires forall i | 0 <= i < |ranked[1..]| :: outcomes[1..][i].Kept?
    ensures CutAt(ranked, outcomes, 0, count)
  {
    hide FairlyShortened, FairlyDropped;
    forall i | 0 < i < |ranked| ensures outcomes[i].Kept? { assert outcomes[i] == outcomes[1..][i - 1]; }
  }

  /** The loop gives sections up in order until the band fits, shortening at most the last of them. */
  lemma {:induction false} CutPoint(ranked: seq<Entry>, total: int, allocation: int, count: Counter) returns (cut: nat)
    ensures CutAt(ranked, GiveUp(ranked, total, allocation, count), cut, count)
  {
    hide Judge, Fair, CutAt;
    cut := 0;
    if ranked == [] {
      NothingToCut(count);
    } else {
      var e, o := ranked[0], Judge(ranked[0], total, allocation, count);
      JudgeFair(e, total, allocation, count);
      var total' := total - e.cost + CostAfter(e, o);
      var rest := GiveUp(ranked[1..], total', allocation, count);
      assert GiveUp(ranked, total, allocation, count) == [o] + rest;
      if total <= allocation || o.Shortened? {
        AffordedKept(ranked[1..], total', allocation, count);
        CutHere(ranked, [o] + rest, count);
      } else {
        cut := CutPoint(ranked[1..], total', allocation, count);
        CutAtCons(ranked, [o] + rest, cut, count);
        cut := cut + 1;
      }
    }
  }

  /** When the running total is the true one, what is left fits the ceiling. */
  lemma {:induction false} RemainingFits(ranked: seq<Entry>, total: int, allocation: nat, count: Counter)
    requires total == Total(ranked)
    ensures Total(Remaining(ranked, GiveUp(ranked, total, allocation, count))) <= allocation
  {
    hide Judge;
    if total <= allocation {
      AffordedKept(ranked, total, allocation, count);
    } else {
      var e, o := ranked[0], Judge(ranked[0], total, allocation, count);
      JudgeFair(e, total, allocation, count);
      var total' := total - e.cost + CostAfter(e, o);
      var rest := GiveUp(ranked[1..], total', allocation, count);
      assert GiveUp(ranked, total, allocation, count) == [o] + rest;
      if o.Shortened? {
        AffordedKept(ranked[1..], total', allocation, count);
        assert Remaining(ranked, [o] + rest) == [After(e, o)] + Remaining(ranked[1..], rest);
      } else {
        RemainingFits(ranked[1..], total', allocation, count);
        var left := Remaining(ranked[1..], rest);
        assert ([o] + rest)[1..] == rest && ([e] + left)[1..] == left && [] + left == left;
      }
    }
  }
}
