/** No breaking out: the control tags of a result frame are its own two delimiters and no others. */
module Delimiters {
  import opened Text
  import opened Sorting
  import opened Patterns
  import opened Rules
  import opened Scrub
  import opened Framing
  import opened Containment

  // ------------------------------------------------------------ pieces put one before the other

  /** No tag begins in `a` when `r` follows it. */
  ghost predicate Quiet(a: string, r: string) {
    forall p | 0 <= p < |a| :: !HitAt(ControlTag(), a + r, p)
  }

  lemma FrontHitShift(r: Rule, pre: string, t: string, q: nat)
    requires r.front && q < |t|
    ensures HitAt(r, pre + t, |pre| + q) == HitAt(r, t, q)
  {
    hide Match;
    var u, n := pre + t, |pre|;
    assert u[n + q] == t[q];
    if Ahead(r.look, u, n + q + 1) {
      var j := AheadEnd(r.look, u, n + q + 1);
      SuffixMatch(r.look, pre, t, q + 1, j - n);
    }
    if Ahead(r.look, t, q + 1) {
      var j := AheadEnd(r.look, t, q + 1);
      SuffixMatch(r.look, pre, t, q + 1, j);
    }
  }

  /** What stands before a text does not matter to the tags in it. */
  lemma HitShift(pre: string, t: string, q: nat)
    requires q < |t|
    ensures HitAt(ControlTag(), pre + t, |pre| + q) == HitAt(ControlTag(), t, q)
  {
    hide ControlTag, HitAt;
    LookShape();
    FrontHitShift(ControlTag(), pre, t, q);
  }

  lemma QuietJoin(a: string, b: string, r: string)
    requires Quiet(a, b + r) && Quiet(b, r)
    ensures Quiet(a + b, r)
  {
    hide ControlTag, HitAt;
    assert a + b + r == a + (b + r);
    forall p | 0 <= p < |a + b| ensures !HitAt(ControlTag(), a + b + r, p) {
      if p >= |a| { HitShift(a, b + r, p - |a|); }
    }
  }

  ghost predicate Bracketless(t: string) { '<' !in t }

  lemma NoBracket(a: string, r: string)
    requires Bracketless(a)
    ensures Quiet(a, r)
  {
    hide ControlTag;
    LookShape();
    forall p | 0 <= p < |a| ensures !HitAt(ControlTag(), a + r, p) { assert (a + r)[p] == a[p]; }
  }

  lemma BracketlessAppend(a: string, b: string)
    requires Bracketless(a) && Bracketless(b)
    ensures Bracketless(a + b)
  {
  }

  lemma PlainFirst(a: string, b: string, r: string)
    requires Bracketless(a) && Quiet(b, r)
    ensures Quiet(a + b, r)
  {
    hide Quiet, Bracketless;
    NoBracket(a, b + r);
    QuietJoin(a, b, r);
  }

  lemma ValueFirst(a: string, b: string, r: string)
    requires Clean(ControlTag(), a) && b != "" && !IsWord(b[0]) && Parts(a, b + r) && Quiet(b, r)
    ensures Quiet(a + b, r)
  {
    hide HitAt, ControlTag, Clean, Parts;
    forall p | 0 <= p < |a| ensures !HitAt(ControlTag(), a + (b + r), p) {
      NoTagBegins(a, b + r, p);
    }
    assert Quiet(a, b + r);
    hide Quiet;
    QuietJoin(a, b, r);
  }

  // ------------------------------------------------------------ the provenance line

  lemma Phrases()
    ensures Bracketless("the capability \"") && Bracketless("\"") && Bracketless("an unnamed source")
    ensures Bracketless(", by way of the sub-agent \"") && Bracketless(", fetched from the address ")
    ensures Bracketless("  From ") && Bracketless(".\n") && Bracketless("\n") && Bracketless(INDENT)
  {
  }

  /** A value in quotation marks. */
  lemma QuotedFirst(lead: string, value: string, b: string, r: string)
    requires Bracketless(lead) && Quiet(b, r)
    ensures Quiet(lead + Inline(value) + "\"" + b, r)
  {
    hide Quiet, Inline, Clean, ControlTag, Parts, Bracketless, LeadChar, RestChar;
    Phrases();
    ValuesAreClean(value);
    PlainFirst("\"", b, r);
    QuoteParts(Inline(value), b, r);
    ValueFirst(Inline(value), "\"" + b, r);
    PlainFirst(lead, Inline(value) + ("\"" + b), r);
    Regroup4(lead, Inline(value), "\"", b);
  }

  lemma QuoteParts(a: string, b: string, r: string)
    ensures Parts(a, "\"" + b + r) && ("\"" + b)[0] == '"'
  {
    hide Parts;
    BlockerParts(a, "\"" + b + r);
  }

  lemma StopFollows(a: string, b: string, r: string)
    requires |b| >= 2 && b[0] == '.' && b[1] == '\n'
    ensures Parts(a, b + r) && !IsWord(b[0])
  {
    hide Parts;
    StopParts(a, b + r);
  }

  lemma AddressFirst(lead: string, value: string, b: string, r: string)
    requires Bracketless(lead) && |b| >= 2 && b[0] == '.' && b[1] == '\n' && Quiet(b, r)
    ensures Quiet(lead + Inline(value) + b, r)
  {
    hide Quiet, Inline, Clean, ControlTag, Parts, Bracketless;
    ValuesAreClean(value);
    StopFollows(Inline(value), b, r);
    ValueFirst(Inline(value), b, r);
    PlainFirst(lead, Inline(value) + b, r);
    Regroup3(lead, Inline(value), b);
  }

  lemma FetchedFirst(o: Origin, b: string, r: string)
    requires |b| >= 2 && b[0] == '.' && b[1] == '\n' && Quiet(b, r)
    ensures Quiet(FetchedFrom(o) + b, r)
  {
    hide Quiet, Inline, Bracketless;
    Phrases();
    if o.url == "" { assert "" + b == b; } else { AddressFirst(", fetched from the address ", o.url, b, r); }
  }

  lemma ByWayFirst(o: Origin, b: string, r: string)
    requires Quiet(b, r)
    ensures Quiet(ByWayOf(o) + b, r)
  {
    hide Quiet, Inline, Bracketless;
    Phrases();
    if o.agent == "" { assert "" + b == b; } else { QuotedFirst(", by way of the sub-agent \"", o.agent, b, r); }
  }

  lemma NamedFirst(o: Origin, b: string, r: string)
    requires Quiet(b, r)
    ensures Quiet(NamedSource(o) + b, r)
  {
    hide Quiet, Inline, Bracketless;
    Phrases();
    if o.capability == "" {
      PlainFirst("an unnamed source", b, r);
    } else {
      QuotedFirst("the capability \"", o.capability, b, r);
    }
  }

  function ProvenanceText(o: Origin): string {
    if HasProvenance(o) then INDENT + ("From " + Describe(o) + ".") + "\n" else ""
  }

  lemma DescribeFirst(o: Origin, b: string, r: string)
    requires |b| >= 2 && b[0] == '.' && b[1] == '\n' && Quiet(b, r)
    ensures Quiet("  From " + Describe(o) + b, r)
  {
    hide Quiet, NamedSource, ByWayOf, FetchedFrom, Bracketless;
    Phrases();
    FetchedFirst(o, b, r);
    ByWayFirst(o, FetchedFrom(o) + b, r);
    NamedFirst(o, ByWayOf(o) + (FetchedFrom(o) + b), r);
    Regroup4(NamedSource(o), ByWayOf(o), FetchedFrom(o), b);
    PlainFirst("  From ", Describe(o) + b, r);
    Regroup3("  From ", Describe(o), b);
  }

  lemma ProvenanceFirst(o: Origin, b: string, r: string)
    requires Quiet(b, r)
    ensures Quiet(ProvenanceText(o) + b, r)
  {
    hide Quiet, Describe, HasProvenance, Bracketless;
    Phrases();
    if HasProvenance(o) {
      PlainFirst(".\n", b, r);
      DescribeFirst(o, ".\n" + b, r);
      assert INDENT + ("From " + Describe(o) + ".") + "\n" + b == "  From " + Describe(o) + (".\n" + b);
    } else {
      assert "" + b == b;
    }
  }

  // ------------------------------------------------------------ the lines of a frame as one text

  lemma {:induction false} JoinAppend(a: seq<string>, b: seq<string>, sep: string)
    requires a != [] && b != []
    ensures Join(a + b, sep) == Join(a, sep) + sep + Join(b, sep)
  {
    if |a| == 1 {
      JoinCons(a[0], b, sep);
      assert a + b == [a[0]] + b;
    } else {
      JoinAppend(a[1..], b, sep);
      JoinCons(a[0], a[1..] + b, sep);
      JoinCons(a[0], a[1..], sep);
      assert a + b == [a[0]] + (a[1..] + b) && a == [a[0]] + a[1..];
      assert a[0] + sep + (Join(a[1..], sep) + sep + Join(b, sep))
          == (a[0] + sep + Join(a[1..], sep)) + sep + Join(b, sep);
    }
  }

  /** `pad` before every line. */
  function Padded(pad: string, lines: seq<string>): (r: seq<string>)
    ensures |r| == |lines| && forall k | 0 <= k < |lines| :: r[k] == pad + lines[k]
  {
    seq(|lines|, k requires 0 <= k < |lines| => pad + lines[k])
  }

  lemma LinesPadded(lines: seq<string>)
    ensures Map(Line, lines) == Padded(INDENT, lines)
  {
  }

  lemma IndentedAppend(a: string, b: string, pad: string)
    ensures Indented(a + b, pad) == Indented(a, pad) + Indented(b, pad)
  {
    assert IndentReps(a + b, pad) == IndentReps(a, pad) + IndentReps(b, pad);
    ExpandAppend(IndentReps(a, pad), IndentReps(b, pad));
  }

  lemma IndentedPlain(t: string, pad: string)
    requires '\n' !in t
    ensures Indented(t, pad) == t
  {
    ExpandPlain(t, IndentReps(t, pad));
  }

  lemma IndentedBreak(pad: string)
    ensures Indented("\n", pad) == "\n" + pad
  {
    assert IndentReps("\n", pad) == ["\n" + pad] + [];
    ExpandCons("\n" + pad, []);
  }

  lemma PaddedCons(pad: string, x: string, rest: seq<string>)
    ensures Padded(pad, [x] + rest) == [pad + x] + Padded(pad, rest)
  {
  }

  /** Padding every line is padding the first and indenting after each break. */
  lemma {:induction false} SplitIndent(t: string, pad: string)
    ensures Join(Padded(pad, Split(t, '\n')), "\n") == pad + Indented(t, pad)
    decreases |t|
  {
    hide Indented, Join;
    var i := FirstIndex(t, '\n');
    if i < 0 {
      IndentedPlain(t, pad);
      SingleJoined(pad + t, "\n");
      assert Padded(pad, [t]) == [pad + t];
    } else {
      var head, rest := t[..i], t[i + 1..];
      SplitIndent(rest, pad);
      PaddedCons(pad, head, Split(rest, '\n'));
      JoinCons(pad + head, Padded(pad, Split(rest, '\n')), "\n");
      IndentedAcross(t, i, pad);
      Regroup4(pad + head, "\n", pad, Indented(rest, pad));
      Regroup3(pad, head, "\n" + pad + Indented(rest, pad));
    }
  }

  lemma IndentedAcross(t: string, i: nat, pad: string)
    requires i < |t| && t[i] == '\n' && '\n' !in t[..i]
    ensures Indented(t, pad) == t[..i] + ("\n" + pad + Indented(t[i + 1..], pad))
  {
    hide Indented;
    var head, rest := t[..i], t[i + 1..];
    IndentedPlain(head, pad);
    IndentedBreak(pad);
    IndentedAppend("\n", rest, pad);
    IndentedAppend(head, "\n" + rest, pad);
    assert t == head + ("\n" + rest);
  }

  /** The line the frame closes with, and the break after it. */
  function ClosingText(o: Origin, trust: string): string { "\n" + Line(ResultClosing(o, trust)) + "\n" }

  function BodyText(body: string): string { INDENT + Indented(Fence(body), INDENT) }

  function InsideText(body: string, o: Origin, trust: string): string {
    "\n" + (ProvenanceText(o) + (BodyText(body) + ClosingText(o, trust)))
  }

  lemma InsideJoined(body: string, o: Origin, trust: string)
    ensures Join(Map(Line, ResultInside(body, o, trust)), "\n")
            == ProvenanceText(o) + BodyText(body) + "\n" + Line(ResultClosing(o, trust))
  {
    hide Split, Fence, ResultClosing, Describe, Join, Line, Indented, HasProvenance, Map;
    var pieces := Split(Fence(body), '\n');
    InsideMapped(body, o, trust);
    LinesPadded(pieces);
    SplitIndent(Fence(body), INDENT);
    var mid := Map(Line, pieces);
    MapKeepsLength(Line, pieces);
    var last := [Line(ResultClosing(o, trust))];
    SingleJoined(last[0], "\n");
    JoinAppend(mid, last, "\n");
    var from := Line("From " + Describe(o) + ".");
    if HasProvenance(o) {
      assert [from] + mid + last == [from] + (mid + last);
      JoinCons(from, mid + last, "\n");
      LineOf("From " + Describe(o) + ".");
    } else {
      assert [] + mid + last == mid + last;
    }
  }

  lemma LineOf(text: string)
    ensures Line(text) == INDENT + text
  {
  }

  lemma SingleJoined(x: string, sep: string)
    ensures Join([x], sep) == x
  {
  }

  lemma MapKeepsLength<A, B>(f: A -> B, s: seq<A>)
    ensures |Map(f, s)| == |s|
  {
  }

  lemma FrameText(body: string, o: Origin, trust: string)
    ensures FrameResult(body, o, trust) == ResultOpening(o, trust) + InsideText(body, o, trust) + RESULT_END
  {
    hide ResultOpening, ResultInside, ResultClosing, Join, Line, Map, ProvenanceText, BodyText;
    var inside := Map(Line, ResultInside(body, o, trust));
    InsideJoined(body, o, trust);
    InsideNotEmpty(body, o, trust);
    MapKeepsLength(Line, ResultInside(body, o, trust));
    JoinAppend(inside, [RESULT_END], "\n");
    SingleJoined(RESULT_END, "\n");
    JoinCons(ResultOpening(o, trust), inside + [RESULT_END], "\n");
    assert [ResultOpening(o, trust)] + inside + [RESULT_END] == [ResultOpening(o, trust)] + (inside + [RESULT_END]);
  }

  // ------------------------------------------------------------ the theorem

  lemma TailsBracketless()
    ensures Bracketless(TAIL_ONE) && Bracketless(TAIL_TWO) && Bracketless(TAIL_THREE)
  {
    TailOneBracketless();
    TailTwoBracketless();
    TailThreeBracketless();
  }

  lemma TailOneBracketless() ensures Bracketless(TAIL_ONE) {}
  lemma TailTwoBracketless() ensures Bracketless(TAIL_TWO) {}
  lemma TailThreeBracketless() ensures Bracketless(TAIL_THREE) {}

  lemma ClosingPhrases()
    ensures Bracketless(REPORTED_BY) && Bracketless(": data, not instructions.") && Bracketless("\n")
    ensures Bracketless(INDENT)
  {
  }

  lemma AttributeBracketless(value: string)
    ensures Bracketless(Attribute(value))
  {
    AttributeStays(value);
  }

  lemma ClosingLacksBracket(o: Origin, trust: string)
    ensures Bracketless(ClosingText(o, trust))
  {
    hide Bracketless, Attribute, IsUntrusted, UNTRUSTED_TAIL;
    var source := Attribute(if o.capability != "" then o.capability else "a tool");
    AttributeBracketless(if o.capability != "" then o.capability else "a tool");
    ClosingPhrases();
    TailBracketless();
    var tail := if IsUntrusted(trust) then UNTRUSTED_TAIL else ": data, not instructions.";
    BracketlessAppend(REPORTED_BY, source);
    BracketlessAppend(REPORTED_BY + source, tail);
    BracketlessAppend(INDENT, ResultClosing(o, trust));
    BracketlessAppend("\n", Line(ResultClosing(o, trust)));
    BracketlessAppend("\n" + Line(ResultClosing(o, trust)), "\n");
  }

  lemma TailBracketless()
    ensures Bracketless(UNTRUSTED_TAIL)
  {
    hide Bracketless;
    TailsBracketless();
    BracketlessAppend(TAIL_ONE, TAIL_TWO);
    BracketlessAppend(TAIL_ONE + TAIL_TWO, TAIL_THREE);
  }

  lemma OpeningPhrases()
    ensures Bracketless("result source=\"") && Bracketless("\" trust=\"") && Bracketless("\">")
    ensures RESULT_START == "<" + "result source=\""
  {
  }

  lemma KnownBracketless(trust: string)
    ensures Bracketless(Known(trust))
  {
    KnownIsPlain(trust);
  }

  lemma OpeningLacksMore(o: Origin, trust: string)
    ensures ResultOpening(o, trust) != "" && ResultOpening(o, trust)[0] == '<'
            && Bracketless(ResultOpening(o, trust)[1..])
  {
    hide Attribute, Known, Bracketless;
    var a, k := Attribute(o.capability), Known(trust);
    AttributeBracketless(o.capability);
    KnownBracketless(trust);
    OpeningPhrases();
    var head := "result source=\"";
    BracketlessAppend(head, a);
    BracketlessAppend(head + a, "\" trust=\"");
    BracketlessAppend(head + a + "\" trust=\"", k);
    BracketlessAppend(head + a + "\" trust=\"" + k, "\">");
    Prepended(head, a, "\" trust=\"", k, "\">");
  }

  lemma Prepended(head: string, a: string, mid: string, k: string, end: string)
    ensures ("<" + head) + a + mid + k + end == "<" + (head + a + mid + k + end)
    ensures (("<" + head) + a + mid + k + end)[1..] == head + a + mid + k + end
  {
  }

  lemma BodyFirst(body: string, o: Origin, trust: string)
    ensures Quiet(BodyText(body) + ClosingText(o, trust), RESULT_END)
  {
    hide Quiet, Indented, Fence, Clean, ControlTag, ResultClosing, Parts;
    var b, a := ClosingText(o, trust), Indented(Fence(body), INDENT);
    ClosingLacksBracket(o, trust);
    NoBracket(b, RESULT_END);
    FenceIsClean(body);
    IndentingIsClean(Fence(body), INDENT);
    ClosingParts(a, o, trust, RESULT_END);
    assert b[0] == '\n';
    ValueFirst(a, b, RESULT_END);
    PlainFirst(INDENT, a + b, RESULT_END);
    assert INDENT + (a + b) == BodyText(body) + b;
  }

  lemma ClosingParts(a: string, o: Origin, trust: string, r: string)
    ensures Parts(a, ClosingText(o, trust) + r)
  {
    hide Parts, Attribute, IsUntrusted;
    var source := Attribute(if o.capability != "" then o.capability else "a tool");
    var tail := if IsUntrusted(trust) then UNTRUSTED_TAIL else ": data, not instructions.";
    hide UNTRUSTED_TAIL;
    assert ResultClosing(o, trust) == REPORTED_BY + source + tail;
    ReportedParts(a, source + tail + "\n" + r);
    assert "\n  " + (REPORTED_BY + (source + tail + "\n" + r)) == ClosingText(o, trust) + r;
  }

  lemma ReportedParts(a: string, rest: string)
    ensures Parts(a, "\n  " + (REPORTED_BY + rest))
  {
    hide Parts, NoNameAt, ReportedAt;
    var b := "\n  " + (REPORTED_BY + rest);
    ReportedThere(a + "\n  ", rest);
    assert a + "\n  " + REPORTED_BY + rest == a + b;
    ReportedIsNoName(a + b, |a| + 3);
    assert b[3] == REPORTED_BY[0] == 'R';
    LineParts(a, b, 3);
  }

  lemma InsideQuiet(body: string, o: Origin, trust: string)
    ensures Quiet(InsideText(body, o, trust), RESULT_END)
  {
    hide Quiet, ProvenanceText, BodyText, ClosingText;
    BodyFirst(body, o, trust);
    ProvenanceFirst(o, BodyText(body) + ClosingText(o, trust), RESULT_END);
    PlainFirst("\n", ProvenanceText(o) + (BodyText(body) + ClosingText(o, trust)), RESULT_END);
  }

  lemma EndIsTag(p: nat)
    requires p < |RESULT_END|
    ensures HitAt(ControlTag(), RESULT_END, p) <==> p == 0
  {
    hide TagLead, TagRest, Match, ControlTag;
    LookShape();
    assert RESULT_END[2..8] == "result" && RESULT_END[1] == '/' && RESULT_END[8] == '>';
    SlashLead(RESULT_END, 1);
    ResultNamed(RESULT_END, 2);
    TagHit(RESULT_END, 0, 2, 8);
    if p > 0 { NotTheAnchor(RESULT_END, p); }
  }

  lemma NotTheAnchor(t: string, p: nat)
    requires p < |t| && t[p] != '<'
    ensures !HitAt(ControlTag(), t, p)
  {
    hide ControlTag;
    LookShape();
  }

  lemma SlashLead(t: string, i: nat)
    requires i < |t| && t[i] == '/'
    ensures Match(TagLead(), t, i, i + 1)
  {
    CatJoin(Opt(Ch(Exact('/'))), Many(Space), t, i, i + 1, i + 1);
    CatJoin(Many(Space), Cat(Opt(Ch(Exact('/'))), Many(Space)), t, i, i, i + 1);
  }

  lemma EmptyLead(t: string, i: nat)
    requires i <= |t|
    ensures Match(TagLead(), t, i, i)
  {
    CatJoin(Opt(Ch(Exact('/'))), Many(Space), t, i, i, i);
    CatJoin(Many(Space), Cat(Opt(Ch(Exact('/'))), Many(Space)), t, i, i, i);
  }

  /** The word `result`, with something other than a word character after it, is one of the names. */
  lemma ResultNamed(t: string, i: nat)
    requires i + 6 < |t| && t[i..i + 6] == "result" && !IsWord(t[i + 6])
    ensures Match(TagRest(), t, i, i + 6)
  {
    hide AnyWord, ControlTags, Word, Match;
    ResultListed();
    TagCount();
    forall k | 0 <= k < |"result"| ensures Lower(t[i + k]) == Lower("result"[k]) {
      assert t[i + k] == t[i..i + 6][k];
    }
    WordStands("result", t, i);
    AnyWordStands(ControlTags(), 10, t, i, i + 6);
    assert t[i + 5] == t[i..i + 6][5] == 't';
    NameStands(t, i, i + 6);
  }

  lemma NameStands(t: string, i: nat, j: nat)
    requires i < j < |t| && Match(AnyWord(ControlTags()), t, i, j) && IsWord(t[j - 1]) && !IsWord(t[j])
    requires ControlTags() != []
    ensures Match(TagRest(), t, i, j)
  {
    hide AnyWord, ControlTags;
    assert Match(Bound, t, j, j);
    CatJoin(AnyWord(ControlTags()), Bound, t, i, j, j);
    assert Match(Namespace(), t, i, i);
    CatJoin(Namespace(), TagName(), t, i, i, j);
  }

  lemma ResultListed()
    ensures |ControlTags()| == 17 && ControlTags()[10] == "result"
  {
  }

  lemma OpeningIsTag(o: Origin, trust: string, rest: string)
    ensures HitAt(ControlTag(), ResultOpening(o, trust) + rest, 0)
  {
    var t := ResultOpening(o, trust) + rest;
    var after := Attribute(o.capability) + "\" trust=\"" + Known(trust) + "\">" + rest;
    hide Attribute, Known, AnyWord, ControlTags, Word, Match;
    assert t == RESULT_START + after;
    assert RESULT_START[1..7] == "result";
    assert t[1..7] == RESULT_START[1..7] && t[7] == ' ' && t[0] == '<';
    EmptyLead(t, 1);
    ResultNamed(t, 1);
    hide ResultOpening, TagLead, TagRest;
    TagHit(t, 0, 1, 7);
  }

  lemma OutsideText(t: string, p: nat)
    ensures p >= |t| ==> !HitAt(ControlTag(), t, p)
  {
  }

  /** A block whose opening and end are tags, with a quiet stretch between them, holds no other tag. */
  lemma TwoTags(start: string, inside: string, end: string, p: nat)
    requires start != "" && Bracketless(start[1..]) && Quiet(inside, end)
    requires HitAt(ControlTag(), start + (inside + end), 0)
    requires end != "" && HitAt(ControlTag(), end, 0) && forall k | 0 < k < |end| :: !HitAt(ControlTag(), end, k)
    ensures HitAt(ControlTag(), start + inside + end, p) <==> p == 0 || p == |start + inside|
  {
    hide ControlTag, HitAt;
    var out, m := start + inside + end, start[1..] + inside;
    assert start == [start[0]] + start[1..];
    assert out == [start[0]] + (m + end) && out == start + (inside + end);
    PlainFirst(start[1..], inside, end);
    OutsideText(out, p);
    if 1 <= p < |out| {
      HitShift([start[0]], m + end, p - 1);
      if p - 1 >= |m| { HitShift(m, end, p - 1 - |m|); }
    }
  }

  /**
   * Whatever the body, the capability, the address, the helper and the trust, a frame holds a control tag
   * at exactly two positions: its opening and its closing delimiter.
   */
  lemma ExactlyTwoTags(body: string, o: Origin, trust: string, p: nat)
    ensures var out := FrameResult(body, o, trust);
            HitAt(ControlTag(), out, p) <==> p == 0 || p == |out| - |RESULT_END|
  {
    hide ResultOpening, InsideText, ControlTag, FrameResult, HitAt, Quiet;
    FrameText(body, o, trust);
    OpeningLacksMore(o, trust);
    OpeningIsTag(o, trust, InsideText(body, o, trust) + RESULT_END);
    InsideQuiet(body, o, trust);
    forall k | 0 <= k < |RESULT_END| ensures HitAt(ControlTag(), RESULT_END, k) <==> k == 0 { EndIsTag(k); }
    TwoTags(ResultOpening(o, trust), InsideText(body, o, trust), RESULT_END, p);
  }
}
