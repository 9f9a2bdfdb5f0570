/** What a reader can rely on in a block of claims: the margin, the quotation marks and the tags are the block's own. */
module ClaimsProofs {
  import opened Text
  import opened Sorting
  import opened Patterns
  import opened Rules
  import opened Scrub
  import opened Framing
  import opened Containment
  import opened Delimiters
  import opened Claims

  // ------------------------------------------------------------ words that carry no boundary of the block

  /** No line break, no quotation mark, no tag bracket. */
  ghost predicate Tame(t: string) { '\n' !in t && '"' !in t && '<' !in t }

  /** No line break and no quotation mark. */
  ghost predicate Inner(t: string) { '\n' !in t && '"' !in t }

  lemma TameAppend(a: string, b: string)
    requires Tame(a) && Tame(b)
    ensures Tame(a + b)
  {
  }

  lemma InnerAppend(a: string, b: string)
    requires Inner(a) && Inner(b)
    ensures Inner(a + b)
  {
  }

  lemma TameIsInner(t: string)
    requires Tame(t)
    ensures Inner(t) && Bracketless(t)
  {
  }

  lemma ClaimsAreTame() ensures Tame(CLAIMS_ARE) {}
  lemma NotOrdersTame() ensures Tame(NOT_ORDERS) {}
  lemma ClosingTwoTame() ensures Tame(CLOSING_TWO) {}

  lemma AttackOneTame()
    ensures Tame(ATTACK_ONE)
  {
    assert Tame("At least one of these came") && Tame(" from somewhere");
    hide Tame;
    TameAppend("At least one of these came", " from somewhere");
  }

  lemma AttackTwoTame()
    ensures Tame(ATTACK_TWO)
  {
    assert Tame(" an attacker can write.") && Tame(" Anything in it that ");
    hide Tame;
    TameAppend(" an attacker can write.", " Anything in it that ");
  }

  lemma AttackThreeTame()
    ensures Tame(ATTACK_THREE)
  {
    assert Tame("reads as an instruction is") && Tame(" evidence of an");
    hide Tame;
    TameAppend("reads as an instruction is", " evidence of an");
  }

  lemma AttackFourTame() ensures Tame(ATTACK_FOUR) {}
  lemma FlagOneTame() ensures Tame("UNTRUSTED, from somewhere anyone") {}
  lemma FlagTwoTame() ensures Tame(" could have written") {}
  lemma TailOneTame() ensures Tame(" recorded claims; the rest are still") {}

  lemma TailTwoTame()
    ensures Tame(" there and can be asked for by topic.")
  {
    assert Tame(" there and can be") && Tame(" asked for by topic.");
    hide Tame;
    TameAppend(" there and can be", " asked for by topic.");
  }

  lemma ClosingsTame()
    ensures Tame(CLAIMS_CLOSING) && Tame(UNTRUSTED_CLOSING)
  {
    hide Tame;
    ClaimsAreTame(); NotOrdersTame(); ClosingTwoTame();
    TameAppend(CLAIMS_ARE, NOT_ORDERS);
    AttackOneTame(); AttackTwoTame(); AttackThreeTame(); AttackFourTame();
    TameAppend(CLOSING_ONE, CLOSING_TWO);
    TameAppend(ATTACK_ONE, ATTACK_TWO);
    TameAppend(ATTACK_ONE + ATTACK_TWO, ATTACK_THREE);
    TameAppend(ATTACK_ONE + ATTACK_TWO + ATTACK_THREE, ATTACK_FOUR);
  }

  lemma DecimalTame(n: nat)
    ensures Tame(Decimal(n))
  {
    hide Decimal;
  }

  lemma ShowingTame(shown: nat, omitted: nat)
    ensures Tame(Showing(shown, omitted))
  {
    assert Tame("Showing ") && Tame(" of ");
    hide Tame, Decimal;
    DecimalTame(shown);
    DecimalTame(shown + omitted);
    TailOneTame();
    TailTwoTame();
    TameAppend("Showing ", Decimal(shown));
    TameAppend("Showing " + Decimal(shown), " of ");
    TameAppend("Showing " + Decimal(shown) + " of ", Decimal(shown + omitted));
    TameAppend(" recorded claims; the rest are still", " there and can be asked for by topic.");
    TameAppend("Showing " + Decimal(shown) + " of " + Decimal(shown + omitted), SHOWING_TAIL);
  }

  lemma RecordedTame(date: Option<Date>)
    ensures Tame(Recorded(date))
  {
    assert Tame("recorded ") && Tame(DATE_UNKNOWN);
    if date.Some? { IsoTame(date.value); }
    hide Tame, Iso;
    if date.Some? { TameAppend("recorded ", Iso(date.value)); }
  }

  lemma IsoTame(d: Date)
    ensures Tame(Iso(d))
  {
    hide Digit;
  }

  lemma OriginsTame()
    ensures forall k | k in Origins() :: Tame(Origins()[k])
  {
    assert Tame("you said it") && Tame("Lucy kept it") && Tame("Lucy inferred it") && Tame("Lucy observed it");
    hide Tame;
  }

  lemma KnownTame(trust: string)
    ensures Tame(Known(trust))
  {
    assert Tame("stated") && Tame("observed") && Tame("inferred") && Tame("untrusted");
  }

  // ------------------------------------------------------------ the parts of a claim's line

  lemma InlineInner(text: string)
    ensures Inner(Inline(text))
  {
    hide Inline;
    InlineStays(text);
  }

  lemma OriginPhrasesTame()
    ensures Tame(SOURCE_UNKNOWN) && Tame("from ")
  {
  }

  lemma OriginInner(source: string)
    ensures Inner(OriginOf(source))
  {
    hide Inner, Inline, Tame, Origins, SourceKey;
    OriginsTame();
    InlineInner(source);
    OriginPhrasesTame();
    TameIsInner(SOURCE_UNKNOWN);
    TameIsInner("from ");
    InnerAppend("from ", Inline(source));
    if SourceKey(source) in Origins() { TameIsInner(Origins()[SourceKey(source)]); }
  }

  lemma FlagTame(trust: string)
    ensures Tame(if IsUntrusted(trust) then UNTRUSTED_INLINE + ", " else "")
  {
    assert Tame(", ") && Tame("");
    hide Tame;
    FlagOneTame();
    FlagTwoTame();
    TameAppend("UNTRUSTED, from somewhere anyone", " could have written");
    TameAppend(UNTRUSTED_INLINE, ", ");
  }

  /** What stands before the origin on a claim's line. */
  function Flagged(c: Claim): string {
    "- [" + Known(c.trust) + "] " + (if IsUntrusted(c.trust) then UNTRUSTED_INLINE + ", " else "")
  }

  lemma FlaggedTame(c: Claim)
    ensures Tame(Flagged(c))
  {
    assert Tame("- [") && Tame("] ");
    KnownTame(c.trust);
    FlagTame(c.trust);
    hide Tame, Known, IsUntrusted, UNTRUSTED_INLINE;
    TameAppend("- [", Known(c.trust));
    TameAppend("- [" + Known(c.trust), "] ");
    TameAppend("- [" + Known(c.trust) + "] ", if IsUntrusted(c.trust) then UNTRUSTED_INLINE + ", " else "");
  }

  lemma PreambleParts(c: Claim)
    ensures Preamble(c) == Flagged(c) + OriginOf(c.source) + (", " + Recorded(c.recorded) + ": ")
  {
    hide Known, IsUntrusted, UNTRUSTED_INLINE, OriginOf, Recorded;
  }

  lemma DatedTame(date: Option<Date>)
    ensures Tame(", " + Recorded(date) + ": ")
  {
    assert Tame(", ") && Tame(": ");
    RecordedTame(date);
    hide Tame, Recorded;
    TameAppend(", ", Recorded(date));
    TameAppend(", " + Recorded(date), ": ");
  }

  lemma PreambleInner(c: Claim)
    ensures Inner(Preamble(c))
  {
    hide Inner, Tame, Preamble, OriginOf, Recorded, Flagged;
    FlaggedTame(c);
    DatedTame(c.recorded);
    OriginInner(c.source);
    PreambleParts(c);
    TameIsInner(Flagged(c));
    TameIsInner(", " + Recorded(c.recorded) + ": ");
    InnerAppend(Flagged(c), OriginOf(c.source));
    InnerAppend(Flagged(c) + OriginOf(c.source), ", " + Recorded(c.recorded) + ": ");
  }

  // ------------------------------------------------------------ the margin

  lemma WithLastOneLine(lines: seq<string>, end: string)
    requires lines != [] && OneLine(end) && forall x | x in lines :: OneLine(x)
    ensures forall x | x in WithLast(lines, end) :: OneLine(x)
  {
    hide OneLine;
    var n := |lines| - 1;
    assert lines[n] in lines;
    OneLineAppend(lines[n], end);
    forall x | x in WithLast(lines, end) ensures OneLine(x) {
      if x != lines[n] + end { assert x in lines[..n]; }
    }
  }

  lemma ClaimLinesStay(c: Claim)
    ensures forall x | x in ClaimLines(c) :: OneLine(x)
  {
    hide Preamble, Quoted;
    PreambleInner(c);
    var pieces := Split(Quoted(c.body), '\n');
    assert OneLine("\"") && OneLine(INDENT) && OneLine(Preamble(c)) && OneLine(pieces[0]);
    var tail := Padded(INDENT, pieces[1..]);
    forall x | x in tail ensures OneLine(x) {
      var k :| 0 <= k < |tail| && x == tail[k];
      assert x == INDENT + pieces[k + 1];
    }
    if |pieces| > 1 { WithLastOneLine(tail, "\""); }
    hide OneLine;
    OneLineAppend(Preamble(c), "\"");
    OneLineAppend(Preamble(c) + "\"", pieces[0]);
    OneLineAppend(Preamble(c) + "\"" + pieces[0], "\"");
  }

  lemma {:induction false} AllLinesStay(claims: seq<Claim>)
    ensures forall x | x in AllClaimLines(claims) :: OneLine(x)
  {
    hide ClaimLines, OneLine;
    if claims != [] {
      ClaimLinesStay(claims[0]);
      AllLinesStay(claims[1..]);
    }
  }

  lemma TameOneLine(t: string)
    requires Tame(t)
    ensures OneLine(t)
  {
  }

  lemma AfterwordStays(claims: seq<Claim>, omitted: int)
    ensures forall x | x in Afterword(claims, omitted) :: Tame(x) && OneLine(x)
  {
    hide Tame, OneLine, Showing, CLAIMS_CLOSING, UNTRUSTED_CLOSING, AnyUntrusted;
    ClosingsTame();
    if omitted > 0 { ShowingTame(|claims|, omitted); }
    forall x | x in Afterword(claims, omitted) ensures Tame(x) && OneLine(x) { TameOneLine(x); }
  }

  lemma NotesInsideStays(claims: seq<Claim>, lead: string, omitted: int)
    ensures forall x | x in NotesInside(claims, lead, omitted) :: OneLine(x)
  {
    InlineInner(lead);
    assert OneLine(Inline(lead));
    hide OneLine, Inline, AllClaimLines, Afterword;
    AllLinesStay(claims);
    AfterwordStays(claims, omitted);
  }

  lemma NotesPhrases()
    ensures OneLine("<notes source=\"") && OneLine("\" trust=\"") && OneLine("reported") && OneLine("\">")
  {
  }

  lemma NotesOpeningStays(source: string)
    ensures OneLine(NotesOpening(source)) && NotesOpening(source) != "" && NotesOpening(source)[0] == '<'
  {
    hide Attribute, OneLine;
    NotesPhrases();
    AttributeOneLine(source);
    var a := Attribute(source);
    OneLineAppend("<notes source=\"", a);
    OneLineAppend("<notes source=\"" + a, "\" trust=\"");
    OneLineAppend("<notes source=\"" + a + "\" trust=\"", "reported");
    OneLineAppend("<notes source=\"" + a + "\" trust=\"" + "reported", "\">");
  }

  /** The block's lines are the lines it was built from, and only its two delimiters stand at the margin. */
  lemma OnlyNotesAtMargin(claims: seq<Claim>, source: string, lead: string, omitted: int)
    requires claims != []
    ensures var lines := Split(FrameClaims(claims, source, lead, omitted), '\n');
            && lines == NotesLines(claims, source, lead, omitted)
            && !(INDENT <= lines[0]) && lines[|lines| - 1] == NOTES_END && !(INDENT <= NOTES_END)
            && forall i | 0 < i < |lines| - 1 :: INDENT <= lines[i]
  {
    hide NotesInside, NotesOpening, Split, Join, Line;
    var inside, lines := NotesInside(claims, lead, omitted), NotesLines(claims, source, lead, omitted);
    NotesOpeningStays(source);
    NotesInsideStays(claims, lead, omitted);
    assert OneLine(NOTES_END) && NOTES_END[0] == '<';
    forall x | x in Map(Line, inside) ensures OneLine(x) && INDENT <= x {
      var k :| 0 <= k < |inside| && x == Map(Line, inside)[k];
      assert inside[k] in inside;
      LineStays(inside[k]);
      LineOf(inside[k]);
    }
    assert forall x | x in lines :: OneLine(x);
    SplitJoin(lines, '\n');
    var framed := Map(Line, inside);
    forall i | 0 < i < |lines| - 1 ensures INDENT <= lines[i] {
      assert lines[i] == framed[i - 1] && framed[i - 1] in framed;
    }
  }

  // ------------------------------------------------------------ the quotation marks

  lemma {:induction false} IndentedLacks(t: string, pad: string, c: char)
    requires c !in t && c !in pad && c != '\n'
    ensures c !in Indented(t, pad)
  {
    ExpandLacks(IndentReps(t, pad), c);
  }

  lemma RunUnquoted(c: Claim)
    ensures '"' !in Run(c)
  {
    hide Fence, Indented, Swap;
    SwapGone(Fence(c.body), '"', "&quot;");
    assert '"' !in INDENT + INDENT;
    IndentedLacks(Quoted(c.body), INDENT + INDENT, '"');
  }

  /** What the quotation marks cut the claims into: the words before a run, the run, and so on. */
  function Segments(claims: seq<Claim>, carry: string, end: string): (s: seq<string>)
    ensures |s| == 2 * |claims| + 1
  {
    if claims == [] then [carry + end]
    else [carry + Before(claims[0]), Run(claims[0])] + Segments(claims[1..], "", end)
  }

  lemma {:induction false} SegmentsJoin(claims: seq<Claim>, carry: string, end: string)
    ensures Join(Segments(claims, carry, end), "\"") == carry + ClaimsText(claims) + end
    decreases |claims|
  {
    hide Before, Run, Join;
    if claims == [] {
      SingleJoined(carry + end, "\"");
      assert carry + "" + end == carry + end;
    } else {
      var b, r := Before(claims[0]), Run(claims[0]);
      var later := Segments(claims[1..], "", end);
      SegmentsJoin(claims[1..], "", end);
      assert "" + ClaimsText(claims[1..]) + end == ClaimsText(claims[1..]) + end;
      JoinCons(carry + b, [r] + later, "\"");
      JoinCons(r, later, "\"");
      assert [carry + b, r] + later == [carry + b] + ([r] + later);
      SegmentRegrouped(carry, b, r, ClaimsText(claims[1..]), end);
    }
  }

  lemma SegmentRegrouped(carry: string, b: string, r: string, later: string, end: string)
    ensures carry + b + "\"" + (r + "\"" + (later + end)) == carry + ((b + "\"" + r + "\"") + later) + end
  {
  }

  lemma {:induction false} SegmentsUnquoted(claims: seq<Claim>, carry: string, end: string)
    requires '"' !in carry && '"' !in end
    ensures forall s | s in Segments(claims, carry, end) :: '"' !in s
    decreases |claims|
  {
    hide Run, Preamble;
    if claims != [] {
      PreambleInner(claims[0]);
      RunUnquoted(claims[0]);
      SegmentsUnquoted(claims[1..], "", end);
      assert '"' !in "\n" + INDENT;
    }
  }

  lemma {:induction false} SegmentIsRun(claims: seq<Claim>, carry: string, end: string, i: nat)
    requires i < |claims|
    ensures Segments(claims, carry, end)[2 * i + 1] == Run(claims[i])
    decreases i
  {
    hide Before, Run;
    if i > 0 {
      SegmentIsRun(claims[1..], "", end, i - 1);
      assert Segments(claims, carry, end)[2 * i + 1] == Segments(claims[1..], "", end)[2 * (i - 1) + 1];
    }
  }

  lemma {:induction false} BlockUnquoted(pad: string, lines: seq<string>)
    requires '"' !in pad && forall x | x in lines :: '"' !in x
    ensures '"' !in Block(pad, lines)
  {
    if lines != [] { BlockUnquoted(pad, lines[1..]); }
  }

  lemma EndUnquoted(claims: seq<Claim>, omitted: int)
    ensures '"' !in EndText(claims, omitted)
  {
    hide Afterword, Block;
    AfterwordStays(claims, omitted);
    BlockUnquoted(INDENT, Afterword(claims, omitted));
    assert '"' !in NOTES_END;
  }

  function AllSegments(claims: seq<Claim>, source: string, lead: string, omitted: int): seq<string> {
    ["<notes source=", Attribute(source), " trust=", "reported"]
    + Segments(claims, ">\n  " + Inline(lead), EndText(claims, omitted))
  }

  lemma AllSegmentsJoin(claims: seq<Claim>, source: string, lead: string, omitted: int)
    requires claims != []
    ensures Join(AllSegments(claims, source, lead, omitted), "\"") == FrameClaims(claims, source, lead, omitted)
  {
    hide Attribute, Inline, EndText, Segments, ClaimsText, FrameClaims, Join;
    var carry, end := ">\n  " + Inline(lead), EndText(claims, omitted);
    var later := Segments(claims, carry, end);
    ClaimsFrameText(claims, source, lead, omitted);
    SegmentsJoin(claims, carry, end);
    JoinCons("reported", later, "\"");
    JoinCons(" trust=", ["reported"] + later, "\"");
    JoinCons(Attribute(source), [" trust="] + (["reported"] + later), "\"");
    JoinCons("<notes source=", [Attribute(source)] + ([" trust="] + (["reported"] + later)), "\"");
    FourBefore("<notes source=", Attribute(source), " trust=", "reported", later);
    OpeningRegrouped(Attribute(source), Inline(lead), ClaimsText(claims), end);
  }

  lemma FourBefore(a: string, b: string, c: string, d: string, later: seq<string>)
    ensures [a, b, c, d] + later == [a] + ([b] + ([c] + ([d] + later)))
  {
  }

  lemma OpeningRegrouped(a: string, lead: string, text: string, end: string)
    ensures "<notes source=" + "\""
            + (a + "\"" + (" trust=" + "\"" + ("reported" + "\"" + ((">\n  " + lead) + text + end))))
            == ("<notes source=\"" + a + "\" trust=\"" + "reported" + "\">") + ("\n" + INDENT + lead) + text + end
  {
    assert "<notes source=" + "\"" == "<notes source=\"" && "\"" + (" trust=" + "\"") == "\" trust=\"";
  }

  /** A run with its continuation indent taken off. */
  function Unrun(run: string): string {
    var lines := Split(run, '\n');
    Join([lines[0]] + Map(Outdent, lines[1..]), "\n")
  }

  function Outdent(line: string): string { RemovePrefix(line, INDENT + INDENT) }

  lemma UnrunIndented(t: string)
    ensures Unrun(Indented(t, INDENT + INDENT)) == t
  {
    hide Split, Join, Indented, Block;
    var pad, pieces := INDENT + INDENT, Split(t, '\n');
    IndentedIsBlock(t, pad);
    var rest := pieces[1..];
    JoinBlock(pieces[0], pad, rest);
    var lines := [pieces[0]] + Padded(pad, rest);
    assert OneLine(pad);
    forall x | x in lines ensures '\n' !in x {
      if x != pieces[0] {
        var k :| 0 <= k < |rest| && x == Padded(pad, rest)[k];
        assert x == pad + rest[k] && rest[k] == pieces[k + 1];
      }
    }
    SplitJoin(lines, '\n');
    assert lines[1..] == Padded(pad, rest);
    forall k | 0 <= k < |rest| ensures Outdent(Padded(pad, rest)[k]) == rest[k] {
      assert (pad + rest[k])[|pad|..] == rest[k];
    }
    assert Map(Outdent, Padded(pad, rest)) == rest;
    assert [pieces[0]] + rest == pieces;
    JoinSplit(t, '\n');
  }

  lemma QuotesSplit(claims: seq<Claim>, source: string, lead: string, omitted: int)
    requires claims != []
    ensures Split(FrameClaims(claims, source, lead, omitted), '"') == AllSegments(claims, source, lead, omitted)
  {
    hide Attribute, Inline, EndText, Segments, FrameClaims, Join, Split;
    AllSegmentsJoin(claims, source, lead, omitted);
    AttributeUnquoted(source);
    CarryUnquoted(lead);
    EndUnquoted(claims, omitted);
    SegmentsUnquoted(claims, ">\n  " + Inline(lead), EndText(claims, omitted));
    assert '"' !in "<notes source=" && '"' !in " trust=" && '"' !in "reported";
    SplitJoin(AllSegments(claims, source, lead, omitted), '"');
  }

  lemma AttributeUnquoted(value: string)
    ensures '"' !in Attribute(value)
  {
    hide Attribute;
    AttributeStays(value);
  }

  lemma CarryUnquoted(lead: string)
    ensures '"' !in ">\n  " + Inline(lead)
  {
    InlineInner(lead);
    hide Inline;
  }

  /**
   * Quotation marks say exactly where each claim starts and stops: cutting the block at them gives one run a claim,
   * in order, and taking the continuation indent off a run gives the claim's quoted body.
   */
  lemma ClaimsParseBack(claims: seq<Claim>, source: string, lead: string, omitted: int, i: nat)
    requires i < |claims|
    ensures var parts := Split(FrameClaims(claims, source, lead, omitted), '"');
            |parts| == 5 + 2 * |claims| && Unrun(parts[5 + 2 * i]) == Quoted(claims[i].body)
  {
    hide Attribute, Inline, EndText, Segments, FrameClaims, Split, Unrun, Quoted, Indented;
    QuotesSplit(claims, source, lead, omitted);
    SegmentIsRun(claims, ">\n  " + Inline(lead), EndText(claims, omitted), i);
    UnrunIndented(Quoted(claims[i].body));
  }

  // ------------------------------------------------------------ the tags

  lemma QuoteQuietly(value: string, b: string, r: string)
    requires Clean(ControlTag(), value) && Quiet(b, r)
    ensures Quiet("\"" + value + "\"" + b, r)
  {
    assert Bracketless("\"");
    hide Quiet, Clean, ControlTag, Parts, Bracketless;
    PlainFirst("\"", b, r);
    QuoteParts(value, b, r);
    ValueFirst(value, "\"" + b, r);
    PlainFirst("\"", value + ("\"" + b), r);
    Regroup4("\"", value, "\"", b);
  }

  lemma CommaFollows(a: string, b: string, r: string)
    requires b != "" && b[0] == ','
    ensures Parts(a, b + r) && !IsWord(b[0])
  {
    hide Parts;
    assert (b + r)[0] == ',';
    BlockerParts(a, b + r);
  }

  lemma NamedOriginFirst(source: string, b: string, r: string)
    requires b != "" && b[0] == ',' && Quiet(b, r)
    ensures Quiet("from " + Inline(source) + b, r)
  {
    hide Quiet, Inline, Bracketless, Tame, Clean, ControlTag, Parts;
    OriginPhrasesTame();
    TameIsInner("from ");
    ValuesAreClean(source);
    CommaFollows(Inline(source), b, r);
    ValueFirst(Inline(source), b, r);
    PlainFirst("from ", Inline(source) + b, r);
    Regroup3("from ", Inline(source), b);
  }

  lemma OriginFirst(source: string, b: string, r: string)
    requires b != "" && b[0] == ',' && Quiet(b, r)
    ensures Quiet(OriginOf(source) + b, r)
  {
    hide Quiet, Inline, Bracketless, Tame, Origins, SourceKey;
    OriginsTame();
    OriginPhrasesTame();
    if source == "" {
      TameIsInner(SOURCE_UNKNOWN);
      PlainFirst(SOURCE_UNKNOWN, b, r);
    } else if SourceKey(source) in Origins() {
      TameIsInner(Origins()[SourceKey(source)]);
      PlainFirst(Origins()[SourceKey(source)], b, r);
    } else {
      NamedOriginFirst(source, b, r);
    }
  }

  lemma MarginBracketless()
    ensures Bracketless("\n" + INDENT) && Bracketless("\n") && Bracketless(INDENT)
  {
  }

  lemma PreambleFirst(c: Claim, b: string, r: string)
    requires Quiet(b, r)
    ensures Quiet(Before(c) + b, r)
  {
    hide Quiet, Bracketless, Tame, Preamble, OriginOf, Recorded, Flagged;
    MarginBracketless();
    DatedFirst(c, b, r);
    FlaggedTame(c);
    TameIsInner(Flagged(c));
    var dated := ", " + Recorded(c.recorded) + ": ";
    PlainFirst(Flagged(c), OriginOf(c.source) + (dated + b), r);
    PreambleParts(c);
    Regroup4(Flagged(c), OriginOf(c.source), dated, b);
    PlainFirst("\n" + INDENT, Preamble(c) + b, r);
    Regroup3("\n" + INDENT, Preamble(c), b);
  }

  lemma DatedFirst(c: Claim, b: string, r: string)
    requires Quiet(b, r)
    ensures Quiet(OriginOf(c.source) + (", " + Recorded(c.recorded) + ": " + b), r)
  {
    hide Quiet, Bracketless, Tame, OriginOf, Recorded;
    var dated := ", " + Recorded(c.recorded) + ": ";
    DatedTame(c.recorded);
    TameIsInner(dated);
    PlainFirst(dated, b, r);
    assert (dated + b)[0] == ',';
    OriginFirst(c.source, dated + b, r);
  }

  lemma RunIsClean(c: Claim)
    ensures Clean(ControlTag(), Run(c))
  {
    hide Clean, ControlTag, Quoted, Indented;
    ValuesAreClean(c.body);
    IndentingIsClean(Quoted(c.body), INDENT + INDENT);
  }

  lemma ClaimFirst(c: Claim, b: string, r: string)
    requires Quiet(b, r)
    ensures Quiet(ClaimText(c) + b, r)
  {
    hide Quiet, Before, Run, Clean, ControlTag;
    RunIsClean(c);
    QuoteQuietly(Run(c), b, r);
    PreambleFirst(c, "\"" + Run(c) + "\"" + b, r);
    ClaimRegroupedFirst(Before(c), Run(c), b);
  }

  lemma ClaimRegroupedFirst(before: string, run: string, b: string)
    ensures before + ("\"" + run + "\"" + b) == before + "\"" + run + "\"" + b
  {
  }

  lemma {:induction false} ClaimsFirst(claims: seq<Claim>, b: string, r: string)
    requires Quiet(b, r)
    ensures Quiet(ClaimsText(claims) + b, r)
  {
    hide Quiet, ClaimText;
    if claims == [] {
      assert "" + b == b;
    } else {
      ClaimsFirst(claims[1..], b, r);
      ClaimFirst(claims[0], ClaimsText(claims[1..]) + b, r);
      Regroup3(ClaimText(claims[0]), ClaimsText(claims[1..]), b);
    }
  }

  /** The lead is followed by a claim's line, which begins with no name. */
  lemma LeadFirst(lead: string, claims: seq<Claim>, b: string, r: string)
    requires claims != [] && Quiet(ClaimsText(claims) + b, r)
    ensures Quiet("\n" + INDENT + Inline(lead) + (ClaimsText(claims) + b), r)
  {
    MarginBracketless();
    hide Quiet, Bracketless, Inline, Clean, ControlTag, Parts, ClaimsText;
    MarginBracketless();
    var text := ClaimsText(claims) + b;
    ValuesAreClean(lead);
    LeadParts(Inline(lead), claims, b, r);
    ValueFirst(Inline(lead), text, r);
    PlainFirst("\n" + INDENT, Inline(lead) + text, r);
    Regroup3("\n" + INDENT, Inline(lead), text);
  }

  lemma LeadParts(a: string, claims: seq<Claim>, b: string, r: string)
    requires claims != []
    ensures var text := ClaimsText(claims) + b; text != "" && !IsWord(text[0]) && Parts(a, text + r)
  {
    hide Parts, NoNameAt, Known, Qualified, Run;
    var text := ClaimsText(claims) + b;
    var later := Known(claims[0].trust) + "] " + Qualified(claims[0]) + ": " + "\"" + Run(claims[0]) + "\""
      + ClaimsText(claims[1..]) + b;
    hide ClaimsText;
    assert text == "\n  - [" + later by { TextStarts(claims, b); }
    assert (a + (text + r))[|a| + 3] == '-';
    NonWordNames(a + (text + r), |a| + 3);
    LineParts(a, text + r, 3);
  }

  lemma TextStarts(claims: seq<Claim>, b: string)
    requires claims != []
    ensures ClaimsText(claims) + b
            == "\n  - [" + (Known(claims[0].trust) + "] " + Qualified(claims[0]) + ": " + "\"" + Run(claims[0]) + "\""
      + ClaimsText(claims[1..]) + b)
  {
    hide Known, Qualified, Run;
    StartRegrouped(Known(claims[0].trust), Qualified(claims[0]), Run(claims[0]), ClaimsText(claims[1..]), b);
  }

  lemma StartRegrouped(k: string, q: string, run: string, rest: string, b: string)
    ensures "\n" + INDENT + ("- [" + k + "] " + q + ": ") + "\"" + run + "\"" + rest + b
            == "\n  - [" + (k + "] " + q + ": " + "\"" + run + "\"" + rest + b)
  {
  }

  lemma {:induction false} BlockBracketless(pad: string, lines: seq<string>)
    requires Bracketless(pad) && forall x | x in lines :: Bracketless(x)
    ensures Bracketless(Block(pad, lines))
  {
    MarginBracketless();
    hide Bracketless;
    if lines != [] {
      BlockBracketless(pad, lines[1..]);
      BracketlessAppend("\n", pad);
      BracketlessAppend("\n" + pad, lines[0]);
      BracketlessAppend("\n" + pad + lines[0], Block(pad, lines[1..]));
    } else {
      NothingBracketless();
    }
  }

  lemma NothingBracketless()
    ensures Bracketless("")
  {
  }

  lemma AfterwordFirst(claims: seq<Claim>, omitted: int)
    ensures Quiet(Block(INDENT, Afterword(claims, omitted)) + "\n", NOTES_END)
  {
    assert Bracketless(INDENT) && Bracketless("\n");
    hide Quiet, Afterword, Bracketless, Block, Tame;
    AfterwordStays(claims, omitted);
    forall x | x in Afterword(claims, omitted) ensures Bracketless(x) { TameIsInner(x); }
    BlockBracketless(INDENT, Afterword(claims, omitted));
    NoBracket("\n", NOTES_END);
    PlainFirst(Block(INDENT, Afterword(claims, omitted)), "\n", NOTES_END);
  }

  function NotesMiddle(claims: seq<Claim>, lead: string, omitted: int): string {
    "\n" + INDENT + Inline(lead) + (ClaimsText(claims) + (Block(INDENT, Afterword(claims, omitted)) + "\n"))
  }

  lemma MiddleQuiet(claims: seq<Claim>, lead: string, omitted: int)
    requires claims != []
    ensures Quiet(NotesMiddle(claims, lead, omitted), NOTES_END)
  {
    hide Quiet, Inline, ClaimsText, Block, Afterword;
    var after := Block(INDENT, Afterword(claims, omitted)) + "\n";
    AfterwordFirst(claims, omitted);
    ClaimsFirst(claims, after, NOTES_END);
    LeadFirst(lead, claims, after, NOTES_END);
  }

  lemma NotesText(claims: seq<Claim>, source: string, lead: string, omitted: int)
    requires claims != []
    ensures FrameClaims(claims, source, lead, omitted)
            == NotesOpening(source) + NotesMiddle(claims, lead, omitted) + NOTES_END
  {
    hide FrameClaims, NotesOpening, Inline, ClaimsText, Block, Afterword, NOTES_END;
    ClaimsFrameText(claims, source, lead, omitted);
    NotesRegrouped(NotesOpening(source), "\n" + INDENT + Inline(lead), ClaimsText(claims),
                   Block(INDENT, Afterword(claims, omitted)), NOTES_END);
  }

  lemma NotesRegrouped(a: string, b: string, c: string, d: string, e: string)
    ensures a + b + c + (d + "\n" + e) == a + (b + (c + (d + "\n"))) + e
  {
  }

  lemma NotesListed()
    ensures |ControlTags()| == 17 && ControlTags()[8] == "notes"
  {
  }

  /** The word `notes`, with something other than a word character after it, is one of the names. */
  lemma NotesNamed(t: string, i: nat)
    requires i + 5 < |t| && t[i..i + 5] == "notes" && !IsWord(t[i + 5])
    ensures Match(TagRest(), t, i, i + 5)
  {
    hide AnyWord, ControlTags, Word, Match;
    NotesListed();
    forall k | 0 <= k < |"notes"| ensures Lower(t[i + k]) == Lower("notes"[k]) {
      assert t[i + k] == t[i..i + 5][k];
    }
    WordStands("notes", t, i);
    AnyWordStands(ControlTags(), 8, t, i, i + 5);
    assert t[i + 4] == t[i..i + 5][4] == 's';
    NameStands(t, i, i + 5);
  }

  lemma NotesEndIsTag(p: nat)
    requires p < |NOTES_END|
    ensures HitAt(ControlTag(), NOTES_END, p) <==> p == 0
  {
    hide TagLead, TagRest, Match, ControlTag;
    LookShape();
    assert NOTES_END[2..7] == "notes" && NOTES_END[1] == '/' && NOTES_END[7] == '>';
    SlashLead(NOTES_END, 1);
    NotesNamed(NOTES_END, 2);
    TagHit(NOTES_END, 0, 2, 7);
    if p > 0 { NotTheAnchor(NOTES_END, p); }
  }

  lemma NotesOpeningIsTag(source: string, rest: string)
    ensures HitAt(ControlTag(), NotesOpening(source) + rest, 0)
  {
    var t, start := NotesOpening(source) + rest, "<notes source=\"";
    hide Attribute, TagLead, TagRest, Match, ControlTag;
    assert start[1..6] == "notes";
    assert t[1..6] == start[1..6] && t[6] == ' ' && t[0] == '<';
    EmptyLead(t, 1);
    NotesNamed(t, 1);
    hide NotesOpening;
    TagHit(t, 0, 1, 6);
  }

  lemma OpeningWords()
    ensures Bracketless("notes source=\"") && Bracketless("\" trust=\"")
  {
  }

  lemma ReportedWords()
    ensures Bracketless("reported") && Bracketless("\">")
  {
  }

  lemma NotesOpeningLacksMore(source: string)
    ensures NotesOpening(source) != "" && NotesOpening(source)[0] == '<' && Bracketless(NotesOpening(source)[1..])
  {
    hide Attribute, Bracketless;
    OpeningWords();
    ReportedWords();
    assert "<notes source=\"" == "<" + "notes source=\"";
    var a, head := Attribute(source), "notes source=\"";
    AttributeBracketless(source);
    BracketlessAppend(head, a);
    BracketlessAppend(head + a, "\" trust=\"");
    BracketlessAppend(head + a + "\" trust=\"", "reported");
    BracketlessAppend(head + a + "\" trust=\"" + "reported", "\">");
    Prepended(head, a, "\" trust=\"", "reported", "\">");
  }

  /** A block of claims holds a control tag at exactly two positions, its own two delimiters. */
  lemma ExactlyTwoNoteTags(claims: seq<Claim>, source: string, lead: string, omitted: int, p: nat)
    requires claims != []
    ensures var out := FrameClaims(claims, source, lead, omitted);
            HitAt(ControlTag(), out, p) <==> p == 0 || p == |out| - |NOTES_END|
  {
    hide NotesOpening, NotesMiddle, ControlTag, FrameClaims, HitAt, Quiet;
    NotesText(claims, source, lead, omitted);
    NotesOpeningLacksMore(source);
    NotesOpeningIsTag(source, NotesMiddle(claims, lead, omitted) + NOTES_END);
    MiddleQuiet(claims, lead, omitted);
    forall k | 0 <= k < |NOTES_END| ensures HitAt(ControlTag(), NOTES_END, k) <==> k == 0 { NotesEndIsTag(k); }
    TwoTags(NotesOpening(source), NotesMiddle(claims, lead, omitted), NOTES_END, p);
  }
}
