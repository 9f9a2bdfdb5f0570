/** Breaking out of a frame is not on offer: its control tags are its own two delimiters and no others. */
module Containment {
  import opened Patterns
  import opened Rules
  import opened Scrub
  import opened Framing

  // ------------------------------------------------------------ what a control tag looks like

  function TagRest(): Re { Cat(Namespace(), TagName()) }

  lemma TagHitShape(t: string, p: nat) returns (m: nat, n: nat)
    requires HitAt(ControlTag(), t, p)
    ensures p + 1 <= m <= n <= |t| && Match(TagLead(), t, p + 1, m) && Match(TagRest(), t, m, n)
  {
    hide TagLead, TagRest, Match;
    n := AheadEnd(ControlTag().look, t, p + 1);
    assert ControlTag().look == Cat(TagLead(), TagRest()) by { LookShape(); }
    m := CatSplit(TagLead(), TagRest(), t, p + 1, n);
  }

  lemma LookShape()
    ensures ControlTag().look == Cat(TagLead(), TagRest()) && ControlTag().front && ControlTag().anchor == '<'
  {
    hide AnyWord, ControlTags;
  }

  lemma TagHit(t: string, p: nat, m: nat, n: nat)
    requires p < |t| && t[p] == '<' && p + 1 <= m <= n <= |t|
    requires Match(TagLead(), t, p + 1, m) && Match(TagRest(), t, m, n)
    ensures HitAt(ControlTag(), t, p)
  {
    hide TagLead, TagRest, Match, ControlTag, HitAt;
    LookShape();
    CatJoin(TagLead(), TagRest(), t, p + 1, m, n);
    FrontHit(ControlTag(), t, p, n);
  }

  predicate LeadChar(c: char) { IsSpace(c) || c == '/' }

  predicate RestChar(c: char) { IsWord(c) || IsBlank(c) || c == '.' || c == '-' || c == ':' }

  lemma LeadChars(t: string, i: nat, j: nat)
    requires i <= j <= |t| && Match(TagLead(), t, i, j)
    ensures forall k | i <= k < j :: LeadChar(t[k])
  {
    var a := CatSplit(Many(Space), Cat(Opt(Ch(Exact('/'))), Many(Space)), t, i, j);
    var b := CatSplit(Opt(Ch(Exact('/'))), Many(Space), t, a, j);
  }

  /** The namespace part: nothing, or a name, blanks, a colon, blanks. */
  lemma NamespaceShape(t: string, i: nat, j: nat) returns (a: nat, b: nat)
    requires i <= j <= |t| && Match(Namespace(), t, i, j)
    ensures i == j || (i < a <= b < j && IsWord(t[i]) && (forall k | i < k < a :: In(NameChar, t[k]))
                       && (forall k | a <= k < b :: IsBlank(t[k])) && t[b] == ':'
                       && (forall k | b < k < j :: IsBlank(t[k])))
  {
    a, b := i, i;
    if i < j {
      var colon := Cat(Ch(Exact(':')), Many(Blank));
      var after := Cat(Many(Blank), colon);
      var x := CatSplit(Ch(WordStart), Cat(Many(NameChar), after), t, i, j);
      a := CatSplit(Many(NameChar), after, t, x, j);
      b := CatSplit(Many(Blank), colon, t, a, j);
      var y := CatSplit(Ch(Exact(':')), Many(Blank), t, b, j);
    }
  }

  lemma NameShape(t: string, i: nat, j: nat) returns (n: nat)
    requires i <= j <= |t| && Match(TagName(), t, i, j)
    ensures n < |ControlTags()| && j == i + |ControlTags()[n]|
    ensures forall k | 0 <= k < |ControlTags()[n]| :: Lower(t[i + k]) == Lower(ControlTags()[n][k])
  {
    hide AnyWord, ControlTags, Word;
    TagCount();
    var k := CatSplit(AnyWord(ControlTags()), Bound, t, i, j);
    n := AnyWordMatches(ControlTags(), t, i, k);
    WordMatches(ControlTags()[n], t, i, k);
  }

  lemma LowerWord(x: char, c: char)
    requires Lower(x) == Lower(c) && IsWord(c)
    ensures IsWord(x)
  {
  }

  /** Every name has at least four letters, and none begins like "reported". */
  predicate OddName(w: string) {
    |w| >= 4 && (Lower(w[0]) != 'r' || Lower(w[2]) != 'p')
  }

  lemma TagsAreOdd()
    ensures forall n | 0 <= n < |ControlTags()| :: OddName(ControlTags()[n]) && WordChars(ControlTags()[n])
  {
    TagsAreWords();
    hide WordChars;
  }

  /** What follows the lead: a stretch with no line break and no quotation mark, ending in a letter of the name. */
  lemma RestChars(t: string, m: nat, n: nat)
    requires m <= n <= |t| && Match(TagRest(), t, m, n)
    ensures m < n && IsWord(t[m]) && IsWord(t[n - 1]) && forall k | m <= k < n :: RestChar(t[k])
  {
    hide TagName, ControlTags, Namespace;
    var x := CatSplit(Namespace(), TagName(), t, m, n);
    var a, b := NamespaceShape(t, m, x);
    var w := NameShape(t, x, n);
    TagsAreOdd();
    forall k | x <= k < n ensures IsWord(t[k]) {
      assert OddName(ControlTags()[w]) && WordChars(ControlTags()[w]);
      assert Lower(t[x + (k - x)]) == Lower(ControlTags()[w][k - x]);
      LowerWord(t[k], ControlTags()[w][k - x]);
    }
  }

  // ------------------------------------------------------------ text that cannot join up with what follows

  /** The stretch a tag occupies: bracket at `p`, name (with its namespace) from `m` to `n`. */
  predicate TagSpan(t: string, p: nat, m: nat, n: nat) {
    p + 1 <= m <= n <= |t| && Match(TagLead(), t, p + 1, m) && Match(TagRest(), t, m, n)
  }

  /** The rest of the frame gives a tag opened in `a` nothing to end on. */
  ghost predicate Parts(a: string, r: string) {
    forall p: nat, m: nat, n: nat | p < |a| && TagSpan(a + r, p, m, n) :: n <= |a|
  }

  lemma CleanAt(a: string, p: nat)
    requires Clean(ControlTag(), a) && p < |a|
    ensures !HitAt(ControlTag(), a, p)
  {
    hide ControlTag, HitAt;
  }

  lemma TagWithin(a: string, r: string, p: nat)
    requires Parts(a, r) && (r == "" || !IsWord(r[0])) && p < |a| && HitAt(ControlTag(), a + r, p)
    ensures HitAt(ControlTag(), a, p)
  {
    hide TagLead, TagRest, Match;
    hide ControlTag, HitAt;
    var m, n := TagHitShape(a + r, p);
    assert TagSpan(a + r, p, m, n);
    PrefixMatch(TagLead(), a, r, p + 1, m);
    PrefixMatch(TagRest(), a, r, m, n);
    AnchoredHit(a + r, p);
    assert (a + r)[p] == a[p];
    TagHit(a, p, m, n);
  }

  lemma AnchoredHit(t: string, p: nat)
    requires HitAt(ControlTag(), t, p)
    ensures p < |t| && t[p] == '<'
  {
    hide ControlTag;
    LookShape();
  }

  /** When a text holds no tag of its own and parts from what follows, no tag begins in it. */
  lemma NoTagBegins(a: string, r: string, p: nat)
    requires Clean(ControlTag(), a) && Parts(a, r) && (r == "" || !IsWord(r[0])) && p < |a|
    ensures !HitAt(ControlTag(), a + r, p)
  {
    hide ControlTag, HitAt, Clean, Parts;
    CleanAt(a, p);
    if HitAt(ControlTag(), a + r, p) { TagWithin(a, r, p); }
  }

  lemma SpanChars(t: string, p: nat, m: nat, n: nat)
    requires TagSpan(t, p, m, n)
    ensures (forall k | p < k < m :: LeadChar(t[k])) && m < n && IsWord(t[m]) && IsWord(t[n - 1])
    ensures forall k | m <= k < n :: RestChar(t[k])
  {
    hide TagLead, TagRest, Match;
    LeadChars(t, p + 1, m);
    RestChars(t, m, n);
  }

  /** A character that no tag contains parts any two texts. */
  lemma BlockerParts(a: string, r: string)
    requires r != "" && !LeadChar(r[0]) && !RestChar(r[0])
    ensures Parts(a, r)
  {
    hide TagSpan;
    forall p: nat, m: nat, n: nat | p < |a| && TagSpan(a + r, p, m, n) ensures n <= |a| {
      SpanBound(a + r, p, m, n);
      SpanChars(a + r, p, m, n);
      assert (a + r)[|a|] == r[0];
    }
  }

  lemma SpanBound(t: string, p: nat, m: nat, n: nat)
    requires TagSpan(t, p, m, n)
    ensures p + 1 <= m <= n <= |t|
  {
    hide TagLead, TagRest;
  }

  /** So does a full stop at the end of a line. */
  lemma StopParts(a: string, r: string)
    requires |r| >= 2 && r[0] == '.' && r[1] == '\n'
    ensures Parts(a, r)
  {
    hide TagSpan;
    forall p: nat, m: nat, n: nat | p < |a| && TagSpan(a + r, p, m, n) ensures n <= |a| {
      SpanBound(a + r, p, m, n);
      SpanChars(a + r, p, m, n);
      assert (a + r)[|a|] == r[0] && (a + r)[|a| + 1] == r[1];
    }
  }

  /** No name, with or without a namespace, stands at `i`. */
  ghost predicate NoNameAt(t: string, i: nat) {
    forall n | i <= n <= |t| :: !Match(TagRest(), t, i, n)
  }

  /** A tag whose lead crosses to the next line would need its name where that line's text begins. */
  lemma CrossingTag(t: string, brk: nat, k: nat, p: nat, m: nat, n: nat)
    requires TagSpan(t, p, m, n) && p < brk < n && brk + k < |t| && t[brk] == '\n'
    requires (forall i | brk <= i < brk + k :: !IsWord(t[i])) && !LeadChar(t[brk + k])
    ensures m == brk + k
  {
    hide TagSpan;
    SpanBound(t, p, m, n);
    SpanChars(t, p, m, n);
  }

  /** So does a line that begins with something no tag can begin with. */
  lemma LineParts(a: string, r: string, k: nat)
    requires k < |r| && r[0] == '\n' && !LeadChar(r[k]) && forall i | 0 <= i < k :: !IsWord(r[i])
    requires NoNameAt(a + r, |a| + k)
    ensures Parts(a, r)
  {
    hide TagSpan, NoNameAt;
    assert (a + r)[|a|] == r[0] && (a + r)[|a| + k] == r[k];
    forall i | |a| <= i < |a| + k ensures !IsWord((a + r)[i]) { assert (a + r)[i] == r[i - |a|]; }
    forall p: nat, m: nat, n: nat | p < |a| && TagSpan(a + r, p, m, n) ensures n <= |a| {
      if |a| < n {
        CrossingTag(a + r, |a|, k, p, m, n);
        NamedThere(a + r, p, m, n);
      }
    }
  }

  lemma NamedThere(t: string, p: nat, m: nat, n: nat)
    requires TagSpan(t, p, m, n)
    ensures !NoNameAt(t, m)
  {
    hide TagRest, TagLead, Match;
  }

  lemma NonWordNames(t: string, i: nat)
    requires i <= |t| && (i < |t| ==> !IsWord(t[i]))
    ensures NoNameAt(t, i)
  {
    hide TagRest, Match;
    forall n | i <= n <= |t| ensures !Match(TagRest(), t, i, n) {
      if Match(TagRest(), t, i, n) { RestChars(t, i, n); }
    }
  }

  /** The closing line's first words stand at `i`. */
  predicate ReportedAt(t: string, i: nat) {
    && i + 12 <= |t| && t[i] == 'R' && t[i + 2] == 'p' && t[i + 8] == ' ' && t[i + 9] == 'b'
    && forall k | i <= k < i + 8 :: IsWord(t[k])
  }

  lemma ReportedThere(pre: string, post: string)
    ensures ReportedAt(pre + REPORTED_BY + post, |pre|)
  {
    var t := pre + REPORTED_BY + post;
    assert t[|pre|..|pre| + 12] == REPORTED_BY;
    assert forall k | 0 <= k < 8 :: IsWord(REPORTED_BY[k]);
    forall k | |pre| <= k < |pre| + 8 ensures IsWord(t[k]) { assert t[k] == REPORTED_BY[k - |pre|]; }
  }

  /** The closing line's first words are no tag. */
  lemma ReportedIsNoName(t: string, i: nat)
    requires ReportedAt(t, i)
    ensures NoNameAt(t, i)
  {
    hide TagRest, Match, ReportedAt;
    forall n | i <= n <= |t| ensures !Match(TagRest(), t, i, n) {
      if Match(TagRest(), t, i, n) {
        var x := NameAfterNamespace(t, i, n);
        ReportedNamespace(t, i, x);
        ReportedName(t, i, n);
      }
    }
  }

  lemma NameAfterNamespace(t: string, i: nat, n: nat) returns (x: nat)
    requires i <= n <= |t| && Match(TagRest(), t, i, n)
    ensures i <= x <= n && Match(Namespace(), t, i, x) && Match(TagName(), t, x, n)
  {
    hide Namespace, TagName, Match;
    x := CatSplit(Namespace(), TagName(), t, i, n);
  }

  lemma ReportedNamespace(t: string, i: nat, x: nat)
    requires ReportedAt(t, i) && i <= x <= |t| && Match(Namespace(), t, i, x)
    ensures x == i
  {
    hide Namespace, Match;
    var a, b := NamespaceShape(t, i, x);
  }

  lemma ReportedName(t: string, i: nat, n: nat)
    requires ReportedAt(t, i) && i <= n <= |t|
    ensures !Match(TagName(), t, i, n)
  {
    hide TagName, Match, ControlTags, WordChars;
    if Match(TagName(), t, i, n) {
      var w := NameShape(t, i, n);
      TagsAreOdd();
      NotReported(ControlTags()[w], t, i);
    }
  }

  lemma NotReported(w: string, t: string, i: nat)
    requires OddName(w) && ReportedAt(t, i) && i + |w| <= |t|
    ensures !(forall k | 0 <= k < |w| :: Lower(t[i + k]) == Lower(w[k]))
  {
    var k := if Lower(w[0]) != 'r' then 0 else 2;
    assert Lower(t[i + k]) != Lower(w[k]);
  }

  // ------------------------------------------------------------ the escaped values hold no tag

  lemma FenceIsClean(t: string)
    ensures Clean(ControlTag(), Fence(t)) && Sound(ControlTag())
  {
    hide Fence, Clean, Sound, ControlTag;
    FenceCleans(t);
    RulesSound();
    assert ControlTag() in AllRules() by { ControlTagListed(); }
  }

  lemma ControlTagListed()
    ensures ControlTag() in AllRules()
  {
    hide ControlTag;
    assert AllRules()[0] == ControlTag();
  }

  lemma SwapStaysClean(t: string, c: char, e: string)
    requires Clean(ControlTag(), t) && Sound(ControlTag()) && Entity(e) && !IsWord(c)
    ensures Clean(ControlTag(), Swap(t, c, e))
  {
    hide Clean, Sound, ControlTag;
    CleanStays(ControlTag(), t, SwapReps(t, c, e));
  }

  lemma ValuesAreClean(t: string)
    ensures Clean(ControlTag(), Quoted(t)) && Clean(ControlTag(), Inline(t))
  {
    hide Clean, Sound, ControlTag, Fence, Swap;
    assert Entity("&quot;") && Entity("&#13;") && Entity("&#10;");
    FenceIsClean(t);
    SwapStaysClean(Fence(t), '"', "&quot;");
    SwapStaysClean(Quoted(t), '\r', "&#13;");
    SwapStaysClean(Swap(Quoted(t), '\r', "&#13;"), '\n', "&#10;");
  }

  lemma TagStepsNoSpace()
    ensures StepsNoSpace(TagLead()) && StepsNoSpace(TagRest())
  {
    hide AnyWord, ControlTags, WordChars;
    TagsAreWords();
    TagCount();
    AnyWordSteps(ControlTags());
  }

  lemma {:induction false} AnyWordSteps(ws: seq<string>)
    requires ws != [] && forall k | 0 <= k < |ws| :: WordChars(ws[k])
    ensures StepsNoSpace(AnyWord(ws))
  {
    hide WordChars, Word;
    WordSteps(ws[0]);
    if |ws| > 1 { AnyWordSteps(ws[1..]); }
  }

  lemma {:induction false} WordSteps(w: string)
    requires WordChars(w)
    ensures StepsNoSpace(Word(w))
  {
    if w != "" {
      assert IsWord(w[0]);
      WordSteps(w[1..]);
    }
  }

  /** Indenting a text after each of its line breaks makes no new tag. */
  lemma IndentingIsClean(t: string, pad: string)
    requires Clean(ControlTag(), t) && Spaces(pad)
    ensures Clean(ControlTag(), Indented(t, pad))
  {
    hide ControlTag, HitAt, Indented;
    forall q | 0 <= q < |Indented(t, pad)| ensures !HitAt(ControlTag(), Indented(t, pad), q) {
      if HitAt(ControlTag(), Indented(t, pad), q) {
        var p := TagUnindented(t, pad, q);
      }
    }
  }

  lemma TagUnindented(t: string, pad: string, q: nat) returns (p: nat)
    requires Spaces(pad) && HitAt(ControlTag(), Indented(t, pad), q)
    ensures p < |t| && HitAt(ControlTag(), t, p)
  {
    hide TagLead, TagRest, Match, Indented, Maps, ControlTag, HitAt;
    AnchoredHit(Indented(t, pad), q);
    var m, n := TagHitShape(Indented(t, pad), q);
    TagStepsNoSpace();
    p := MapsExists(t, pad, q);
    var p1 := MapsExists(t, pad, q + 1);
    IndentedStep(t, pad, q, p, p1);
    var pm := MapsExists(t, pad, m);
    var pn := MapsExists(t, pad, n);
    IndentedMatch(TagLead(), t, pad, q + 1, m, p1, pm);
    IndentedMatch(TagRest(), t, pad, m, n, pm, pn);
    MapsBound(t, pad, n, pn);
    TagHit(t, p, pm, pn);
  }
}
