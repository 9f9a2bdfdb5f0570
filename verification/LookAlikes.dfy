/**
 * What the scrub rules catch, spelt out in characters: where each look-alike stands, that fencing escapes exactly those
 * characters, that it leaves none, and that it names each kind it found.
 */
module LookAlikes {
  import opened Patterns
  import opened Rules
  import opened Scrub
  import opened OnePass

  // ------------------------------------------------------------ characters and words

  predicate Blanks(t: string, i: nat, j: nat) {
    i <= j <= |t| && forall k | i <= k < j :: t[k] == ' ' || t[k] == '\t'
  }

  predicate Spaces(t: string, i: nat, j: nat) {
    i <= j <= |t| && forall k | i <= k < j :: t[k] == ' ' || 9 <= t[k] as int <= 13 || 28 <= t[k] as int <= 31
  }

  predicate Letter(c: char) { 'a' <= c <= 'z' || 'A' <= c <= 'Z' }

  predicate WordChar(c: char) { Letter(c) || '0' <= c <= '9' || c == '_' }

  function Capital(c: char): char { if 'a' <= c <= 'z' then (c as int - 32) as char else c }

  /** The word, given in small letters, stands there in any case. */
  predicate Spelt(t: string, i: nat, w: string) {
    i + |w| <= |t| && forall k | 0 <= k < |w| :: t[i + k] == w[k] || t[i + k] == Capital(w[k])
  }

  predicate NoWordBefore(t: string, i: nat) { i == 0 || (i <= |t| && !WordChar(t[i - 1])) }

  predicate NoWordAfter(t: string, j: nat) { j == |t| || (j < |t| && !WordChar(t[j])) }

  // ------------------------------------------------------------ the six kinds

  const TAG_NAMES: seq<string> :=
    ["assistant", "conversation", "function_calls", "function_results", "harness", "human", "instructions", "lucy",
     "notes", "persona_notes", "result", "results", "system", "thinking", "tool_result", "tool_use", "turn"]

  const ROLES: seq<string> := ["human", "assistant", "system"]

  /** Spaces, perhaps a slash, spaces. */
  ghost predicate OpensTo(t: string, a: nat, d: nat) {
    exists b: nat, c: nat | a <= b <= c <= d <= |t| ::
      Spaces(t, a, b) && (c == b || (c == b + 1 && t[b] == '/')) && Spaces(t, c, d)
  }

  /** Nothing, or a name and a colon, with blanks on either side of the colon. */
  ghost predicate PrefixTo(t: string, d: nat, i: nat) {
    d == i || exists e: nat, f: nat | d < e <= f < i <= |t| :: PrefixParts(t, d, e, f, i)
  }

  predicate PrefixParts(t: string, d: nat, e: nat, f: nat, i: nat)
    requires d < e <= f < i <= |t|
  {
    && (Letter(t[d]) || t[d] == '_') && (forall k | d < k < e :: WordChar(t[k]) || t[k] == '.' || t[k] == '-')
    && Blanks(t, e, f) && t[f] == ':' && Blanks(t, f + 1, i)
  }

  ghost predicate NamesTag(t: string, i: nat) {
    exists w | w in TAG_NAMES :: Spelt(t, i, w) && NoWordAfter(t, i + |w|)
  }

  /** A tag of the harness's own: `<`, perhaps closing, perhaps with a namespace, and one of its names. */
  ghost predicate TagAt(t: string, p: nat) {
    p < |t| && t[p] == '<' && exists d: nat, i: nat | p < d <= i <= |t| ::
      OpensTo(t, p + 1, d) && PrefixTo(t, d, i) && NamesTag(t, i)
  }

  predicate TokenAt(t: string, p: nat) { p + 1 < |t| && t[p] == '<' && t[p + 1] == '|' }

  /** The colon of a turn marker: a role, standing as a word of its own, and blanks before it. */
  ghost predicate TurnAt(t: string, p: nat) {
    p < |t| && t[p] == ':' && exists w, i: nat | w in ROLES && i + |w| <= p ::
      NoWordBefore(t, i) && Spelt(t, i, w) && Blanks(t, i + |w|, p)
  }

  /** `[harness:`, with blanks anywhere between. */
  ghost predicate HarnessAt(t: string, p: nat) {
    p < |t| && t[p] == '[' && exists i: nat, j: nat | i + 7 <= j < |t| ::
      Blanks(t, p + 1, i) && Spelt(t, i, "harness") && Blanks(t, i + 7, j) && t[j] == ':'
  }

  /** `[... showing`, with blanks anywhere between. */
  ghost predicate ElisionAt(t: string, p: nat) {
    p < |t| && t[p] == '[' && exists i: nat, j: nat | i + 3 <= j <= |t| ::
      Blanks(t, p + 1, i) && t[i] == '.' && t[i + 1] == '.' && t[i + 2] == '.' && Blanks(t, i + 3, j)
      && Spelt(t, j, "showing") && NoWordAfter(t, j + 7)
  }

  /** `--- live state` or `--- end live state`: the first of the three hyphens. */
  ghost predicate LiveAt(t: string, p: nat) {
    p + 2 < |t| && t[p] == '-' && t[p + 1] == '-' && t[p + 2] == '-' && exists i: nat, j: nat | i <= j <= |t| ::
      Blanks(t, p + 3, i) && Ends(t, i, j) && NamesLive(t, j)
  }

  /** Nothing, or the word `end` and a blank. */
  predicate Ends(t: string, i: nat, j: nat) {
    i == j || (Spelt(t, i, "end") && i + 3 < j && Blanks(t, i + 3, j))
  }

  ghost predicate NamesLive(t: string, j: nat) {
    Spelt(t, j, "live") && exists k: nat | j + 4 < k <= |t| ::
      Blanks(t, j + 4, k) && Spelt(t, k, "state") && NoWordAfter(t, k + 5)
  }

  // ------------------------------------------------------------ patterns in characters

  predicate Small(w: string) { forall k | 0 <= k < |w| :: 'a' <= w[k] <= 'z' || w[k] == '_' }

  lemma CaseExactly(x: char, c: char)
    requires 'a' <= c <= 'z' || c == '_'
    ensures Lower(x) == Lower(c) <==> x == c || x == Capital(c)
    ensures x == c || x == Capital(c) ==> IsWord(x)
  {
  }

  lemma WordCharExactly(c: char)
    ensures IsWord(c) <==> WordChar(c)
  {
  }

  lemma BlanksExactly(t: string, i: nat, j: nat)
    requires i <= j <= |t|
    ensures Match(Many(Blank), t, i, j) <==> Blanks(t, i, j)
    ensures Match(Many(Space), t, i, j) <==> Spaces(t, i, j)
  {
    if Match(Many(Blank), t, i, j) {
      forall k | i <= k < j ensures t[k] == ' ' || t[k] == '\t' { assert In(Blank, t[k]); }
    }
    if Match(Many(Space), t, i, j) {
      forall k | i <= k < j ensures t[k] == ' ' || 9 <= t[k] as int <= 13 || 28 <= t[k] as int <= 31 {
        assert In(Space, t[k]);
      }
    }
  }

  lemma SpeltExactly(w: string, t: string, i: nat, j: nat)
    requires Small(w) && i <= j <= |t|
    ensures Match(Word(w), t, i, j) <==> j == i + |w| && Spelt(t, i, w)
  {
    hide Word, Match, Lower, Capital;
    if Match(Word(w), t, i, j) {
      WordMatches(w, t, i, j);
      forall k | 0 <= k < |w| ensures t[i + k] == w[k] || t[i + k] == Capital(w[k]) { CaseExactly(t[i + k], w[k]); }
    }
    if j == i + |w| && Spelt(t, i, w) {
      forall k | 0 <= k < |w| ensures Lower(t[i + k]) == Lower(w[k]) { CaseExactly(t[i + k], w[k]); }
      WordStands(w, t, i);
    }
  }

  lemma SpeltIsWord(t: string, i: nat, w: string, k: nat)
    requires Small(w) && Spelt(t, i, w) && k < |w|
    ensures WordChar(t[i + k])
  {
    CaseExactly(t[i + k], w[k]);
  }

  lemma OneOfExactly(ws: seq<string>, t: string, i: nat, j: nat)
    requires ws != [] && i <= j <= |t| && forall w | w in ws :: Small(w)
    ensures Match(AnyWord(ws), t, i, j) <==> exists w | w in ws :: j == i + |w| && Spelt(t, i, w)
  {
    hide AnyWord, Word, Match, Spelt, Small;
    if Match(AnyWord(ws), t, i, j) {
      var n := AnyWordMatches(ws, t, i, j);
      assert ws[n] in ws;
      SpeltExactly(ws[n], t, i, j);
    }
    if w :| w in ws && j == i + |w| && Spelt(t, i, w) {
      var n :| 0 <= n < |ws| && ws[n] == w;
      SpeltExactly(w, t, i, j);
      AnyWordStands(ws, n, t, i, j);
    }
  }

  lemma AfterWord(t: string, j: nat)
    requires 0 < j <= |t| && WordChar(t[j - 1])
    ensures Boundary(t, j) <==> NoWordAfter(t, j)
  {
  }

  lemma BeforeWord(t: string, i: nat)
    requires i < |t| && WordChar(t[i])
    ensures Boundary(t, i) <==> NoWordBefore(t, i)
  {
  }

  /** A word and the edge after it. */
  lemma WordThenEdge(w: string, t: string, i: nat, j: nat)
    requires Small(w) && w != "" && i <= j <= |t|
    ensures Match(Cat(Word(w), Bound), t, i, j) <==> j == i + |w| && Spelt(t, i, w) && NoWordAfter(t, j)
  {
    hide Word, Spelt, Small, Boundary, NoWordAfter;
    SpeltExactly(w, t, i, j);
    if Match(Cat(Word(w), Bound), t, i, j) {
      var k := CatSplit(Word(w), Bound, t, i, j);
      SpeltEdge(t, i, w);
      AfterWord(t, j);
    }
    if j == i + |w| && Spelt(t, i, w) && NoWordAfter(t, j) {
      SpeltEdge(t, i, w);
      AfterWord(t, j);
      CatJoin(Word(w), Bound, t, i, j, j);
    }
  }

  lemma SpeltEdge(t: string, i: nat, w: string)
    requires Small(w) && w != "" && Spelt(t, i, w)
    ensures i + |w| <= |t| && WordChar(t[i]) && WordChar(t[i + |w| - 1])
  {
    SpeltIsWord(t, i, w, 0);
    SpeltIsWord(t, i, w, |w| - 1);
  }

  // ------------------------------------------------------------ each kind is its rule

  lemma TokenExactly(t: string, p: nat)
    ensures HitAt(SpecialToken(), t, p) <==> TokenAt(t, p)
  {
    if TokenAt(t, p) { assert Match(Ch(Exact('|')), t, p + 1, p + 2); }
  }

  lemma HarnessHits(t: string, p: nat)
    requires HarnessAt(t, p)
    ensures HitAt(HarnessMarker(), t, p)
  {
    hide HarnessMarker, Match, Blanks, Spelt;
    var i: nat, j: nat :| i + 7 <= j < |t|
      && Blanks(t, p + 1, i) && Spelt(t, i, "harness") && Blanks(t, i + 7, j) && t[j] == ':';
    BlanksBound(t, p + 1, i);
    HarnessLook(t, p, i, j);
    FrontHit(HarnessMarker(), t, p, j + 1);
  }

  lemma HarnessLook(t: string, p: nat, i: nat, j: nat)
    requires p < |t| && t[p] == '[' && i + 7 <= j < |t| && t[j] == ':'
    requires Blanks(t, p + 1, i) && Spelt(t, i, "harness") && Blanks(t, i + 7, j)
    ensures p < i && HarnessMarker().front && HarnessMarker().anchor == '['
    ensures Match(HarnessMarker().look, t, p + 1, j + 1)
  {
    hide Word, Match, Blanks, Spelt;
    BlanksBound(t, p + 1, i);
    BlanksExactly(t, p + 1, i);
    BlanksExactly(t, i + 7, j);
    SpeltExactly("harness", t, i, i + 7);
    ColonExactly(t, j);
    var colon := Ch(Exact(':'));
    CatJoin(Many(Blank), colon, t, i + 7, j, j + 1);
    CatJoin(Word("harness"), Cat(Many(Blank), colon), t, i, i + 7, j + 1);
    CatJoin(Many(Blank), Cat(Word("harness"), Cat(Many(Blank), colon)), t, p + 1, i, j + 1);
  }

  lemma BlanksBound(t: string, i: nat, j: nat)
    requires Blanks(t, i, j)
    ensures i <= j <= |t|
  {
  }

  lemma ColonExactly(t: string, j: nat)
    requires j < |t|
    ensures Match(Ch(Exact(':')), t, j, j + 1) <==> t[j] == ':'
  {
  }

  lemma HarnessFound(t: string, p: nat)
    requires HitAt(HarnessMarker(), t, p)
    ensures HarnessAt(t, p)
  {
    hide Word, Match, Blanks, Spelt;
    var colon := Ch(Exact(':'));
    var n := FrontHitEnd(HarnessMarker(), t, p);
    var i := CatSplit(Many(Blank), Cat(Word("harness"), Cat(Many(Blank), colon)), t, p + 1, n);
    var k := CatSplit(Word("harness"), Cat(Many(Blank), colon), t, i, n);
    var j := CatSplit(Many(Blank), colon, t, k, n);
    BlanksExactly(t, p + 1, i);
    SpeltExactly("harness", t, i, k);
    BlanksExactly(t, k, j);
    OneChar(':', t, j, n);
  }

  lemma OneChar(c: char, t: string, i: nat, j: nat)
    requires i <= j <= |t| && Match(Ch(Exact(c)), t, i, j)
    ensures j == i + 1 && t[i] == c
  {
  }

  lemma RolesAreSmall()
    ensures ROLES == TurnRoles() && ROLES != [] && forall w | w in ROLES :: Small(w) && w != ""
  {
    assert Small("human") && Small("assistant") && Small("system");
  }

  lemma TurnHits(t: string, p: nat)
    requires TurnAt(t, p)
    ensures HitAt(TurnMarker(), t, p)
  {
    RolesAreSmall();
    hide Word, AnyWord, Match, Blanks, Spelt, Small, NoWordBefore, TurnRoles, Boundary;
    var w, i: nat :| w in ROLES && i + |w| <= p && NoWordBefore(t, i) && Spelt(t, i, w) && Blanks(t, i + |w|, p);
    var k, role := i + |w|, AnyWord(TurnRoles());
    SpeltEdge(t, i, w);
    BeforeWord(t, i);
    OneOfExactly(ROLES, t, i, k);
    BlanksExactly(t, k, p);
    assert Match(Bound, t, i, i) by { EdgeMatches(t, i); }
    CatJoin(role, Many(Blank), t, i, k, p);
    CatJoin(Bound, Cat(role, Many(Blank)), t, i, i, p);
    BackHit(TurnMarker(), t, i, p);
  }

  lemma EdgeMatches(t: string, i: nat)
    requires i <= |t|
    ensures Match(Bound, t, i, i) <==> Boundary(t, i)
  {
  }

  lemma TurnFound(t: string, p: nat)
    requires HitAt(TurnMarker(), t, p)
    ensures TurnAt(t, p)
  {
    RolesAreSmall();
    hide Word, AnyWord, Match, Blanks, Spelt, Small, NoWordBefore, TurnRoles, Boundary;
    var role := AnyWord(TurnRoles());
    var i := BackHitStart(TurnMarker(), t, p);
    var m := CatSplit(Bound, Cat(role, Many(Blank)), t, i, p);
    var k := CatSplit(role, Many(Blank), t, m, p);
    assert m == i && Boundary(t, i) by { EdgeOnly(t, i, m); }
    OneOfExactly(ROLES, t, i, k);
    var w :| w in ROLES && k == i + |w| && Spelt(t, i, w);
    SpeltEdge(t, i, w);
    BeforeWord(t, i);
    BlanksExactly(t, k, p);
  }

  lemma EdgeOnly(t: string, i: nat, j: nat)
    requires i <= j <= |t| && Match(Bound, t, i, j)
    ensures i == j && Boundary(t, i)
  {
  }

  lemma Dots(t: string, i: nat, j: nat)
    requires i <= j <= |t|
    ensures Match(Literal("..."), t, i, j) <==> j == i + 3 && t[i] == '.' && t[i + 1] == '.' && t[i + 2] == '.'
  {
    if j == i + 3 && t[i] == '.' && t[i + 1] == '.' && t[i + 2] == '.' {
      assert t[i..i + 3] == "...";
      LiteralMatches("...", t, i);
    }
    if Match(Literal("..."), t, i, j) { LiteralStands("...", t, i, j); }
  }

  lemma ElisionHits(t: string, p: nat)
    requires ElisionAt(t, p)
    ensures HitAt(ElisionMarker(), t, p)
  {
    hide ElisionMarker, HitAt, Blanks, Spelt, NoWordAfter;
    var i: nat, j: nat :| i + 3 <= j <= |t|
      && Blanks(t, p + 1, i) && t[i] == '.' && t[i + 1] == '.' && t[i + 2] == '.' && Blanks(t, i + 3, j)
      && Spelt(t, j, "showing") && NoWordAfter(t, j + 7);
    ElisionStands(t, p, i, j);
  }

  lemma ElisionStands(t: string, p: nat, i: nat, j: nat)
    requires p < |t| && t[p] == '[' && i + 3 <= j <= |t| && Blanks(t, p + 1, i) && Blanks(t, i + 3, j)
    requires t[i] == '.' && t[i + 1] == '.' && t[i + 2] == '.' && Spelt(t, j, "showing") && NoWordAfter(t, j + 7)
    ensures HitAt(ElisionMarker(), t, p)
  {
    hide Word, Literal, Match, Blanks, Spelt, NoWordAfter, HitAt;
    BlanksBound(t, p + 1, i);
    SpeltBound(t, j, "showing");
    BlanksExactly(t, p + 1, i);
    Dots(t, i, i + 3);
    BlanksExactly(t, i + 3, j);
    WordThenEdge("showing", t, j, j + 7);
    var showing := Cat(Word("showing"), Bound);
    CatJoin(Many(Blank), showing, t, i + 3, j, j + 7);
    CatJoin(Literal("..."), Cat(Many(Blank), showing), t, i, i + 3, j + 7);
    CatJoin(Many(Blank), Cat(Literal("..."), Cat(Many(Blank), showing)), t, p + 1, i, j + 7);
    FrontHit(ElisionMarker(), t, p, j + 7);
  }

  lemma SpeltBound(t: string, i: nat, w: string)
    requires Spelt(t, i, w)
    ensures i + |w| <= |t|
  {
  }

  lemma ElisionFound(t: string, p: nat)
    requires HitAt(ElisionMarker(), t, p)
    ensures ElisionAt(t, p)
  {
    hide Word, Literal, Match, Blanks, Spelt, NoWordAfter;
    var showing := Cat(Word("showing"), Bound);
    var n := FrontHitEnd(ElisionMarker(), t, p);
    var i := CatSplit(Many(Blank), Cat(Literal("..."), Cat(Many(Blank), showing)), t, p + 1, n);
    var k := CatSplit(Literal("..."), Cat(Many(Blank), showing), t, i, n);
    var j := CatSplit(Many(Blank), showing, t, k, n);
    BlanksExactly(t, p + 1, i);
    Dots(t, i, k);
    BlanksExactly(t, k, j);
    WordThenEdge("showing", t, j, n);
  }

  // ------------------------------------------------------------ the live block's lines

  lemma SomeBlanksExactly(t: string, i: nat, j: nat)
    requires i <= j <= |t|
    ensures Match(SomeBlanks(), t, i, j) <==> i < j && Blanks(t, i, j)
  {
    if Match(SomeBlanks(), t, i, j) {
      var k := CatSplit(Ch(Blank), Many(Blank), t, i, j);
      BlanksExactly(t, k, j);
    }
    if i < j && Blanks(t, i, j) {
      BlanksExactly(t, i + 1, j);
      CatJoin(Ch(Blank), Many(Blank), t, i, i + 1, j);
    }
  }

  lemma LiveStateExactly(t: string, j: nat, n: nat)
    requires j <= n <= |t|
    ensures Match(LiveState(), t, j, n) ==> NamesLive(t, j)
  {
    hide Word, Match, SomeBlanks, Blanks, Spelt, NoWordAfter;
    var state := Cat(Word("state"), Bound);
    if Match(LiveState(), t, j, n) {
      var m := CatSplit(Word("live"), Cat(SomeBlanks(), state), t, j, n);
      var k := CatSplit(SomeBlanks(), state, t, m, n);
      SpeltExactly("live", t, j, m);
      SomeBlanksExactly(t, m, k);
      WordThenEdge("state", t, k, n);
    }
  }

  lemma LiveStateStands(t: string, j: nat) returns (n: nat)
    requires NamesLive(t, j)
    ensures j <= n <= |t| && Match(LiveState(), t, j, n)
  {
    hide Word, Match, SomeBlanks, Blanks, Spelt, NoWordAfter;
    var k: nat :| j + 4 < k <= |t| && Blanks(t, j + 4, k) && Spelt(t, k, "state") && NoWordAfter(t, k + 5);
    var state := Cat(Word("state"), Bound);
    SpeltBound(t, k, "state");
    n := k + 5;
    SpeltExactly("live", t, j, j + 4);
    SomeBlanksExactly(t, j + 4, k);
    WordThenEdge("state", t, k, n);
    CatJoin(SomeBlanks(), state, t, j + 4, k, n);
    CatJoin(Word("live"), Cat(SomeBlanks(), state), t, j, j + 4, n);
  }

  function Ending(): Re { Opt(Cat(Word("end"), SomeBlanks())) }

  lemma OptExactly(re: Re, t: string, i: nat, j: nat)
    requires i <= j <= |t|
    ensures Match(Opt(re), t, i, j) <==> Match(re, t, i, j) || i == j
  {
  }

  lemma EndWordExactly(t: string, i: nat, j: nat)
    requires i <= j <= |t|
    ensures Match(Cat(Word("end"), SomeBlanks()), t, i, j)
            <==> Spelt(t, i, "end") && i + 3 < j && Blanks(t, i + 3, j)
  {
    hide Word, SomeBlanks, Blanks, Spelt, Match;
    if Match(Cat(Word("end"), SomeBlanks()), t, i, j) {
      var k := CatSplit(Word("end"), SomeBlanks(), t, i, j);
      SpeltExactly("end", t, i, k);
      SomeBlanksExactly(t, k, j);
    }
    if Spelt(t, i, "end") && i + 3 < j && Blanks(t, i + 3, j) {
      SpeltExactly("end", t, i, i + 3);
      SomeBlanksExactly(t, i + 3, j);
      CatJoin(Word("end"), SomeBlanks(), t, i, i + 3, j);
    }
  }

  lemma EndingExactly(t: string, i: nat, j: nat)
    requires i <= j <= |t|
    ensures Match(Ending(), t, i, j) <==> Ends(t, i, j)
  {
    hide Word, SomeBlanks, Blanks, Spelt, Match;
    OptExactly(Cat(Word("end"), SomeBlanks()), t, i, j);
    EndWordExactly(t, i, j);
  }

  lemma Hyphens(t: string, i: nat, j: nat)
    requires i <= j <= |t|
    ensures Match(Literal("--"), t, i, j) <==> j == i + 2 && t[i] == '-' && t[i + 1] == '-'
  {
    if j == i + 2 && t[i] == '-' && t[i + 1] == '-' {
      assert t[i..i + 2] == "--";
      LiteralMatches("--", t, i);
    }
    if Match(Literal("--"), t, i, j) { LiteralStands("--", t, i, j); }
  }

  lemma LiveHits(t: string, p: nat)
    requires LiveAt(t, p)
    ensures HitAt(LiveStateFence(), t, p)
  {
    hide Match, Literal, LiveState, Word, SomeBlanks, Blanks, Spelt, NamesLive;
    var i: nat, j: nat :| i <= j <= |t| && Blanks(t, p + 3, i) && Ends(t, i, j) && NamesLive(t, j);
    var n := LiveStateStands(t, j);
    BlanksBound(t, p + 3, i);
    Hyphens(t, p + 1, p + 3);
    BlanksExactly(t, p + 3, i);
    EndingExactly(t, i, j);
    CatJoin(Ending(), LiveState(), t, i, j, n);
    CatJoin(Many(Blank), Cat(Ending(), LiveState()), t, p + 3, i, n);
    CatJoin(Literal("--"), Cat(Many(Blank), Cat(Ending(), LiveState())), t, p + 1, p + 3, n);
    FrontHit(LiveStateFence(), t, p, n);
  }

  lemma LiveFound(t: string, p: nat)
    requires HitAt(LiveStateFence(), t, p)
    ensures LiveAt(t, p)
  {
    hide Match, Literal, LiveState, Word, SomeBlanks, Blanks, Spelt, NamesLive;
    var n := FrontHitEnd(LiveStateFence(), t, p);
    var k := CatSplit(Literal("--"), Cat(Many(Blank), Cat(Ending(), LiveState())), t, p + 1, n);
    var i := CatSplit(Many(Blank), Cat(Ending(), LiveState()), t, k, n);
    var j := CatSplit(Ending(), LiveState(), t, i, n);
    Hyphens(t, p + 1, k);
    BlanksExactly(t, k, i);
    EndingExactly(t, i, j);
    LiveStateExactly(t, j, n);
    assert Ends(t, i, j);
  }

  // ------------------------------------------------------------ the harness's own tags

  lemma OpensExactly(t: string, a: nat, d: nat)
    requires a <= d <= |t|
    ensures Match(TagLead(), t, a, d) <==> OpensTo(t, a, d)
  {
    hide Match, Spaces;
    var slash := Opt(Ch(Exact('/')));
    if Match(TagLead(), t, a, d) {
      var b := CatSplit(Many(Space), Cat(slash, Many(Space)), t, a, d);
      var c := CatSplit(slash, Many(Space), t, b, d);
      BlanksExactly(t, a, b);
      SlashExactly(t, b, c);
      BlanksExactly(t, c, d);
    }
    if b: nat, c: nat :| a <= b <= c <= d && Spaces(t, a, b)
                         && (c == b || (c == b + 1 && t[b] == '/')) && Spaces(t, c, d) {
      BlanksExactly(t, a, b);
      SlashExactly(t, b, c);
      BlanksExactly(t, c, d);
      CatJoin(slash, Many(Space), t, b, c, d);
      CatJoin(Many(Space), Cat(slash, Many(Space)), t, a, b, d);
    }
  }

  lemma SlashExactly(t: string, b: nat, c: nat)
    requires b <= c <= |t|
    ensures Match(Opt(Ch(Exact('/'))), t, b, c) <==> c == b || (c == b + 1 && t[b] == '/')
  {
  }

  /** A name, blanks, a colon, blanks. */
  function Prefix(): Re {
    Cat(Ch(WordStart), Cat(Many(NameChar), Cat(Many(Blank), Cat(Ch(Exact(':')), Many(Blank)))))
  }

  lemma NameCharsExactly(t: string, i: nat, j: nat)
    requires i <= j <= |t|
    ensures Match(Many(NameChar), t, i, j) <==> forall k | i <= k < j :: WordChar(t[k]) || t[k] == '.' || t[k] == '-'
  {
    if Match(Many(NameChar), t, i, j) {
      forall k | i <= k < j ensures WordChar(t[k]) || t[k] == '.' || t[k] == '-' { assert In(NameChar, t[k]); }
    }
  }

  lemma StartExactly(t: string, i: nat, j: nat)
    requires i <= j <= |t|
    ensures Match(Ch(WordStart), t, i, j) <==> j == i + 1 && (Letter(t[i]) || t[i] == '_')
    ensures Match(Ch(Exact(':')), t, i, j) <==> j == i + 1 && t[i] == ':'
  {
  }

  lemma PrefixFound(t: string, d: nat, i: nat)
    requires d <= i <= |t| && Match(Prefix(), t, d, i)
    ensures exists e: nat, f: nat | d < e <= f < i :: PrefixParts(t, d, e, f, i)
  {
    hide Match, Blanks, Letter;
    var colon := Cat(Ch(Exact(':')), Many(Blank));
    var s := CatSplit(Ch(WordStart), Cat(Many(NameChar), Cat(Many(Blank), colon)), t, d, i);
    var e := CatSplit(Many(NameChar), Cat(Many(Blank), colon), t, s, i);
    var f := CatSplit(Many(Blank), colon, t, e, i);
    var g := CatSplit(Ch(Exact(':')), Many(Blank), t, f, i);
    StartExactly(t, d, s);
    NameCharsExactly(t, s, e);
    BlanksExactly(t, e, f);
    StartExactly(t, f, g);
    BlanksExactly(t, g, i);
    assert PrefixParts(t, d, e, f, i);
  }

  lemma PrefixStands(t: string, d: nat, e: nat, f: nat, i: nat)
    requires d < e <= f < i <= |t| && PrefixParts(t, d, e, f, i)
    ensures Match(Prefix(), t, d, i)
  {
    hide Match, Blanks, Letter;
    var colon := Cat(Ch(Exact(':')), Many(Blank));
    StartExactly(t, d, d + 1);
    NameCharsExactly(t, d + 1, e);
    BlanksExactly(t, e, f);
    StartExactly(t, f, f + 1);
    BlanksExactly(t, f + 1, i);
    CatJoin(Ch(Exact(':')), Many(Blank), t, f, f + 1, i);
    CatJoin(Many(Blank), colon, t, e, f, i);
    CatJoin(Many(NameChar), Cat(Many(Blank), colon), t, d + 1, e, i);
    CatJoin(Ch(WordStart), Cat(Many(NameChar), Cat(Many(Blank), colon)), t, d, d + 1, i);
  }

  lemma PrefixExactly(t: string, d: nat, i: nat)
    requires d <= i <= |t|
    ensures Match(Namespace(), t, d, i) <==> PrefixTo(t, d, i)
  {
    hide Match, PrefixParts;
    OptExactly(Prefix(), t, d, i);
    if Match(Prefix(), t, d, i) { PrefixFound(t, d, i); }
    if e: nat, f: nat :| d < e <= f < i && PrefixParts(t, d, e, f, i) { PrefixStands(t, d, e, f, i); }
  }

  lemma LongNamesAreSmall()
    ensures Small("assistant") && Small("conversation") && Small("function_calls") && Small("function_results")
    ensures Small("instructions") && Small("persona_notes")
  {
  }

  lemma MiddleNamesAreSmall()
    ensures Small("harness") && Small("thinking") && Small("tool_result") && Small("tool_use") && Small("results")
    ensures Small("human") && Small("lucy")
  {
  }

  lemma ShortNamesAreSmall()
    ensures Small("notes") && Small("result") && Small("system") && Small("turn")
  {
  }

  lemma NamesAreSmall()
    ensures TAG_NAMES == ControlTags() && TAG_NAMES != [] && forall w | w in TAG_NAMES :: Small(w) && w != ""
  {
    hide Small;
    LongNamesAreSmall();
    MiddleNamesAreSmall();
    ShortNamesAreSmall();
  }

  lemma NameExactly(t: string, i: nat, j: nat)
    requires i <= j <= |t|
    ensures Match(TagName(), t, i, j)
            <==> exists w | w in TAG_NAMES :: j == i + |w| && Spelt(t, i, w) && NoWordAfter(t, j)
  {
    NamesAreSmall();
    hide AnyWord, Match, Spelt, Small, NoWordAfter, ControlTags, TAG_NAMES, Boundary;
    var name := AnyWord(ControlTags());
    OneOfExactly(TAG_NAMES, t, i, j);
    EdgeMatches(t, j);
    if Match(TagName(), t, i, j) {
      var k := CatSplit(name, Bound, t, i, j);
      EdgeOnly(t, k, j);
      var w :| w in TAG_NAMES && j == i + |w| && Spelt(t, i, w);
      SpeltEdge(t, i, w);
      AfterWord(t, j);
    }
    if w :| w in TAG_NAMES && j == i + |w| && Spelt(t, i, w) && NoWordAfter(t, j) {
      SpeltEdge(t, i, w);
      AfterWord(t, j);
      CatJoin(name, Bound, t, i, j, j);
    }
  }

  lemma TagHits(t: string, p: nat)
    requires TagAt(t, p)
    ensures HitAt(ControlTag(), t, p)
  {
    hide Match, TagLead, Namespace, TagName, OpensTo, PrefixTo, Spelt, NoWordAfter, TAG_NAMES;
    var d: nat, i: nat :| p < d <= i <= |t| && OpensTo(t, p + 1, d) && PrefixTo(t, d, i) && NamesTag(t, i);
    var w :| w in TAG_NAMES && Spelt(t, i, w) && NoWordAfter(t, i + |w|);
    var j := i + |w|;
    SpeltBound(t, i, w);
    OpensExactly(t, p + 1, d);
    PrefixExactly(t, d, i);
    NameExactly(t, i, j);
    CatJoin(Namespace(), TagName(), t, d, i, j);
    CatJoin(TagLead(), Cat(Namespace(), TagName()), t, p + 1, d, j);
    FrontHit(ControlTag(), t, p, j);
  }

  lemma TagFound(t: string, p: nat)
    requires HitAt(ControlTag(), t, p)
    ensures TagAt(t, p)
  {
    hide Match, TagLead, Namespace, TagName, OpensTo, PrefixTo, Spelt, NoWordAfter, TAG_NAMES;
    var j := FrontHitEnd(ControlTag(), t, p);
    var d := CatSplit(TagLead(), Cat(Namespace(), TagName()), t, p + 1, j);
    var i := CatSplit(Namespace(), TagName(), t, d, j);
    OpensExactly(t, p + 1, d);
    PrefixExactly(t, d, i);
    NameExactly(t, i, j);
    assert NamesTag(t, i);
  }

  // ------------------------------------------------------------ the rules leave one another alone

  lemma TurnAvoids()
    ensures Avoids(TurnMarker().look, "<") && Avoids(HarnessMarker().look, "<")
  {
    hide AnyWord, Word, WordChars, NoWordChars;
    RolesAreWords();
    assert NoWordChars("<") && WordChars("harness") by { PunctuationIsNoWord(); }
    AnyWordAvoids(TurnRoles(), "<");
    WordAvoids("harness", "<");
  }

  lemma PunctuationIsNoWord()
    ensures NoWordChars("<") && NoWordChars(":") && NoWordChars("[")
    ensures WordChars("harness") && WordChars("showing") && WordChars("end") && WordChars("live") && WordChars("state")
  {
  }

  lemma Punctuation(c: char)
    requires c == '<' || c == ':' || c == '['
    ensures NoWordChars([c]) && c != '.' && c != '-'
  {
  }

  lemma ElisionAvoids(c: char)
    requires c == '<' || c == ':' || c == '['
    ensures Avoids(ElisionMarker().look, [c])
  {
    hide Word, Literal, WordChars, NoWordChars;
    PunctuationIsNoWord();
    Punctuation(c);
    WordAvoids("showing", [c]);
    LiteralAvoids("...", [c]);
  }

  lemma LiveAvoids(c: char)
    requires c == '<' || c == ':' || c == '['
    ensures Avoids(LiveStateFence().look, [c])
  {
    hide Word, Literal, WordChars, NoWordChars;
    PunctuationIsNoWord();
    Punctuation(c);
    WordAvoids("end", [c]);
    WordAvoids("live", [c]);
    WordAvoids("state", [c]);
    LiteralAvoids("--", [c]);
  }

  lemma BracketUndisturbed(r: Rule)
    requires Sound(r) && r.anchor == '<'
    ensures Undisturbed(r, TurnMarker()) && Undisturbed(r, HarnessMarker())
    ensures Undisturbed(r, ElisionMarker()) && Undisturbed(r, LiveStateFence())
  {
    hide Sound, Avoids, Undisturbed;
    TurnAvoids();
    ElisionAvoids('<');
    LiveAvoids('<');
    assert [r.anchor] == "<";
    ApartUndisturbed(r, TurnMarker());
    ApartUndisturbed(r, HarnessMarker());
    ApartUndisturbed(r, ElisionMarker());
    ApartUndisturbed(r, LiveStateFence());
  }

  lemma LaterUndisturbed()
    ensures Undisturbed(TurnMarker(), ElisionMarker()) && Undisturbed(TurnMarker(), LiveStateFence())
    ensures Undisturbed(HarnessMarker(), LiveStateFence()) && Undisturbed(ElisionMarker(), LiveStateFence())
  {
    TurnMarkerSound();
    HarnessMarkerSound();
    ElisionMarkerSound();
    hide Sound, Avoids, Undisturbed;
    ElisionAvoids(':');
    LiveAvoids(':');
    LiveAvoids('[');
    ApartUndisturbed(TurnMarker(), ElisionMarker());
    ApartUndisturbed(TurnMarker(), LiveStateFence());
    ApartUndisturbed(HarnessMarker(), LiveStateFence());
    ApartUndisturbed(ElisionMarker(), LiveStateFence());
  }

  lemma NoTagAtToken(t: string, p: nat)
    requires TokenAt(t, p)
    ensures !HitAt(ControlTag(), t, p) && !HitAt(ControlTag(), t, p + 1)
  {
    if HitAt(ControlTag(), t, p) {
      TagFound(t, p);
      TagStarts(t, p);
    }
    NoAnchorNoHit(ControlTag(), t, p + 1);
  }

  lemma TagStarts(t: string, p: nat)
    requires TagAt(t, p)
    ensures p + 1 < |t| && t[p + 1] != '|'
  {
    hide OpensTo, PrefixTo, NamesTag;
    var d: nat, i: nat :| p < d <= i <= |t| && OpensTo(t, p + 1, d) && PrefixTo(t, d, i) && NamesTag(t, i);
    NameStarts(t, i);
    if p + 1 < d { OpeningStarts(t, p + 1, d); } else if d < i { PrefixStarts(t, d, i); }
  }

  lemma OpeningStarts(t: string, a: nat, d: nat)
    requires OpensTo(t, a, d) && a < d
    ensures a < |t| && t[a] != '|'
  {
  }

  lemma PrefixStarts(t: string, d: nat, i: nat)
    requires PrefixTo(t, d, i) && d < i
    ensures d < |t| && t[d] != '|'
  {
  }

  lemma NameStarts(t: string, i: nat)
    requires NamesTag(t, i)
    ensures i < |t| && t[i] != '|'
  {
    hide TAG_NAMES, ControlTags, Spelt, NoWordAfter, Small;
    var w :| w in TAG_NAMES && Spelt(t, i, w) && NoWordAfter(t, i + |w|);
    NamesAreSmall();
    SpeltEdge(t, i, w);
  }

  lemma TokenUndisturbed()
    ensures Undisturbed(ControlTag(), SpecialToken())
  {
    ControlTagSound();
    hide Sound, HitAt, ControlTag;
    forall t, p: nat | HitAt(SpecialToken(), t, p) ensures Stands(ControlTag(), SpecialToken(), t, p) {
      TokenExactly(t, p);
      NoTagAtToken(t, p);
      assert Match(Ch(Exact('|')), t, p + 1, p + 2);
      KeptAhead(ControlTag(), SpecialToken(), t, p, p + 2);
    }
  }

  /** The colon after the word `harness` is no turn marker. */
  lemma NoTurnAfterHarness(t: string, i: nat, j: nat)
    requires i + 7 <= j < |t| && Spelt(t, i, "harness") && Blanks(t, i + 7, j)
    ensures !TurnAt(t, j)
  {
    assert Small("harness") && "harness"[6] == 's' && Capital('s') == 'S';
    SpeltEdge(t, i, "harness");
    assert t[i + 6] == 's' || t[i + 6] == 'S';
    hide Spelt, Blanks, Small;
    if TurnAt(t, j) {
      var e := TurnWordEnd(t, j);
      SameEnd(t, i + 7, e, j);
    }
  }

  /** Where a turn marker's role ends, and what its last letter may be. */
  lemma TurnWordEnd(t: string, j: nat) returns (e: nat)
    requires TurnAt(t, j)
    ensures 0 < e <= j < |t| && Blanks(t, e, j) && t[e - 1] in "ntmNTM" && WordChar(t[e - 1])
  {
    hide Spelt, Blanks, Small, NoWordBefore;
    var w, h: nat :| w in ROLES && h + |w| <= j && NoWordBefore(t, h) && Spelt(t, h, w) && Blanks(t, h + |w|, j);
    LastLetters(t, h, w);
    e := h + |w|;
  }

  lemma SameEnd(t: string, a: nat, b: nat, j: nat)
    requires 0 < a && 0 < b && Blanks(t, a, j) && Blanks(t, b, j) && WordChar(t[a - 1]) && WordChar(t[b - 1])
    ensures a == b
  {
  }

  lemma LastLetters(t: string, h: nat, w: string)
    requires w in ROLES && Spelt(t, h, w)
    ensures h + |w| <= |t| && w != "" && t[h + |w| - 1] in "ntmNTM" && WordChar(t[h + |w| - 1])
  {
    var k := |w| - 1;
    assert t[h + k] == w[k] || t[h + k] == Capital(w[k]);
  }

  lemma HarnessUndisturbed()
    ensures Undisturbed(TurnMarker(), HarnessMarker())
  {
    TurnMarkerSound();
    hide Sound, HitAt, TurnMarker, HarnessMarker, Match;
    forall t, p | HitAt(HarnessMarker(), t, p) ensures Stands(TurnMarker(), HarnessMarker(), t, p) {
      HarnessStaysPut(t, p);
    }
  }

  lemma HarnessStaysPut(t: string, p: nat)
    requires HitAt(HarnessMarker(), t, p)
    ensures Stands(TurnMarker(), HarnessMarker(), t, p)
  {
    TurnMarkerSound();
    hide Word, Match, Blanks, Spelt, HitAt, Sound, AnyWord;
    HarnessFound(t, p);
    var i: nat, j: nat :| i + 7 <= j < |t|
      && Blanks(t, p + 1, i) && Spelt(t, i, "harness") && Blanks(t, i + 7, j) && t[j] == ':';
    HarnessLook(t, p, i, j);
    forall k | p <= k < j + 1 ensures !HitAt(TurnMarker(), t, k) { NoTurnInHarness(t, p, i, j, k); }
    BlanksBound(t, p + 1, i);
    KeptAhead(TurnMarker(), HarnessMarker(), t, p, j + 1);
  }

  lemma NoTurnInHarness(t: string, p: nat, i: nat, j: nat, k: nat)
    requires p < i && i + 7 <= j < |t| && t[p] == '['
    requires Blanks(t, p + 1, i) && Spelt(t, i, "harness") && Blanks(t, i + 7, j)
    requires p <= k <= j
    ensures !HitAt(TurnMarker(), t, k)
  {
    hide HitAt, Spelt, Match, TurnMarker, TurnAt, Blanks;
    if k == j {
      if HitAt(TurnMarker(), t, j) { TurnFound(t, j); }
      NoTurnAfterHarness(t, i, j);
    } else {
      NoColonInHarness(t, p, i, j, k);
      assert TurnMarker().anchor == ':' by { ColonAnchor(); }
      NoAnchorNoHit(TurnMarker(), t, k);
    }
  }

  lemma ColonAnchor()
    ensures TurnMarker().anchor == ':'
  {
  }

  lemma NoColonInHarness(t: string, p: nat, i: nat, j: nat, k: nat)
    requires p < i && i + 7 <= j < |t| && t[p] == '['
    requires Blanks(t, p + 1, i) && Spelt(t, i, "harness") && Blanks(t, i + 7, j)
    requires p <= k < j
    ensures t[k] != ':'
  {
    if i <= k < i + 7 {
      HarnessIsSmall();
      hide Spelt;
      SpeltIsWord(t, i, "harness", k - i);
    }
  }

  lemma HarnessIsSmall()
    ensures Small("harness")
  {
  }

  lemma ElisionUndisturbed()
    ensures Undisturbed(HarnessMarker(), ElisionMarker())
  {
    hide HitAt, HarnessMarker, ElisionMarker;
    forall t, p | HitAt(ElisionMarker(), t, p) ensures Stands(HarnessMarker(), ElisionMarker(), t, p) {
      ElisionStaysPut(t, p);
    }
  }

  lemma ElisionStaysPut(t: string, p: nat)
    requires HitAt(ElisionMarker(), t, p)
    ensures Stands(HarnessMarker(), ElisionMarker(), t, p)
  {
    HarnessMarkerSound();
    hide Word, Literal, Match, HitAt, Sound, Avoids;
    ElisionFound(t, p);
    var n := FrontHitEnd(ElisionMarker(), t, p);
    ElisionAvoids('[');
    assert ['['] == "[";
    SpanAvoids(ElisionMarker().look, t, p + 1, n, "[");
    forall k | p <= k < n ensures !HitAt(HarnessMarker(), t, k) {
      if k == p { NoHarnessAtElision(t, p); } else { NoAnchorNoHit(HarnessMarker(), t, k); }
    }
    KeptAhead(HarnessMarker(), ElisionMarker(), t, p, n);
  }

  lemma NoHarnessAtElision(t: string, p: nat)
    requires ElisionAt(t, p)
    ensures !HitAt(HarnessMarker(), t, p)
  {
    hide HitAt, ElisionAt, HarnessAt, Blanks;
    var i := ElisionStarts(t, p);
    if HitAt(HarnessMarker(), t, p) {
      HarnessFound(t, p);
      var h := HarnessStarts(t, p);
      FirstApart(t, p + 1, i, h);
    }
  }

  lemma ElisionStarts(t: string, p: nat) returns (i: nat)
    requires ElisionAt(t, p)
    ensures i < |t| && Blanks(t, p + 1, i) && t[i] == '.'
  {
    hide Blanks, Spelt, NoWordAfter;
    var a: nat, j: nat :| a + 3 <= j <= |t|
      && Blanks(t, p + 1, a) && t[a] == '.' && t[a + 1] == '.' && t[a + 2] == '.' && Blanks(t, a + 3, j)
      && Spelt(t, j, "showing") && NoWordAfter(t, j + 7);
    i := a;
  }

  lemma HarnessStarts(t: string, p: nat) returns (h: nat)
    requires HarnessAt(t, p)
    ensures h < |t| && Blanks(t, p + 1, h) && (t[h] == 'h' || t[h] == 'H')
  {
    hide Blanks;
    var i: nat, k: nat :| i + 7 <= k < |t|
      && Blanks(t, p + 1, i) && Spelt(t, i, "harness") && Blanks(t, i + 7, k) && t[k] == ':';
    h := i;
    assert "harness"[0] == 'h' && Capital('h') == 'H';
    assert t[i + 0] == 'h' || t[i + 0] == 'H';
  }

  lemma FirstApart(t: string, a: nat, i: nat, h: nat)
    requires Blanks(t, a, i) && Blanks(t, a, h) && i < |t| && h < |t|
    requires t[i] != ' ' && t[i] != '\t' && t[h] != ' ' && t[h] != '\t'
    ensures i == h
  {
  }

  lemma FromTag()
    ensures forall j | 0 < j < 6 :: Undisturbed(ControlTag(), AllRules()[j])
  {
    hide Undisturbed, Sound, ControlTag, SpecialToken, TurnMarker, HarnessMarker, ElisionMarker, LiveStateFence;
    ControlTagSound();
    TagAnchor();
    TokenUndisturbed();
    BracketUndisturbed(ControlTag());
  }

  lemma TagAnchor()
    ensures ControlTag().anchor == '<' && SpecialToken().anchor == '<'
  {
  }

  lemma FromToken()
    ensures forall j | 1 < j < 6 :: Undisturbed(SpecialToken(), AllRules()[j])
  {
    hide Undisturbed, Sound, ControlTag, SpecialToken, TurnMarker, HarnessMarker, ElisionMarker, LiveStateFence;
    SpecialTokenSound();
    TagAnchor();
    BracketUndisturbed(SpecialToken());
  }

  lemma FromTurn()
    ensures forall j | 2 < j < 6 :: Undisturbed(TurnMarker(), AllRules()[j])
  {
    hide Undisturbed, ControlTag, SpecialToken, TurnMarker, HarnessMarker, ElisionMarker, LiveStateFence;
    HarnessUndisturbed();
    LaterUndisturbed();
  }

  lemma FromHarness()
    ensures forall j | 3 < j < 6 :: Undisturbed(HarnessMarker(), AllRules()[j])
    ensures Undisturbed(ElisionMarker(), LiveStateFence())
  {
    hide Undisturbed, ControlTag, SpecialToken, TurnMarker, HarnessMarker, ElisionMarker, LiveStateFence;
    ElisionUndisturbed();
    LaterUndisturbed();
  }

  lemma RulesIndependent()
    ensures Independent(AllRules())
  {
    hide Undisturbed, ControlTag, SpecialToken, TurnMarker, HarnessMarker, ElisionMarker, LiveStateFence;
    FromTag();
    FromToken();
    FromTurn();
    FromHarness();
  }

  // ------------------------------------------------------------ fencing, in characters

  /** What stands for a character once the text is fenced: the escape of its look-alike, or the character. */
  ghost function Fenced(t: string, p: nat): string
    requires p < |t|
  {
    if TagAt(t, p) || TokenAt(t, p) then "&lt;"
    else if TurnAt(t, p) then "&#58;"
    else if HarnessAt(t, p) || ElisionAt(t, p) then "&#91;"
    else if LiveAt(t, p) then "&#45;"
    else [t[p]]
  }

  ghost function FencedAll(t: string): (reps: seq<string>)
    ensures |reps| == |t| && forall p | 0 <= p < |t| :: reps[p] == Fenced(t, p)
  {
    seq(|t|, p requires 0 <= p < |t| => Fenced(t, p))
  }

  /** Each rule hits where its look-alike stands, and nowhere else. */
  lemma KindsExactly(t: string, p: nat)
    ensures HitAt(ControlTag(), t, p) <==> TagAt(t, p)
    ensures HitAt(SpecialToken(), t, p) <==> TokenAt(t, p)
    ensures HitAt(TurnMarker(), t, p) <==> TurnAt(t, p)
    ensures HitAt(HarnessMarker(), t, p) <==> HarnessAt(t, p)
    ensures HitAt(ElisionMarker(), t, p) <==> ElisionAt(t, p)
    ensures HitAt(LiveStateFence(), t, p) <==> LiveAt(t, p)
  {
    hide HitAt, TagAt, TokenAt, TurnAt, HarnessAt, ElisionAt, LiveAt;
    hide ControlTag, SpecialToken, TurnMarker, HarnessMarker, ElisionMarker, LiveStateFence;
    if TagAt(t, p) { TagHits(t, p); }
    if HitAt(ControlTag(), t, p) { TagFound(t, p); }
    TokenExactly(t, p);
    if TurnAt(t, p) { TurnHits(t, p); }
    if HitAt(TurnMarker(), t, p) { TurnFound(t, p); }
    if HarnessAt(t, p) { HarnessHits(t, p); }
    if HitAt(HarnessMarker(), t, p) { HarnessFound(t, p); }
    if ElisionAt(t, p) { ElisionHits(t, p); }
    if HitAt(ElisionMarker(), t, p) { ElisionFound(t, p); }
    if LiveAt(t, p) { LiveHits(t, p); }
    if HitAt(LiveStateFence(), t, p) { LiveFound(t, p); }
  }

  lemma Entities()
    ensures ControlTag().entity == "&lt;" && SpecialToken().entity == "&lt;" && TurnMarker().entity == "&#58;"
    ensures HarnessMarker().entity == "&#91;" && ElisionMarker().entity == "&#91;"
    ensures LiveStateFence().entity == "&#45;"
  {
  }

  lemma {:induction false} StruckFrom(rules: seq<Rule>, t: string, p: nat)
    requires rules != [] && p < |t|
    ensures Struck(rules, t, p) == if HitAt(rules[0], t, p) then rules[0].entity else Struck(rules[1..], t, p)
  {
  }

  lemma StruckIsFenced(t: string, p: nat)
    requires p < |t|
    ensures Struck(AllRules(), t, p) == Fenced(t, p)
  {
    hide HitAt, TagAt, TokenAt, TurnAt, HarnessAt, ElisionAt, LiveAt, Struck;
    hide ControlTag, SpecialToken, TurnMarker, HarnessMarker, ElisionMarker, LiveStateFence;
    KindsExactly(t, p);
    Entities();
    var r := AllRules();
    StruckFrom(r, t, p);
    StruckFrom(r[1..], t, p);
    StruckFrom(r[2..], t, p);
    StruckFrom(r[3..], t, p);
    StruckFrom(r[4..], t, p);
    StruckFrom(r[5..], t, p);
    assert r[1..][1..] == r[2..] && r[2..][1..] == r[3..] && r[3..][1..] == r[4..] && r[4..][1..] == r[5..];
    assert r[5..][1..] == [] && Struck([], t, p) == [t[p]] by { StruckByNone(t, p); }
  }

  lemma StruckByNone(t: string, p: nat)
    requires p < |t|
    ensures Struck([], t, p) == [t[p]]
  {
  }

  /**
   * Fencing replaces one character of each look-alike in the text, wherever one stands, by its escape, and leaves every
   * other character as it is.
   */
  lemma FenceExactly(t: string)
    ensures Fence(t) == Expand(FencedAll(t))
  {
    hide Sound, Undisturbed, AllRules, Struck, Fenced, Expand, Rewritten, Independent;
    RulesSound();
    RulesIndependent();
    OnePassExactly(AllRules(), t);
    forall p | 0 <= p < |t| ensures Struck(AllRules(), t, p) == Fenced(t, p) { StruckIsFenced(t, p); }
    assert AllStruck(AllRules(), t) == FencedAll(t);
  }

  /** No look-alike of any kind stands anywhere in fenced text. */
  lemma NoneLeft(t: string, p: nat)
    ensures !TagAt(Fence(t), p) && !TokenAt(Fence(t), p) && !TurnAt(Fence(t), p)
    ensures !HarnessAt(Fence(t), p) && !ElisionAt(Fence(t), p) && !LiveAt(Fence(t), p)
  {
    hide HitAt, TagAt, TokenAt, TurnAt, HarnessAt, ElisionAt, LiveAt, Fence;
    hide ControlTag, SpecialToken, TurnMarker, HarnessMarker, ElisionMarker, LiveStateFence;
    FenceCleans(t);
    KindsExactly(Fence(t), p);
    if p < |Fence(t)| {
      var r := AllRules();
      assert r[0] in r && r[1] in r && r[2] in r && r[3] in r && r[4] in r && r[5] in r;
    } else {
      NothingBeyond(Fence(t), p);
    }
  }

  lemma NothingBeyond(t: string, p: nat)
    requires p >= |t|
    ensures !TagAt(t, p) && !TokenAt(t, p) && !TurnAt(t, p) && !HarnessAt(t, p) && !ElisionAt(t, p) && !LiveAt(t, p)
  {
  }

  // ------------------------------------------------------------ the report

  ghost predicate HoldsTag(t: string) { exists p: nat :: TagAt(t, p) }

  ghost predicate HoldsToken(t: string) { exists p: nat :: TokenAt(t, p) }

  ghost predicate HoldsTurn(t: string) { exists p: nat :: TurnAt(t, p) }

  ghost predicate HoldsHarness(t: string) { exists p: nat :: HarnessAt(t, p) }

  ghost predicate HoldsElision(t: string) { exists p: nat :: ElisionAt(t, p) }

  ghost predicate HoldsLive(t: string) { exists p: nat :: LiveAt(t, p) }

  lemma HitWithin(r: Rule, t: string, p: nat)
    requires HitAt(r, t, p)
    ensures Bites(r, t)
  {
    hide Match;
  }

  lemma BitesExactly(t: string)
    ensures Bites(ControlTag(), t) <==> HoldsTag(t)
    ensures Bites(SpecialToken(), t) <==> HoldsToken(t)
    ensures Bites(TurnMarker(), t) <==> HoldsTurn(t)
    ensures Bites(HarnessMarker(), t) <==> HoldsHarness(t)
    ensures Bites(ElisionMarker(), t) <==> HoldsElision(t)
    ensures Bites(LiveStateFence(), t) <==> HoldsLive(t)
  {
    hide HitAt, TagAt, TokenAt, TurnAt, HarnessAt, ElisionAt, LiveAt;
    hide ControlTag, SpecialToken, TurnMarker, HarnessMarker, ElisionMarker, LiveStateFence;
    forall p: nat
      ensures HitAt(ControlTag(), t, p) <==> TagAt(t, p)
      ensures HitAt(SpecialToken(), t, p) <==> TokenAt(t, p)
      ensures HitAt(TurnMarker(), t, p) <==> TurnAt(t, p)
      ensures HitAt(HarnessMarker(), t, p) <==> HarnessAt(t, p)
      ensures HitAt(ElisionMarker(), t, p) <==> ElisionAt(t, p)
      ensures HitAt(LiveStateFence(), t, p) <==> LiveAt(t, p)
    {
      KindsExactly(t, p);
    }
    if p: nat :| TagAt(t, p) { HitWithin(ControlTag(), t, p); }
    if p: nat :| TokenAt(t, p) { HitWithin(SpecialToken(), t, p); }
    if p: nat :| TurnAt(t, p) { HitWithin(TurnMarker(), t, p); }
    if p: nat :| HarnessAt(t, p) { HitWithin(HarnessMarker(), t, p); }
    if p: nat :| ElisionAt(t, p) { HitWithin(ElisionMarker(), t, p); }
    if p: nat :| LiveAt(t, p) { HitWithin(LiveStateFence(), t, p); }
  }

  function IfSo(holds: bool, name: string): seq<string> { if holds then [name] else [] }

  lemma FoundFrom(rules: seq<Rule>, t: string)
    requires rules != []
    ensures Found(rules, t) == IfSo(Bites(rules[0], t), rules[0].name) + Found(rules[1..], t)
  {
  }

  lemma FoundOfSix(a: Rule, b: Rule, c: Rule, d: Rule, e: Rule, f: Rule, t: string)
    ensures Found([a, b, c, d, e, f], t)
            == IfSo(Bites(a, t), a.name) + (IfSo(Bites(b, t), b.name) + (IfSo(Bites(c, t), c.name)
             + (IfSo(Bites(d, t), d.name) + (IfSo(Bites(e, t), e.name) + IfSo(Bites(f, t), f.name)))))
  {
    hide Bites, Found;
    FoundFrom([a, b, c, d, e, f], t);
    FoundFrom([b, c, d, e, f], t);
    FoundFrom([c, d, e, f], t);
    FoundFrom([d, e, f], t);
    FoundFrom([e, f], t);
    FoundFrom([f], t);
    assert [a, b, c, d, e, f][1..] == [b, c, d, e, f] && [b, c, d, e, f][1..] == [c, d, e, f];
    assert [c, d, e, f][1..] == [d, e, f] && [d, e, f][1..] == [e, f] && [e, f][1..] == [f] && [f][1..] == [];
    NothingFound(t);
    assert IfSo(Bites(f, t), f.name) + [] == IfSo(Bites(f, t), f.name);
  }

  lemma NothingFound(t: string)
    ensures Found([], t) == []
  {
  }

  lemma RuleNames()
    ensures ControlTag().name == "control-tag" && SpecialToken().name == "special-token"
    ensures TurnMarker().name == "turn-marker" && HarnessMarker().name == "harness-marker"
    ensures ElisionMarker().name == "elision-marker" && LiveStateFence().name == "live-state-fence"
  {
  }

  /** The kinds reported are the kinds the text holds, each once, in the order of the rules. */
  lemma ReportedExactly(t: string)
    ensures Reported(t)
            == IfSo(HoldsTag(t), "control-tag") + (IfSo(HoldsToken(t), "special-token")
             + (IfSo(HoldsTurn(t), "turn-marker") + (IfSo(HoldsHarness(t), "harness-marker")
             + (IfSo(HoldsElision(t), "elision-marker") + IfSo(HoldsLive(t), "live-state-fence")))))
  {
    hide Sound, Independent, Biting, Found, Bites;
    hide HoldsTag, HoldsToken, HoldsTurn, HoldsHarness, HoldsElision, HoldsLive;
    hide ControlTag, SpecialToken, TurnMarker, HarnessMarker, ElisionMarker, LiveStateFence;
    RulesSound();
    RulesIndependent();
    BitingExactly(AllRules(), t);
    FoundOfSix(ControlTag(), SpecialToken(), TurnMarker(), HarnessMarker(), ElisionMarker(), LiveStateFence(), t);
    BitesExactly(t);
    RuleNames();
  }
}
