/** The scrub rules: harness look-alikes are escaped in place, once, and nothing is deleted. */
module Scrub {
  import opened Patterns
  import opened Rules

  function ControlTags(): seq<string> {
    ["assistant", "conversation", "function_calls", "function_results", "harness", "human", "instructions", "lucy",
     "notes", "persona_notes", "result", "results", "system", "thinking", "tool_result", "tool_use", "turn"]
  }

  function TurnRoles(): seq<string> { ["human", "assistant", "system"] }

  /** An optional namespace prefix. */
  function Namespace(): Re {
    Opt(Cat(Ch(WordStart), Cat(Many(NameChar), Cat(Many(Blank), Cat(Ch(Exact(':')), Many(Blank))))))
  }

  /** What may stand between a tag's bracket and its name. */
  function TagLead(): Re { Cat(Many(Space), Cat(Opt(Ch(Exact('/'))), Many(Space))) }

  function TagName(): Re { Cat(AnyWord(ControlTags()), Bound) }

  function ControlTag(): Rule {
    Rule("control-tag", '<', Cat(TagLead(), Cat(Namespace(), TagName())), true, "&lt;")
  }

  function SpecialToken(): Rule { Rule("special-token", '<', Ch(Exact('|')), true, "&lt;") }

  function TurnMarker(): Rule {
    Rule("turn-marker", ':', Cat(Bound, Cat(AnyWord(TurnRoles()), Many(Blank))), false, "&#58;")
  }

  function HarnessMarker(): Rule {
    Rule("harness-marker", '[', Cat(Many(Blank), Cat(Word("harness"), Cat(Many(Blank), Ch(Exact(':'))))), true, "&#91;")
  }

  function ElisionMarker(): Rule {
    Rule("elision-marker", '[',
         Cat(Many(Blank), Cat(Literal("..."), Cat(Many(Blank), Cat(Word("showing"), Bound)))), true, "&#91;")
  }

  function SomeBlanks(): Re { Cat(Ch(Blank), Many(Blank)) }

  function LiveStateFence(): Rule {
    Rule("live-state-fence", '-',
         Cat(Literal("--"), Cat(Many(Blank), Cat(Opt(Cat(Word("end"), SomeBlanks())), LiveState()))), true, "&#45;")
  }

  function LiveState(): Re { Cat(Word("live"), Cat(SomeBlanks(), Cat(Word("state"), Bound))) }

  function AllRules(): seq<Rule> {
    [ControlTag(), SpecialToken(), TurnMarker(), HarnessMarker(), ElisionMarker(), LiveStateFence()]
  }

  // ------------------------------------------------------------ the rules over a text

  predicate Bites(r: Rule, t: string) {
    exists p | 0 <= p < |t| :: HitAt(r, t, p)
  }

  function Rewritten(rules: seq<Rule>, t: string): string {
    if rules == [] then t else Rewritten(rules[1..], Sub(rules[0], t))
  }

  function Biting(rules: seq<Rule>, t: string): seq<string> {
    if rules == [] then []
    else (if Bites(rules[0], t) then [rules[0].name] else []) + Biting(rules[1..], Sub(rules[0], t))
  }

  function Fence(t: string): string { Rewritten(AllRules(), t) }

  /** The names of the rules that bit, in the order they were applied. */
  function Reported(t: string): seq<string> { Biting(AllRules(), t) }

  /** The loop over the rules: the rewritten text, and the names of those that bit. */
  method Apply(t: string) returns (text: string, matched: seq<string>)
    ensures text == Fence(t) && matched == Reported(t)
    ensures matched == [] <==> text == t
  {
    hide Sub, Bites, Sound, AllRules, Rewritten, Biting;
    var rules := AllRules();
    RulesSound();
    text, matched := t, [];
    assert rules[0..] == rules;
    for k := 0 to |rules|
      invariant Rewritten(rules[k..], text) == Rewritten(rules, t)
      invariant matched + Biting(rules[k..], text) == Biting(rules, t)
    {
      var rule := rules[k];
      RulesFrom(rules, k, text);
      if Bites(rule, text) {
        matched := matched + [rule.name];
      }
      text := Sub(rule, text);
    }
    NoRules(text);
    assert rules[|rules|..] == [];
    LongerExactly(rules, t);
  }

  lemma RulesFrom(rules: seq<Rule>, k: nat, t: string)
    requires k < |rules|
    ensures Rewritten(rules[k..], t) == Rewritten(rules[k + 1..], Sub(rules[k], t))
    ensures Biting(rules[k..], t)
            == (if Bites(rules[k], t) then [rules[k].name] else []) + Biting(rules[k + 1..], Sub(rules[k], t))
  {
    hide Sub, Bites;
    assert rules[k..][0] == rules[k] && rules[k..][1..] == rules[k + 1..];
  }

  lemma NoRules(t: string)
    ensures Rewritten([], t) == t && Biting([], t) == []
  {
  }

  // ------------------------------------------------------------ the rules are sound

  predicate WordChars(w: string) {
    forall k | 0 <= k < |w| :: IsWord(w[k])
  }

  predicate NoWordChars(chars: string) {
    forall k | 0 <= k < |chars| :: !IsWord(chars[k])
  }

  lemma {:induction false} WordAvoids(w: string, chars: string)
    requires WordChars(w) && NoWordChars(chars)
    ensures Avoids(Word(w), chars)
  {
    if w != "" {
      assert IsWord(w[0]);
      WordAvoids(w[1..], chars);
    }
  }

  lemma {:induction false} AnyWordAvoids(ws: seq<string>, chars: string)
    requires ws != [] && NoWordChars(chars) && forall k | 0 <= k < |ws| :: WordChars(ws[k])
    ensures Avoids(AnyWord(ws), chars)
  {
    hide WordChars, NoWordChars, Word;
    WordAvoids(ws[0], chars);
    if |ws| > 1 {
      AnyWordAvoids(ws[1..], chars);
    }
  }

  lemma {:induction false} LiteralAvoids(w: string, chars: string)
    requires forall k | 0 <= k < |w| :: w[k] !in chars
    ensures Avoids(Literal(w), chars)
  {
    if w != "" {
      LiteralAvoids(w[1..], chars);
    }
  }

  lemma LongTags()
    ensures WordChars("assistant") && WordChars("conversation") && WordChars("function_calls")
    ensures WordChars("function_results") && WordChars("instructions")
  {
  }

  lemma MiddleTags()
    ensures WordChars("harness") && WordChars("persona_notes") && WordChars("system") && WordChars("thinking")
    ensures WordChars("tool_result") && WordChars("tool_use")
  {
  }

  lemma ShortTags()
    ensures WordChars("human") && WordChars("lucy") && WordChars("notes")
    ensures WordChars("result") && WordChars("results") && WordChars("turn")
  {
  }

  lemma TagsAreWords()
    ensures forall k | 0 <= k < |ControlTags()| :: WordChars(ControlTags()[k])
  {
    hide WordChars;
    LongTags();
    MiddleTags();
    ShortTags();
  }

  lemma RolesAreWords()
    ensures forall k | 0 <= k < |TurnRoles()| :: WordChars(TurnRoles()[k])
  {
    assert WordChars("human") && WordChars("assistant") && WordChars("system");
  }

  lemma FrameCharsAvoided()
    ensures NoWordChars("&;") && NoWordChars(":")
    ensures Avoids(TagLead(), "&;") && Avoids(Namespace(), "&;") && Avoids(SomeBlanks(), "&;")
  {
  }

  lemma ControlTagSound()
    ensures Sound(ControlTag()) && Decodable(ControlTag())
  {
    hide Entity, AnyWord, ControlTags, TagLead, Namespace, WordChars, NoWordChars;
    BracketEntities();
    FrameCharsAvoided();
    TagsAreWords();
    assert |ControlTags()| > 0 by { TagCount(); }
    AnyWordAvoids(ControlTags(), "&;");
  }

  lemma TagCount()
    ensures |ControlTags()| == 17
  {
  }

  lemma SpecialTokenSound()
    ensures Sound(SpecialToken()) && Decodable(SpecialToken())
  {
    hide Entity;
    BracketEntities();
  }

  lemma TurnMarkerSound()
    ensures Sound(TurnMarker()) && Decodable(TurnMarker())
  {
    hide Entity, AnyWord, WordChars, NoWordChars;
    MarkEntities();
    FrameCharsAvoided();
    RolesAreWords();
    AnyWordAvoids(TurnRoles(), "&;");
    AnyWordAvoids(TurnRoles(), [':']);
  }

  lemma HarnessMarkerSound()
    ensures Sound(HarnessMarker()) && Decodable(HarnessMarker())
  {
    hide Entity, Word;
    MarkEntities();
    FrameCharsAvoided();
    WordAvoids("harness", "&;");
  }

  lemma ElisionMarkerSound()
    ensures Sound(ElisionMarker()) && Decodable(ElisionMarker())
  {
    hide Entity, Word, Literal;
    MarkEntities();
    FrameCharsAvoided();
    WordAvoids("showing", "&;");
    LiteralAvoids("...", "&;");
  }

  lemma LiveStateAvoids()
    ensures Avoids(LiveState(), "&;")
  {
    hide Word, SomeBlanks;
    FrameCharsAvoided();
    WordAvoids("live", "&;");
    WordAvoids("state", "&;");
  }

  lemma LiveStateFenceSound()
    ensures Sound(LiveStateFence()) && Decodable(LiveStateFence())
  {
    hide Entity, Word, Literal, SomeBlanks, LiveState;
    MarkEntities();
    FrameCharsAvoided();
    WordAvoids("end", "&;");
    LiveStateAvoids();
    LiteralAvoids("--", "&;");
  }

  lemma RulesSound()
    ensures forall r | r in AllRules() :: Sound(r) && Decodable(r)
  {
    hide Sound, Decodable, ControlTag, SpecialToken, TurnMarker, HarnessMarker, ElisionMarker, LiveStateFence;
    ControlTagSound();
    SpecialTokenSound();
    TurnMarkerSound();
    HarnessMarkerSound();
    ElisionMarkerSound();
    LiveStateFenceSound();
  }

  // ------------------------------------------------------------ one pass is enough

  lemma SubCleans(r: Rule, t: string)
    requires Sound(r)
    ensures Clean(r, Sub(r, t))
  {
    ScanningEscapes(r, t);
    EscapeCleans(r, t);
  }

  lemma SubKeepsClean(clean: Rule, r: Rule, t: string)
    requires Sound(clean) && Sound(r) && Clean(clean, t)
    ensures Clean(clean, Sub(r, t))
  {
    ScanningEscapes(r, t);
    MarksEdit(r, t);
    CleanStays(clean, t, Marks(r, t));
  }

  lemma {:induction false} StaysClean(clean: Rule, rules: seq<Rule>, t: string)
    requires Sound(clean) && Clean(clean, t) && forall r | r in rules :: Sound(r)
    ensures Clean(clean, Rewritten(rules, t))
  {
    hide Sound, Clean;
    if rules != [] {
      assert rules[0] in rules && forall r | r in rules[1..] :: r in rules;
      SubKeepsClean(clean, rules[0], t);
      StaysClean(clean, rules[1..], Sub(rules[0], t));
    }
  }

  lemma {:induction false} RewrittenClean(rules: seq<Rule>, t: string)
    requires forall r | r in rules :: Sound(r)
    ensures forall r | r in rules :: Clean(r, Rewritten(rules, t))
  {
    hide Sound, Clean;
    if rules != [] {
      assert rules[0] in rules && forall r | r in rules[1..] :: r in rules;
      SubCleans(rules[0], t);
      StaysClean(rules[0], rules[1..], Sub(rules[0], t));
      RewrittenClean(rules[1..], Sub(rules[0], t));
      assert rules == [rules[0]] + rules[1..];
    }
  }

  /** After one pass no rule matches anywhere, although the rules rewrite one another's output. */
  lemma FenceCleans(t: string)
    ensures forall r | r in AllRules() :: Clean(r, Fence(t))
  {
    hide Sound, Clean, Rewritten, AllRules;
    RulesSound();
    RewrittenClean(AllRules(), t);
  }

  lemma {:induction false} CleanUnchanged(rules: seq<Rule>, t: string)
    requires forall r | r in rules :: Sound(r) && Clean(r, t)
    ensures Rewritten(rules, t) == t && Biting(rules, t) == []
  {
    hide Sound, HitAt;
    if rules != [] {
      assert rules[0] in rules && forall r | r in rules[1..] :: r in rules;
      ScanningEscapes(rules[0], t);
      EscapeNothing(rules[0], t);
      CleanUnchanged(rules[1..], t);
    }
  }

  /** A second pass finds nothing and changes nothing. */
  lemma FenceOnce(t: string)
    ensures Fence(Fence(t)) == Fence(t) && Reported(Fence(t)) == []
  {
    hide Sound, Clean, Rewritten, Biting, AllRules;
    RulesSound();
    FenceCleans(t);
    CleanUnchanged(AllRules(), Fence(t));
  }

  // ------------------------------------------------------------ the report is honest

  lemma {:induction false} ExpandLonger(reps: seq<string>)
    requires forall p | 0 <= p < |reps| :: |reps[p]| >= 1
    ensures |Expand(reps)| >= |reps|
    ensures (exists p | 0 <= p < |reps| :: |reps[p]| > 1) ==> |Expand(reps)| > |reps|
  {
    if reps != [] {
      ExpandLonger(reps[1..]);
      if p :| 0 < p < |reps| && |reps[p]| > 1 {
        assert |reps[1..][p - 1]| > 1;
      }
    }
  }

  lemma SubLonger(r: Rule, t: string)
    requires Sound(r)
    ensures if Bites(r, t) then |Sub(r, t)| > |t| else Sub(r, t) == t
  {
    ScanningEscapes(r, t);
    var reps := Marks(r, t);
    if Bites(r, t) {
      var p :| 0 <= p < |t| && HitAt(r, t, p);
      assert reps[p] == r.entity;
      ExpandLonger(reps);
    } else {
      EscapeNothing(r, t);
    }
  }

  lemma {:induction false} LongerExactly(rules: seq<Rule>, t: string)
    requires forall r | r in rules :: Sound(r)
    ensures if Biting(rules, t) == [] then Rewritten(rules, t) == t else |Rewritten(rules, t)| > |t|
  {
    hide Sound, Bites;
    if rules != [] {
      assert rules[0] in rules && forall r | r in rules[1..] :: r in rules;
      SubLonger(rules[0], t);
      LongerExactly(rules[1..], Sub(rules[0], t));
    }
  }

  /** No name reported exactly when no character changed. */
  lemma ChangedExactlyWhenMatched(t: string)
    ensures Reported(t) == [] <==> Fence(t) == t
  {
    hide Sound, Rewritten, Biting, AllRules;
    RulesSound();
    LongerExactly(AllRules(), t);
  }

  // ------------------------------------------------------------ nothing is deleted

  /** The character an entity stands for: the four the rules write, and the four a value's quotes and margin need. */
  function Leading(t: string): (nc: (nat, char))
    requires t != ""
    ensures 1 <= nc.0 <= |t|
  {
    if "&lt;" <= t then (4, '<')
    else if "&#58;" <= t then (5, ':')
    else if "&#91;" <= t then (5, '[')
    else if "&#45;" <= t then (5, '-')
    else if "&quot;" <= t then (6, '"')
    else if "&gt;" <= t then (4, '>')
    else if "&#13;" <= t then (5, '\r')
    else if "&#10;" <= t then (5, '\n')
    else (1, t[0])
  }

  /** A reader who undoes the entities, left to right. */
  function Decode(t: string): string
    decreases |t|
  {
    if t == "" then "" else [Leading(t).1] + Decode(t[Leading(t).0..])
  }

  function EntityFor(c: char): string {
    if c == '<' then "&lt;"
    else if c == ':' then "&#58;"
    else if c == '[' then "&#91;"
    else if c == '-' then "&#45;"
    else if c == '"' then "&quot;"
    else if c == '>' then "&gt;"
    else if c == '\r' then "&#13;"
    else if c == '\n' then "&#10;"
    else [c]
  }

  ghost predicate Escaping(w: string, reps: seq<string>) {
    |reps| == |w| && forall p | 0 <= p < |w| :: reps[p] == [w[p]] || reps[p] == EntityFor(w[p])
  }

  lemma BracketEntities()
    ensures Entity("&lt;") && Entity("&gt;") && Entity("&quot;")
  {
  }

  lemma MarkEntities()
    ensures Entity("&#58;") && Entity("&#91;") && Entity("&#45;")
  {
  }

  lemma BreakEntities()
    ensures Entity("&#13;") && Entity("&#10;")
  {
  }

  lemma EntityForIsOne(c: char)
    ensures EntityFor(c) == [c] || (Entity(EntityFor(c)) && !IsWord(c))
  {
    BracketEntities();
    MarkEntities();
    BreakEntities();
    hide Entity;
  }

  lemma EscapingEdits(w: string, reps: seq<string>)
    requires Escaping(w, reps)
    ensures Edit(w, reps)
  {
    hide EntityFor, Entity;
    forall p | 0 <= p < |w| ensures reps[p] == [w[p]] || (Entity(reps[p]) && !IsWord(w[p])) { EntityForIsOne(w[p]); }
  }

  lemma PrefixBefore(w: string, reps: seq<string>, e: string)
    requires Escaping(w, reps) && Entity(e) && w != "" && reps[0] == [w[0]] && e <= Expand(reps)
    ensures e <= w
  {
    hide Expand, Entity, Escaping;
    var u := Expand(reps);
    EscapingEdits(w, reps);
    assert |reps| == |w| && |e| >= 2 by { ShapeOf(w, reps, e); }
    UntouchedText(w, reps, 0, 1);
    forall k | 1 <= k < |e| ensures u[k] != AMP { assert u[k] == e[k]; ShapeOf(w, reps, e); }
    AlignRight(w, reps, 1, |e| - 1);
    UntouchedText(w, reps, 1, |e|);
    forall k | 0 <= k < |e| ensures w[k] == e[k] { assert u[k] == e[k]; }
  }

  lemma ShapeOf(w: string, reps: seq<string>, e: string)
    requires Escaping(w, reps) && Entity(e)
    ensures |reps| == |w| && |e| >= 2 && forall k | 1 <= k < |e| :: e[k] != AMP
  {
  }

  lemma PrefixAfter(w: string, reps: seq<string>, e: string)
    requires Escaping(w, reps) && Entity(e) && e <= w
    ensures e <= Expand(reps) && Expand(reps)[|e|..] == Expand(reps[|e|..])
  {
    hide Expand;
    var u := Expand(reps);
    forall k | 0 <= k < |e| ensures reps[k] == [w[k]] { assert w[k] == e[k]; }
    UntouchedText(w, reps, 0, |e|);
    forall k | 0 <= k < |e| ensures u[k] == e[k] { assert u[0 + (k - 0)] == w[k]; }
    DropExpanded(reps, |e|);
  }

  /** An entity of the source text stands at the front of the edited text exactly when it stood there before. */
  lemma PrefixKept(w: string, reps: seq<string>, e: string)
    requires Escaping(w, reps) && Entity(e) && w != "" && reps[0] == [w[0]]
    ensures e <= Expand(reps) <==> e <= w
    ensures e <= w ==> Expand(reps)[|e|..] == Expand(reps[|e|..])
  {
    if e <= Expand(reps) { PrefixBefore(w, reps, e); }
    if e <= w { PrefixAfter(w, reps, e); }
  }

  lemma DropExpanded(reps: seq<string>, n: nat)
    requires n <= |reps|
    ensures Off(reps, n) <= |Expand(reps)| && Expand(reps)[Off(reps, n)..] == Expand(reps[n..])
  {
    OffIsLength(reps, n);
    ExpandAppend(reps[..n], reps[n..]);
    assert reps == reps[..n] + reps[n..];
  }

  /** Escaping changes nothing for a reader who decodes. */
  lemma {:induction false} DecodeExpanded(w: string, reps: seq<string>)
    requires Escaping(w, reps)
    ensures Decode(Expand(reps)) == Decode(w)
    decreases |w|
  {
    if w != "" {
      var u := Expand(reps);
      if reps[0] != [w[0]] {
        DecodeExpanded(w[1..], reps[1..]);
        EscapedFront(w, reps);
      } else if w[0] != AMP {
        DecodeExpanded(w[1..], reps[1..]);
        assert u == [w[0]] + Expand(reps[1..]);
        PlainFront(w);
        PlainFront(u);
      } else {
        SameFront(w, reps);
        var n := Leading(w).0;
        DecodeExpanded(w[n..], reps[n..]);
      }
    }
  }

  lemma PlainFront(t: string)
    requires t != "" && t[0] != AMP
    ensures Leading(t) == (1, t[0])
  {
  }

  lemma EscapedFront(w: string, reps: seq<string>)
    requires Escaping(w, reps) && w != "" && reps[0] != [w[0]]
    ensures Leading(Expand(reps)) == (|reps[0]|, w[0]) && Expand(reps)[|reps[0]|..] == Expand(reps[1..])
    ensures Leading(w) == (1, w[0])
  {
    hide EntityFor, Leading, Expand;
    ExpandCons(reps[0], reps[1..]);
    assert [reps[0]] + reps[1..] == reps;
    LeadingEntity(w[0], Expand(reps[1..]));
    assert w == [w[0]] + w[1..];
    LeadingPlain(w);
  }

  lemma LeadingPlain(w: string)
    requires w != "" && EntityFor(w[0]) != [w[0]]
    ensures Leading(w) == (1, w[0])
  {
  }

  lemma LeadingEntity(c: char, rest: string)
    requires EntityFor(c) != [c]
    ensures Leading(EntityFor(c) + rest) == (|EntityFor(c)|, c)
  {
    var e, u := EntityFor(c), EntityFor(c) + rest;
    assert e <= u && |e| >= 4;
    assert u[1] == e[1] && u[2] == e[2] && u[3] == e[3];
  }

  lemma SameFront(w: string, reps: seq<string>)
    requires Escaping(w, reps) && w != "" && reps[0] == [w[0]]
    ensures var u := Expand(reps);
            u != "" && Leading(u) == Leading(w) && u[Leading(w).0..] == Expand(reps[Leading(w).0..])
  {
    hide Escaping, Expand, Entity;
    var u := Expand(reps);
    BracketEntities();
    MarkEntities();
    BreakEntities();
    PrefixKept(w, reps, "&lt;");
    PrefixKept(w, reps, "&#58;");
    PrefixKept(w, reps, "&#91;");
    PrefixKept(w, reps, "&#45;");
    PrefixKept(w, reps, "&quot;");
    PrefixKept(w, reps, "&gt;");
    PrefixKept(w, reps, "&#13;");
    PrefixKept(w, reps, "&#10;");
    FrontChar(w, reps);
  }

  lemma FrontChar(w: string, reps: seq<string>)
    requires Escaping(w, reps) && w != "" && reps[0] == [w[0]]
    ensures Expand(reps) == [w[0]] + Expand(reps[1..])
  {
  }

  ghost predicate Decodable(r: Rule) {
    r.entity == EntityFor(r.anchor)
  }

  lemma MarksEscaping(r: Rule, t: string)
    requires Decodable(r)
    ensures Escaping(t, Marks(r, t))
  {
  }

  lemma {:induction false} RewrittenDecodes(rules: seq<Rule>, t: string)
    requires forall r | r in rules :: Sound(r) && Decodable(r)
    ensures Decode(Rewritten(rules, t)) == Decode(t)
  {
    hide Sound, Decode, Decodable, Escaping;
    if rules != [] {
      assert rules[0] in rules && forall r | r in rules[1..] :: r in rules;
      RewrittenDecodes(rules[1..], Sub(rules[0], t));
      ScanningEscapes(rules[0], t);
      MarksEscaping(rules[0], t);
      DecodeExpanded(t, Marks(rules[0], t));
    }
  }

  /** Modify, never delete: undoing the entities in the fenced text reads as undoing them in the original. */
  lemma FenceDeletesNothing(t: string)
    ensures Decode(Fence(t)) == Decode(t)
  {
    hide Sound, Decodable, Decode, Rewritten, AllRules;
    RulesSound();
    RewrittenDecodes(AllRules(), t);
  }
}
