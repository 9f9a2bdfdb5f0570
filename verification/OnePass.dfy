/**
 * Rules that leave one another's matches standing, applied one after another, escape exactly the characters that the
 * original text calls for, each by the first rule that hits it.
 */
module OnePass {
  import opened Patterns
  import opened Rules
  import opened Scrub

  /** Where `s` hits, `r` does not, and after `r` has been over the text `s` hits there still. */
  ghost predicate Undisturbed(r: Rule, s: Rule) {
    forall t, p | HitAt(s, t, p) :: Stands(r, s, t, p)
  }

  ghost predicate Stands(r: Rule, s: Rule, t: string, p: nat) {
    p < |t| && !HitAt(r, t, p) && HitAt(s, Escape(r, t), Off(Marks(r, t), p))
  }

  ghost predicate Independent(rules: seq<Rule>) {
    forall i, j | 0 <= i < j < |rules| :: Undisturbed(rules[i], rules[j])
  }

  /** What stands for one character of the original text. */
  function Struck(rules: seq<Rule>, t: string, p: nat): string
    requires p < |t|
  {
    if rules == [] then [t[p]]
    else if HitAt(rules[0], t, p) then rules[0].entity
    else Struck(rules[1..], t, p)
  }

  function AllStruck(rules: seq<Rule>, t: string): (reps: seq<string>)
    ensures |reps| == |t| && forall p | 0 <= p < |t| :: reps[p] == Struck(rules, t, p)
  {
    seq(|t|, p requires 0 <= p < |t| => Struck(rules, t, p))
  }

  /** The names of the rules that hit somewhere in the original text, in the order of the rules. */
  function Found(rules: seq<Rule>, t: string): seq<string> {
    if rules == [] then []
    else (if Bites(rules[0], t) then [rules[0].name] else []) + Found(rules[1..], t)
  }

  // ------------------------------------------------------------ one rule out of the way

  lemma MarksLong(r: Rule, t: string)
    requires Sound(r)
    ensures forall p | 0 <= p < |t| :: |Marks(r, t)[p]| >= 1
    ensures forall p | 0 <= p < |t| && HitAt(r, t, p) :: |Marks(r, t)[p]| >= 2
  {
    hide HitAt;
  }

  lemma OffApart(reps: seq<string>, a: nat, b: nat)
    requires a <= |reps| && b <= |reps| && forall p | 0 <= p < |reps| :: |reps[p]| >= 1
    ensures a < b ==> Off(reps, a) < Off(reps, b)
    ensures a < b ==> Off(reps, a + 1) <= Off(reps, b)
  {
    if a < b {
      OffMonotone(reps, a, b);
      OffMonotone(reps, a + 1, b);
    }
  }

  /** A character left alone is hit after the rule exactly when it was hit before it. */
  lemma SameHits(r: Rule, s: Rule, t: string, p: nat)
    requires Sound(r) && Sound(s) && Undisturbed(r, s) && p < |t| && !HitAt(r, t, p)
    ensures HitAt(s, Escape(r, t), Off(Marks(r, t), p)) <==> HitAt(s, t, p)
  {
    hide HitAt, Sound, Off;
    var reps := Marks(r, t);
    if HitAt(s, t, p) { assert Stands(r, s, t, p); }
    if HitAt(s, Escape(r, t), Off(reps, p)) {
      MarksEdit(r, t);
      MarksLong(r, t);
      var p' := HitReflected(s, t, reps, Off(reps, p));
      OffApart(reps, p, p');
      OffApart(reps, p', p);
    }
  }

  /** No rule hits inside what another has written. */
  lemma NoHitInside(r: Rule, s: Rule, t: string, p: nat, q: nat)
    requires Sound(r) && Sound(s) && p < |t| && HitAt(r, t, p)
    requires Off(Marks(r, t), p) <= q < Off(Marks(r, t), p + 1)
    ensures !HitAt(s, Escape(r, t), q)
  {
    hide HitAt, Sound, Off;
    var reps := Marks(r, t);
    if HitAt(s, Escape(r, t), q) {
      MarksEdit(r, t);
      MarksLong(r, t);
      var p' := HitReflected(s, t, reps, q);
      OffApart(reps, p', p);
      OffApart(reps, p, p');
    }
  }

  lemma {:induction false} StruckSame(rules: seq<Rule>, r: Rule, t: string, p: nat)
    requires Sound(r) && p < |t| && !HitAt(r, t, p)
    requires forall s | s in rules :: Sound(s) && Undisturbed(r, s)
    ensures Off(Marks(r, t), p) < |Escape(r, t)|
    ensures Struck(rules, Escape(r, t), Off(Marks(r, t), p)) == Struck(rules, t, p)
  {
    hide HitAt, Sound, Off, Undisturbed, Expand;
    CharAt(Marks(r, t), p, 0);
    if rules != [] {
      assert rules[0] in rules && forall s | s in rules[1..] :: s in rules;
      SameHits(r, rules[0], t, p);
      StruckSame(rules[1..], r, t, p);
    }
  }

  lemma {:induction false} StruckInside(rules: seq<Rule>, r: Rule, t: string, p: nat, q: nat)
    requires Sound(r) && p < |t| && HitAt(r, t, p) && forall s | s in rules :: Sound(s)
    requires Off(Marks(r, t), p) <= q < Off(Marks(r, t), p + 1) <= |Escape(r, t)|
    ensures Struck(rules, Escape(r, t), q) == [Escape(r, t)[q]]
  {
    hide HitAt, Sound, Off, Expand;
    if rules != [] {
      assert rules[0] in rules && forall s | s in rules[1..] :: s in rules;
      NoHitInside(r, rules[0], t, p, q);
      StruckInside(rules[1..], r, t, p, q);
    }
  }

  // ------------------------------------------------------------ all the rules at once

  /** What the later rules make of the stretch that stands for one character. */
  lemma Stretch(rules: seq<Rule>, r: Rule, t: string, p: nat)
    requires Sound(r) && p < |t| && forall s | s in rules :: Sound(s) && Undisturbed(r, s)
    ensures var reps, later := Marks(r, t), AllStruck(rules, Escape(r, t));
            && Off(reps, p) <= Off(reps, p + 1) <= |later|
            && Expand(later[Off(reps, p)..Off(reps, p + 1)]) == Struck([r] + rules, t, p)
  {
    hide HitAt, Sound, Undisturbed, Off, Expand;
    var reps, u := Marks(r, t), Escape(r, t);
    var later := AllStruck(rules, u);
    ExpandAt(reps, p);
    var a, b := Off(reps, p), Off(reps, p + 1);
    assert ([r] + rules)[1..] == rules;
    if HitAt(r, t, p) {
      forall q | a <= q < b ensures later[q] == [u[q]] { StruckInside(rules, r, t, p, q); }
      ExpandPlain(u[a..b], later[a..b]);
    } else {
      StruckSame(rules, r, t, p);
      assert later[a..b] == [later[a]];
      OneExpanded(later[a]);
    }
  }

  lemma OneExpanded(e: string)
    ensures Expand([e]) == e
  {
    assert [e][1..] == [];
  }

  lemma {:induction false} SuffixStruck(rules: seq<Rule>, r: Rule, t: string, p: nat)
    requires Sound(r) && p <= |t| && forall s | s in rules :: Sound(s) && Undisturbed(r, s)
    ensures Off(Marks(r, t), p) <= |Escape(r, t)|
    ensures Expand(AllStruck(rules, Escape(r, t))[Off(Marks(r, t), p)..]) == Expand(AllStruck([r] + rules, t)[p..])
    decreases |t| - p
  {
    hide HitAt, Sound, Undisturbed, Off, Expand, Struck;
    var reps, later, all := Marks(r, t), AllStruck(rules, Escape(r, t)), AllStruck([r] + rules, t);
    OffWithin(reps, p);
    if p == |t| {
      OffEnd(reps);
      assert later[Off(reps, p)..] == [] && all[p..] == [];
    } else {
      Stretch(rules, r, t, p);
      SuffixStruck(rules, r, t, p + 1);
      var a, b := Off(reps, p), Off(reps, p + 1);
      assert later[a..] == later[a..b] + later[b..];
      ExpandAppend(later[a..b], later[b..]);
      assert all[p..] == [all[p]] + all[p + 1..];
      ExpandCons(all[p], all[p + 1..]);
    }
  }

  lemma TailIndependent(rules: seq<Rule>)
    requires rules != [] && Independent(rules) && forall r | r in rules :: Sound(r)
    ensures Sound(rules[0]) && Independent(rules[1..])
    ensures forall s | s in rules[1..] :: Sound(s) && Undisturbed(rules[0], s)
  {
    hide Sound, Undisturbed;
    assert rules[0] in rules;
    forall s | s in rules[1..] ensures Sound(s) && Undisturbed(rules[0], s) {
      var k :| 0 <= k < |rules| - 1 && rules[1..][k] == s;
      assert rules[k + 1] == s && s in rules;
    }
  }

  /** The rules one after another are one substitution in the original text. */
  lemma {:induction false} OnePassExactly(rules: seq<Rule>, t: string)
    requires Independent(rules) && forall r | r in rules :: Sound(r)
    ensures Rewritten(rules, t) == Expand(AllStruck(rules, t))
  {
    hide Sound, Undisturbed, HitAt, Off, Independent;
    if rules == [] {
      ExpandPlain(t, AllStruck(rules, t));
    } else {
      var r, rest := rules[0], rules[1..];
      TailIndependent(rules);
      ScanningEscapes(r, t);
      OnePassExactly(rest, Escape(r, t));
      SuffixStruck(rest, r, t, 0);
      FromTheStart(Marks(r, t));
      assert rules == [r] + rest;
    }
  }

  lemma FromTheStart(reps: seq<string>)
    ensures Off(reps, 0) == 0
  {
  }

  lemma SameBites(r: Rule, s: Rule, t: string)
    requires Sound(r) && Sound(s) && Undisturbed(r, s)
    ensures Bites(s, Escape(r, t)) <==> Bites(s, t)
  {
    hide HitAt, Sound, Off, Expand;
    MarksEdit(r, t);
    if q :| 0 <= q < |Escape(r, t)| && HitAt(s, Escape(r, t), q) { var p := HitReflected(s, t, Marks(r, t), q); }
    if p :| 0 <= p < |t| && HitAt(s, t, p) {
      assert Stands(r, s, t, p);
      CharAt(Marks(r, t), p, 0);
    }
  }

  lemma {:induction false} SameFound(rules: seq<Rule>, r: Rule, t: string)
    requires Sound(r) && forall s | s in rules :: Sound(s) && Undisturbed(r, s)
    ensures Found(rules, Escape(r, t)) == Found(rules, t)
  {
    hide Sound, Undisturbed, Bites;
    if rules != [] {
      assert rules[0] in rules && forall s | s in rules[1..] :: s in rules;
      SameBites(r, rules[0], t);
      SameFound(rules[1..], r, t);
    }
  }

  /** What is reported is what the original text holds. */
  lemma {:induction false} BitingExactly(rules: seq<Rule>, t: string)
    requires Independent(rules) && forall r | r in rules :: Sound(r)
    ensures Biting(rules, t) == Found(rules, t)
  {
    hide Sound, Undisturbed, Bites, Independent;
    if rules != [] {
      TailIndependent(rules);
      ScanningEscapes(rules[0], t);
      BitingExactly(rules[1..], Escape(rules[0], t));
      SameFound(rules[1..], rules[0], t);
    }
  }

  // ------------------------------------------------------------ which rules leave which alone

  lemma KeptAhead(r: Rule, s: Rule, t: string, p: nat, j: nat)
    requires Sound(r) && s.front && p < j <= |t| && t[p] == s.anchor && Match(s.look, t, p + 1, j)
    requires forall k | p <= k < j :: !HitAt(r, t, k)
    ensures Stands(r, s, t, p)
  {
    hide Sound, HitAt, Match, Off, Expand;
    var reps := Marks(r, t);
    MarksEdit(r, t);
    assert Patterns.Untouched(t, reps, p, j);
    UntouchedSplit(t, reps, p, p + 1, j);
    MatchKept(s.look, t, reps, p + 1, j);
    UntouchedOff(t, reps, p, p + 1);
    CharAt(reps, p, 0);
    FrontHit(s, Escape(r, t), Off(reps, p), Off(reps, p + 1) + (j - (p + 1)));
  }

  lemma KeptBehind(r: Rule, s: Rule, t: string, i: nat, p: nat)
    requires Sound(r) && !s.front && i <= p < |t| && t[p] == s.anchor && Match(s.look, t, i, p)
    requires forall k | i <= k <= p :: !HitAt(r, t, k)
    ensures Stands(r, s, t, p)
  {
    hide Sound, HitAt, Match, Off, Expand;
    var reps := Marks(r, t);
    MarksEdit(r, t);
    assert Patterns.Untouched(t, reps, i, p);
    MatchKept(s.look, t, reps, i, p);
    UntouchedOff(t, reps, i, p);
    CharAt(reps, p, 0);
    BackHit(s, Escape(r, t), Off(reps, i), Off(reps, p));
  }

  lemma NoAnchorNoHit(r: Rule, t: string, k: nat)
    requires k < |t| && t[k] != r.anchor
    ensures !HitAt(r, t, k)
  {
  }

  /** A rule whose pattern cannot hold another's character is not disturbed by it. */
  lemma ApartUndisturbed(r: Rule, s: Rule)
    requires Sound(r) && r.anchor != s.anchor && Avoids(s.look, [r.anchor])
    ensures Undisturbed(r, s)
  {
    hide Sound, HitAt, Match, Stands;
    forall t, p | HitAt(s, t, p) ensures Stands(r, s, t, p) {
      if s.front {
        var j := FrontHitEnd(s, t, p);
        SpanAvoids(s.look, t, p + 1, j, [r.anchor]);
        forall k | p <= k < j ensures !HitAt(r, t, k) { NoAnchorNoHit(r, t, k); }
        KeptAhead(r, s, t, p, j);
      } else {
        var i := BackHitStart(s, t, p);
        SpanAvoids(s.look, t, i, p, [r.anchor]);
        forall k | i <= k <= p ensures !HitAt(r, t, k) { NoAnchorNoHit(r, t, k); }
        KeptBehind(r, s, t, i, p);
      }
    }
  }
}
