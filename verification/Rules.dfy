/**
 * A rewriting rule that escapes one character where a pattern stands beside it, and why such rules settle in one pass.
 */
module Rules {
  import opened Patterns

  /** `front`: the anchor is escaped when `look` matches just after it; otherwise when `look` matches just before it. */
  datatype Rule = Rule(name: string, anchor: char, look: Re, front: bool, entity: string)

  ghost predicate Sound(r: Rule) {
    && r.anchor in "<[-:" && Entity(r.entity)
    && Avoids(r.look, "&;") && (!r.front ==> Avoids(r.look, [r.anchor]))
  }

  predicate HitAt(r: Rule, t: string, p: nat) {
    && p < |t| && t[p] == r.anchor
    && if r.front then Ahead(r.look, t, p + 1) else Behind(r.look, t, p)
  }

  predicate Ahead(look: Re, t: string, i: nat)
    requires i <= |t|
  {
    exists j | i <= j <= |t| :: Match(look, t, i, j)
  }

  predicate Behind(look: Re, t: string, j: nat)
    requires j <= |t|
  {
    exists i | 0 <= i <= j :: Match(look, t, i, j)
  }

  /** The rule matches nowhere. */
  ghost predicate Clean(r: Rule, t: string) {
    forall p | 0 <= p < |t| :: !HitAt(r, t, p)
  }

  lemma AheadEnd(look: Re, t: string, i: nat) returns (j: nat)
    requires i <= |t| && Ahead(look, t, i)
    ensures i <= j <= |t| && Match(look, t, i, j)
  {
    j :| i <= j <= |t| && Match(look, t, i, j);
  }

  lemma FrontHit(r: Rule, t: string, p: nat, j: nat)
    requires r.front && p < |t| && t[p] == r.anchor && p + 1 <= j <= |t| && Match(r.look, t, p + 1, j)
    ensures HitAt(r, t, p)
  {
  }

  lemma FrontHitEnd(r: Rule, t: string, p: nat) returns (j: nat)
    requires r.front && HitAt(r, t, p)
    ensures p < |t| && t[p] == r.anchor && p + 1 <= j <= |t| && Match(r.look, t, p + 1, j)
  {
    j := AheadEnd(r.look, t, p + 1);
  }

  lemma BackHit(r: Rule, t: string, i: nat, p: nat)
    requires !r.front && i <= p < |t| && t[p] == r.anchor && Match(r.look, t, i, p)
    ensures HitAt(r, t, p)
  {
  }

  lemma BackHitStart(r: Rule, t: string, p: nat) returns (i: nat)
    requires !r.front && HitAt(r, t, p)
    ensures i <= p < |t| && t[p] == r.anchor && Match(r.look, t, i, p)
  {
    i :| 0 <= i <= p && Match(r.look, t, i, p);
  }

  // ------------------------------------------------------------ escaping makes no new match

  /** An unescaped anchor starts where its replacement starts. */
  lemma AnchorAligned(w: string, reps: seq<string>, q: nat) returns (p: nat)
    requires |reps| == |w| && Edit(w, reps) && q < |Expand(reps)| && Expand(reps)[q] in "<[-:"
    ensures p < |w| && reps[p] == [w[p]] && Off(reps, p) == q && w[p] == Expand(reps)[q]
  {
    OffEnd(reps);
    p := Locate(reps, q, |reps|);
    CharAt(reps, p, q - Off(reps, p));
  }

  /** Going right from the start of a replacement without meeting `&`, nothing was escaped. */
  lemma {:induction false} AlignRight(w: string, reps: seq<string>, p: nat, n: nat)
    requires |reps| == |w| && Edit(w, reps) && p <= |w| && Off(reps, p) + n <= |Expand(reps)|
    requires forall k | Off(reps, p) <= k < Off(reps, p) + n :: Expand(reps)[k] != AMP
    ensures p + n <= |w| && Untouched(w, reps, p, p + n)
  {
    if n > 0 {
      AlignRight(w, reps, p, n - 1);
      UntouchedOff(w, reps, p, p + n - 1);
      OffEnd(reps);
      var k := p + n - 1;
      assert k < |w|;
      CharAt(reps, k, 0);
    }
  }

  /** Going left from the start of a replacement without meeting `;`, nothing was escaped. */
  lemma {:induction false} AlignLeft(w: string, reps: seq<string>, p: nat, n: nat)
    requires |reps| == |w| && Edit(w, reps) && p <= |w| && n <= Off(reps, p) <= |Expand(reps)|
    requires forall k | Off(reps, p) - n <= k < Off(reps, p) :: Expand(reps)[k] != SEMI
    ensures n <= p && Untouched(w, reps, p - n, p)
  {
    if n > 0 {
      AlignLeft(w, reps, p, n - 1);
      UntouchedOff(w, reps, p - (n - 1), p);
      var k := p - n;
      assert k >= 0;
      CharAt(reps, k, |reps[k]| - 1);
    }
  }

  /** Every match after the edit stood there, unescaped, before it. */
  lemma HitReflected(r: Rule, w: string, reps: seq<string>, q: nat) returns (p: nat)
    requires Sound(r) && |reps| == |w| && Edit(w, reps) && HitAt(r, Expand(reps), q)
    ensures p < |w| && HitAt(r, w, p) && reps[p] == [w[p]] && Off(reps, p) == q
  {
    var u := Expand(reps);
    p := AnchorAligned(w, reps, q);
    assert Off(reps, p + 1) == q + 1;
    if r.front {
      var j :| q + 1 <= j <= |u| && Match(r.look, u, q + 1, j);
      SpanAvoids(r.look, u, q + 1, j, "&;");
      AlignRight(w, reps, p + 1, j - (q + 1));
      MatchKept(r.look, w, reps, p + 1, p + 1 + (j - (q + 1)));
    } else {
      var i :| 0 <= i <= q && Match(r.look, u, i, q);
      SpanAvoids(r.look, u, i, q, "&;");
      AlignLeft(w, reps, p, q - i);
      UntouchedOff(w, reps, p - (q - i), p);
      MatchKept(r.look, w, reps, p - (q - i), p);
    }
  }

  lemma CleanStays(r: Rule, w: string, reps: seq<string>)
    requires Sound(r) && |reps| == |w| && Edit(w, reps) && Clean(r, w)
    ensures Clean(r, Expand(reps))
  {
    forall q | 0 <= q < |Expand(reps)| ensures !HitAt(r, Expand(reps), q) {
      if HitAt(r, Expand(reps), q) { var p := HitReflected(r, w, reps, q); }
    }
  }

  // ------------------------------------------------------------ one rule over the whole text

  function Marked(r: Rule, t: string, p: nat): string
    requires p < |t|
  {
    if HitAt(r, t, p) then r.entity else [t[p]]
  }

  function Marks(r: Rule, t: string): (reps: seq<string>)
    ensures |reps| == |t| && forall p | 0 <= p < |t| :: reps[p] == Marked(r, t, p)
  {
    seq(|t|, p requires 0 <= p < |t| => Marked(r, t, p))
  }

  /** The rule's effect, position by position. */
  function Escape(r: Rule, t: string): string { Expand(Marks(r, t)) }

  lemma MarksEdit(r: Rule, t: string)
    requires Sound(r)
    ensures Edit(t, Marks(r, t))
  {
  }

  lemma NoHitLeft(r: Rule, t: string, q: nat)
    requires Sound(r)
    ensures !HitAt(r, Escape(r, t), q)
  {
    MarksEdit(r, t);
    if HitAt(r, Escape(r, t), q) {
      var p := HitReflected(r, t, Marks(r, t), q);
    }
  }

  lemma EscapeCleans(r: Rule, t: string)
    requires Sound(r)
    ensures Clean(r, Escape(r, t))
  {
    forall q | 0 <= q < |Escape(r, t)| ensures !HitAt(r, Escape(r, t), q) { NoHitLeft(r, t, q); }
  }

  lemma {:induction false} ExpandPlain(t: string, reps: seq<string>)
    requires |reps| == |t| && forall p | 0 <= p < |t| :: reps[p] == [t[p]]
    ensures Expand(reps) == t
  {
    if t != "" {
      ExpandPlain(t[1..], reps[1..]);
      assert t == [t[0]] + t[1..];
    }
  }

  lemma EscapeNothing(r: Rule, t: string)
    requires Clean(r, t)
    ensures Escape(r, t) == t
  {
    ExpandPlain(t, Marks(r, t));
  }

  // ------------------------------------------------------------ the scanning substitution

  /** The end of a match of a back rule starting at `i`: the anchor's position. */
  function EndFrom(r: Rule, t: string, i: nat, p: nat): (end: int)
    requires i <= p <= |t|
    ensures end == -1 || (p <= end < |t| && t[end] == r.anchor && Match(r.look, t, i, end))
    ensures end == -1 ==> forall q | p <= q < |t| :: !(t[q] == r.anchor && Match(r.look, t, i, q))
    decreases |t| - p
  {
    if p == |t| then -1
    else if t[p] == r.anchor && Match(r.look, t, i, p) then p
    else EndFrom(r, t, i, p + 1)
  }

  /** `re.sub`: from left to right, the next match consumed whole before the next search. */
  function SubFrom(r: Rule, t: string, i: nat): string
    requires i <= |t|
    decreases |t| - i
  {
    if i == |t| then ""
    else if r.front then (if HitAt(r, t, i) then r.entity else [t[i]]) + SubFrom(r, t, i + 1)
    else
      var end := EndFrom(r, t, i, i);
      if end < 0 then [t[i]] + SubFrom(r, t, i + 1)
      else t[i..end] + r.entity + SubFrom(r, t, end + 1)
  }

  function Sub(r: Rule, t: string): string { SubFrom(r, t, 0) }

  /** No match that started earlier is still to end. */
  ghost predicate NonePending(r: Rule, t: string, i: nat)
    requires i <= |t|
  {
    forall s: nat, p: nat | s < i <= p < |t| && t[p] == r.anchor :: !Match(r.look, t, s, p)
  }

  lemma PendingStep(r: Rule, t: string, i: nat, next: nat)
    requires Sound(r) && !r.front && i < next <= |t| && NonePending(r, t, i)
    requires forall s: nat, p: nat | i <= s < next <= p < |t| && t[p] == r.anchor :: !Match(r.look, t, s, p)
    ensures NonePending(r, t, next)
  {
  }

  lemma PlainStretch(r: Rule, t: string, i: nat, end: nat)
    requires Sound(r) && !r.front && i <= end < |t| && Match(r.look, t, i, end)
    ensures forall p | i <= p < end :: t[p] != r.anchor && Marked(r, t, p) == [t[p]]
    ensures forall s: nat, p: nat | s <= end < p < |t| && t[end] == r.anchor :: !Match(r.look, t, s, p)
  {
    SpanAvoids(r.look, t, i, end, [r.anchor]);
    forall s: nat, p: nat | s <= end < p < |t| && t[end] == r.anchor ensures !Match(r.look, t, s, p) {
      if Match(r.look, t, s, p) { SpanAvoids(r.look, t, s, p, [r.anchor]); }
    }
  }

  lemma {:induction false} SubFrontIsEscape(r: Rule, t: string, i: nat)
    requires r.front && i <= |t|
    ensures SubFrom(r, t, i) == Expand(Marks(r, t)[i..])
    decreases |t| - i
  {
    hide HitAt;
    if i < |t| {
      SubFrontIsEscape(r, t, i + 1);
      assert Marks(r, t)[i..][1..] == Marks(r, t)[i + 1..];
    }
  }

  /** Where no match starts, and none is pending, the character stands for itself. */
  lemma NotAHit(r: Rule, t: string, i: nat)
    requires !r.front && i < |t| && NonePending(r, t, i) && EndFrom(r, t, i, i) < 0
    ensures !HitAt(r, t, i)
  {
    assert forall s | 0 <= s < i :: t[i] == r.anchor ==> !Match(r.look, t, s, i);
  }

  lemma ExpandAround(reps: seq<string>, i: nat, end: nat)
    requires i <= end < |reps|
    ensures Expand(reps[i..]) == Expand(reps[i..end]) + reps[end] + Expand(reps[end + 1..])
  {
    var tail := [reps[end]] + reps[end + 1..];
    assert reps[i..] == reps[i..end] + tail;
    assert tail[1..] == reps[end + 1..];
    ExpandAppend(reps[i..end], tail);
  }

  lemma ConsumedStretch(r: Rule, t: string, i: nat, end: nat)
    requires Sound(r) && !r.front && i <= end < |t| && t[end] == r.anchor && Match(r.look, t, i, end)
    ensures Expand(Marks(r, t)[i..]) == t[i..end] + r.entity + Expand(Marks(r, t)[end + 1..])
  {
    var reps := Marks(r, t);
    PlainStretch(r, t, i, end);
    assert HitAt(r, t, end);
    ExpandPlain(t[i..end], reps[i..end]);
    ExpandAround(reps, i, end);
  }

  /** Scanning and consuming finds exactly the positions a rule hits: matches never overlap. */
  lemma {:induction false} SubIsEscape(r: Rule, t: string, i: nat)
    requires Sound(r) && !r.front && i <= |t| && NonePending(r, t, i)
    ensures SubFrom(r, t, i) == Expand(Marks(r, t)[i..])
    decreases |t| - i
  {
    hide HitAt, NonePending, Sound, Match;
    if i < |t| {
      var end := EndFrom(r, t, i, i);
      if end < 0 {
        NotAHit(r, t, i);
        PendingStep(r, t, i, i + 1);
        SubIsEscape(r, t, i + 1);
        assert Marks(r, t)[i..][1..] == Marks(r, t)[i + 1..];
      } else {
        PlainStretch(r, t, i, end);
        PendingStep(r, t, i, end + 1);
        SubIsEscape(r, t, end + 1);
        ConsumedStretch(r, t, i, end);
      }
    }
  }

  lemma ScanningEscapes(r: Rule, t: string)
    requires Sound(r)
    ensures Sub(r, t) == Escape(r, t)
  {
    if r.front { SubFrontIsEscape(r, t, 0); } else { SubIsEscape(r, t, 0); }
    assert Marks(r, t)[0..] == Marks(r, t);
  }
}
