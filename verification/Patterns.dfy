/** Regular expressions as the scrub rules use them, over ASCII classes, and in-place escaping of single characters. */
module Patterns {

  datatype Class = Exact(c: char) | Fold(c: char) | Space | Blank | WordStart | NameChar | Outside(excluded: string)

  datatype Re = Nothing | Ch(cls: Class) | Many(cls: Class) | Cat(a: Re, b: Re) | Alt(a: Re, b: Re) | Bound

  function Lower(c: char): char {
    if 'A' <= c <= 'Z' then (c as int + 32) as char else c
  }

  predicate IsWord(c: char) {
    'a' <= c <= 'z' || 'A' <= c <= 'Z' || '0' <= c <= '9' || c == '_'
  }

  predicate IsBlank(c: char) { c == ' ' || c == '\t' }

  /** `\s`, on ASCII. */
  predicate IsSpace(c: char) {
    IsBlank(c) || '\n' <= c <= '\r' || '\U{001C}' <= c <= '\U{001F}'
  }

  function StripLeft(t: string): string {
    if t != "" && IsSpace(t[0]) then StripLeft(t[1..]) else t
  }

  function StripRight(t: string): string {
    if t != "" && IsSpace(t[|t| - 1]) then StripRight(t[..|t| - 1]) else t
  }

  /** `str.strip`, on ASCII. */
  function Strip(t: string): string { StripRight(StripLeft(t)) }

  /** Stripping takes what is white off both ends, and no more: what is left neither starts nor ends white. */
  lemma StripExactly(t: string) returns (a: nat, b: nat)
    ensures a <= b <= |t| && Strip(t) == t[a..b]
    ensures forall k | 0 <= k < a || b <= k < |t| :: t[k] == ' ' || 9 <= t[k] as int <= 13 || 28 <= t[k] as int <= 31
    ensures a < b ==> !IsSpace(t[a]) && !IsSpace(t[b - 1])
  {
    a := StripLeftExactly(t);
    b := StripRightExactly(t[a..]);
    forall k | 0 <= k < a || a + b <= k < |t| ensures IsSpace(t[k]) {
      if k >= a { assert t[k] == t[a..][k - a]; }
    }
    b := a + b;
  }

  lemma {:induction false} StripLeftExactly(t: string) returns (a: nat)
    ensures a <= |t| && StripLeft(t) == t[a..] && (forall k | 0 <= k < a :: IsSpace(t[k]))
    ensures a < |t| ==> !IsSpace(t[a])
  {
    a := 0;
    if t != "" && IsSpace(t[0]) {
      a := StripLeftExactly(t[1..]);
      assert forall k | 0 < k <= a :: t[k] == t[1..][k - 1];
      a := a + 1;
    }
  }

  lemma {:induction false} StripRightExactly(t: string) returns (b: nat)
    ensures b <= |t| && StripRight(t) == t[..b] && (forall k | b <= k < |t| :: IsSpace(t[k]))
    ensures b > 0 ==> !IsSpace(t[b - 1])
  {
    b := |t|;
    if t != "" && IsSpace(t[|t| - 1]) {
      b := StripRightExactly(t[..|t| - 1]);
      assert forall k | b <= k < |t| - 1 :: t[k] == t[..|t| - 1][k];
    }
  }

  predicate In(cls: Class, x: char) {
    match cls
    case Exact(c) => x == c
    case Fold(c) => Lower(x) == Lower(c)
    case Space => IsSpace(x)
    case Blank => IsBlank(x)
    case WordStart => 'a' <= x <= 'z' || 'A' <= x <= 'Z' || x == '_'
    case NameChar => IsWord(x) || x == '.' || x == '-'
    case Outside(excluded) => x !in excluded
  }

  /** `\b`: exactly one side of the position is a word character. */
  predicate Boundary(t: string, i: nat)
    requires i <= |t|
  {
    (i > 0 && IsWord(t[i - 1])) != (i < |t| && IsWord(t[i]))
  }

  /** `re` matches `t[i..j]` where it stands. */
  predicate Match(re: Re, t: string, i: nat, j: nat)
    requires i <= j <= |t|
    decreases re
  {
    match re
    case Nothing => i == j
    case Ch(cls) => j == i + 1 && In(cls, t[i])
    case Many(cls) => forall k | i <= k < j :: In(cls, t[k])
    case Cat(a, b) => exists k | i <= k <= j :: Match(a, t, i, k) && Match(b, t, k, j)
    case Alt(a, b) => Match(a, t, i, j) || Match(b, t, i, j)
    case Bound => i == j && Boundary(t, i)
  }

  function Opt(re: Re): Re { Alt(re, Nothing) }

  /** A word, in any case. */
  function Word(w: string): Re {
    if w == "" then Nothing else Cat(Ch(Fold(w[0])), Word(w[1..]))
  }

  /** Literal text, case and all. */
  function Literal(w: string): Re {
    if w == "" then Nothing else Cat(Ch(Exact(w[0])), Literal(w[1..]))
  }

  function AnyWord(ws: seq<string>): Re
    requires ws != []
  {
    if |ws| == 1 then Word(ws[0]) else Alt(Word(ws[0]), AnyWord(ws[1..]))
  }

  /** No class of `re` admits any of these characters. */
  predicate Avoids(re: Re, chars: string) {
    match re
    case Nothing => true
    case Bound => true
    case Ch(cls) => forall c | c in chars :: !In(cls, c)
    case Many(cls) => forall c | c in chars :: !In(cls, c)
    case Cat(a, b) => Avoids(a, chars) && Avoids(b, chars)
    case Alt(a, b) => Avoids(a, chars) && Avoids(b, chars)
  }

  lemma {:induction false} SpanAvoids(re: Re, t: string, i: nat, j: nat, chars: string)
    requires i <= j <= |t| && Avoids(re, chars) && Match(re, t, i, j)
    ensures forall k | i <= k < j :: t[k] !in chars
  {
    match re
    case Nothing =>
    case Bound =>
    case Ch(cls) =>
    case Many(cls) =>
    case Cat(a, b) =>
      var k :| i <= k <= j && Match(a, t, i, k) && Match(b, t, k, j);
      SpanAvoids(a, t, i, k, chars);
      SpanAvoids(b, t, k, j, chars);
    case Alt(a, b) =>
      if Match(a, t, i, j) { SpanAvoids(a, t, i, j, chars); } else { SpanAvoids(b, t, i, j, chars); }
  }

  // ------------------------------------------------------------ escaping characters in place

  const AMP := '&'
  const SEMI := ';'

  /** An HTML entity: framed by `&` and `;`, and holding none of the characters a rule can start or end on. */
  predicate Entity(e: string) {
    && |e| >= 2 && e[0] == AMP && e[|e| - 1] == SEMI
    && (forall k | 0 < k < |e| :: e[k] != AMP)
    && (forall k | 0 <= k < |e| - 1 :: e[k] != SEMI)
    && (forall k | 0 <= k < |e| :: e[k] !in "<[-:>\"\r\n")
  }

  /** `reps[p]` is what stands for `w[p]`: itself, or an entity when it is not a word character. */
  ghost predicate Edit(w: string, reps: seq<string>) {
    && |reps| == |w|
    && forall p | 0 <= p < |w| :: reps[p] == [w[p]] || (Entity(reps[p]) && !IsWord(w[p]))
  }

  function Expand(reps: seq<string>): string {
    if reps == [] then "" else reps[0] + Expand(reps[1..])
  }

  /** Where the `i`-th replacement begins. */
  function Off(reps: seq<string>, i: nat): nat
    requires i <= |reps|
  {
    if i == 0 then 0 else Off(reps, i - 1) + |reps[i - 1]|
  }

  lemma ExpandCons(e: string, rest: seq<string>)
    ensures Expand([e] + rest) == e + Expand(rest)
  {
    assert ([e] + rest)[1..] == rest;
  }

  lemma {:induction false} ExpandAppend(a: seq<string>, b: seq<string>)
    ensures Expand(a + b) == Expand(a) + Expand(b)
  {
    hide Expand;
    if a == [] {
      ExpandNothing();
      assert a + b == b;
    } else {
      ExpandAppend(a[1..], b);
      ExpandCons(a[0], a[1..] + b);
      ExpandCons(a[0], a[1..]);
      HeadFirst(a, b);
      Associate(a[0], Expand(a[1..]), Expand(b));
    }
  }

  lemma ExpandNothing()
    ensures Expand([]) == ""
  {
  }

  lemma HeadFirst(a: seq<string>, b: seq<string>)
    requires a != []
    ensures a == [a[0]] + a[1..] && a + b == [a[0]] + (a[1..] + b)
  {
  }

  lemma Associate(x: string, y: string, z: string)
    ensures x + (y + z) == (x + y) + z
  {
  }

  lemma {:induction false} OffIsLength(reps: seq<string>, i: nat)
    requires i <= |reps|
    ensures Off(reps, i) == |Expand(reps[..i])|
  {
    if i > 0 {
      OffIsLength(reps, i - 1);
      assert reps[..i] == reps[..i - 1] + [reps[i - 1]];
      ExpandAppend(reps[..i - 1], [reps[i - 1]]);
      assert Expand([reps[i - 1]]) == reps[i - 1] + "";
    }
  }

  /** The text at one replacement. */
  lemma ExpandAt(reps: seq<string>, i: nat)
    requires i < |reps|
    ensures Off(reps, i + 1) == Off(reps, i) + |reps[i]| <= |Expand(reps)|
    ensures Expand(reps)[Off(reps, i)..Off(reps, i + 1)] == reps[i]
  {
    OffIsLength(reps, i);
    assert reps == reps[..i] + ([reps[i]] + reps[i + 1..]);
    ExpandAppend(reps[..i], [reps[i]] + reps[i + 1..]);
    assert ([reps[i]] + reps[i + 1..])[1..] == reps[i + 1..];
    var a, b, c := Expand(reps[..i]), reps[i], Expand(reps[i + 1..]);
    assert Expand(reps) == a + (b + c);
    assert (a + (b + c))[|a|..|a| + |b|] == b;
  }

  lemma OffEnd(reps: seq<string>)
    ensures Off(reps, |reps|) == |Expand(reps)|
  {
    OffIsLength(reps, |reps|);
    assert reps[..|reps|] == reps;
  }

  /** Every position of the result falls in exactly one replacement. */
  lemma {:induction false} Locate(reps: seq<string>, q: nat, hi: nat) returns (p: nat)
    requires hi <= |reps| && q < Off(reps, hi)
    ensures p < hi && Off(reps, p) <= q < Off(reps, p) + |reps[p]|
  {
    if q < Off(reps, hi - 1) {
      p := Locate(reps, q, hi - 1);
    } else {
      p := hi - 1;
    }
  }

  lemma CharAt(reps: seq<string>, i: nat, d: nat)
    requires i < |reps| && d < |reps[i]|
    ensures Off(reps, i) + d < |Expand(reps)| && Expand(reps)[Off(reps, i) + d] == reps[i][d]
  {
    ExpandAt(reps, i);
    assert Expand(reps)[Off(reps, i)..Off(reps, i + 1)][d] == reps[i][d];
  }

  /** The character after a position keeps its kind: an entity and what it replaces are both no word character. */
  lemma NextKind(w: string, reps: seq<string>, i: nat)
    requires Edit(w, reps) && i <= |w|
    ensures Off(reps, i) <= |Expand(reps)|
    ensures (Off(reps, i) < |Expand(reps)| && IsWord(Expand(reps)[Off(reps, i)])) == (i < |w| && IsWord(w[i]))
  {
    if i < |w| { CharAt(reps, i, 0); } else { OffEnd(reps); }
  }

  lemma LastKind(w: string, reps: seq<string>, i: nat)
    requires Edit(w, reps) && 0 < i <= |w|
    ensures 0 < Off(reps, i) <= |Expand(reps)| && IsWord(Expand(reps)[Off(reps, i) - 1]) == IsWord(w[i - 1])
  {
    CharAt(reps, i - 1, |reps[i - 1]| - 1);
  }

  /** Escaping moves no word boundary. */
  lemma BoundaryKept(w: string, reps: seq<string>, i: nat)
    requires Edit(w, reps) && i <= |w|
    ensures Off(reps, i) <= |Expand(reps)| && Boundary(Expand(reps), Off(reps, i)) == Boundary(w, i)
  {
    hide Edit;
    NextKind(w, reps, i);
    if i > 0 { LastKind(w, reps, i); }
  }

  /** Nothing between `i` and `j` was escaped. */
  ghost predicate Untouched(w: string, reps: seq<string>, i: nat, j: nat)
    requires i <= j <= |w| == |reps|
  {
    forall k | i <= k < j :: reps[k] == [w[k]]
  }

  lemma {:induction false} UntouchedOff(w: string, reps: seq<string>, i: nat, j: nat)
    requires i <= j <= |w| == |reps| && Untouched(w, reps, i, j)
    ensures Off(reps, j) == Off(reps, i) + (j - i)
    decreases j
  {
    if i < j {
      UntouchedOff(w, reps, i, j - 1);
      assert reps[j - 1] == [w[j - 1]];
    }
  }

  lemma UntouchedText(w: string, reps: seq<string>, i: nat, j: nat)
    requires i <= j <= |w| == |reps| && Untouched(w, reps, i, j)
    ensures Off(reps, j) == Off(reps, i) + (j - i) <= |Expand(reps)|
    ensures forall k | i <= k < j :: Expand(reps)[Off(reps, i) + (k - i)] == w[k]
  {
    hide Expand, Off;
    OffWithin(reps, j);
    UntouchedOff(w, reps, i, j);
    forall k | i <= k < j ensures Expand(reps)[Off(reps, i) + (k - i)] == w[k] {
      UntouchedOff(w, reps, i, k);
      assert reps[k] == [w[k]];
      CharAt(reps, k, 0);
    }
  }

  lemma OffWithin(reps: seq<string>, i: nat)
    requires i <= |reps|
    ensures Off(reps, i) <= |Expand(reps)|
  {
    if i < |reps| { ExpandAt(reps, i); } else { OffEnd(reps); }
  }

  lemma UntouchedSplit(w: string, reps: seq<string>, i: nat, k: nat, j: nat)
    requires i <= k <= j <= |w| == |reps| && Untouched(w, reps, i, j)
    ensures Untouched(w, reps, i, k) && Untouched(w, reps, k, j)
  {
  }

  lemma ManyKept(cls: Class, w: string, u: string, i: nat, j: nat, o: nat)
    requires i <= j <= |w| && o + (j - i) <= |u| && forall k | i <= k < j :: u[o + (k - i)] == w[k]
    ensures Match(Many(cls), u, o, o + (j - i)) <==> Match(Many(cls), w, i, j)
  {
    if Match(Many(cls), u, o, o + (j - i)) {
      forall k | i <= k < j ensures In(cls, w[k]) { assert In(cls, u[o + (k - i)]); }
    }
    if Match(Many(cls), w, i, j) {
      forall m | o <= m < o + (j - i) ensures In(cls, u[m]) {
        var k := i + (m - o);
        assert u[o + (k - i)] == w[k] && In(cls, w[k]);
      }
    }
  }

  lemma CatSplit(a: Re, b: Re, t: string, i: nat, j: nat) returns (k: nat)
    requires i <= j <= |t| && Match(Cat(a, b), t, i, j)
    ensures i <= k <= j && Match(a, t, i, k) && Match(b, t, k, j)
  {
    k :| i <= k <= j && Match(a, t, i, k) && Match(b, t, k, j);
  }

  lemma CatJoin(a: Re, b: Re, t: string, i: nat, k: nat, j: nat)
    requires i <= k <= j <= |t| && Match(a, t, i, k) && Match(b, t, k, j)
    ensures Match(Cat(a, b), t, i, j)
  {
  }

  /** On an unescaped stretch a pattern matches after the edit exactly when it matched before. */
  lemma {:induction false} MatchKept(re: Re, w: string, reps: seq<string>, i: nat, j: nat)
    requires i <= j <= |w| == |reps| && Edit(w, reps) && Untouched(w, reps, i, j)
    ensures Off(reps, i) + (j - i) <= |Expand(reps)|
    ensures Match(re, Expand(reps), Off(reps, i), Off(reps, i) + (j - i)) <==> Match(re, w, i, j)
    decreases re, 2
  {
    hide Edit, Expand, Untouched, Boundary;
    var u, o := Expand(reps), Off(reps, i);
    UntouchedText(w, reps, i, j);
    match re
    case Nothing =>
    case Bound => BoundaryKept(w, reps, i);
    case Ch(cls) => if j == i + 1 { assert u[o + (i - i)] == w[i]; }
    case Many(cls) => ManyKept(cls, w, u, i, j, o);
    case Cat(a, b) =>
      if Match(re, u, o, o + (j - i)) { CatBefore(a, b, w, reps, i, j); }
      if Match(re, w, i, j) { CatAfter(a, b, w, reps, i, j); }
    case Alt(a, b) =>
      MatchKept(a, w, reps, i, j);
      MatchKept(b, w, reps, i, j);
  }

  lemma {:induction false} CatBefore(a: Re, b: Re, w: string, reps: seq<string>, i: nat, j: nat)
    requires i <= j <= |w| == |reps| && Edit(w, reps) && Untouched(w, reps, i, j)
    requires Off(reps, i) + (j - i) <= |Expand(reps)|
    requires Match(Cat(a, b), Expand(reps), Off(reps, i), Off(reps, i) + (j - i))
    ensures Match(Cat(a, b), w, i, j)
    decreases Cat(a, b), 1
  {
    hide Edit, Expand, Untouched, Match;
    var o := Off(reps, i);
    var m := CatSplit(a, b, Expand(reps), o, o + (j - i));
    var k := i + (m - o);
    PiecesKept(a, b, w, reps, i, k, j);
    CatJoin(a, b, w, i, k, j);
  }

  lemma {:induction false} CatAfter(a: Re, b: Re, w: string, reps: seq<string>, i: nat, j: nat)
    requires i <= j <= |w| == |reps| && Edit(w, reps) && Untouched(w, reps, i, j)
    requires Match(Cat(a, b), w, i, j) && Off(reps, i) + (j - i) <= |Expand(reps)|
    ensures Match(Cat(a, b), Expand(reps), Off(reps, i), Off(reps, i) + (j - i))
    decreases Cat(a, b), 1
  {
    hide Edit, Expand, Untouched, Match;
    var o := Off(reps, i);
    var k := CatSplit(a, b, w, i, j);
    PiecesKept(a, b, w, reps, i, k, j);
    CatJoin(a, b, Expand(reps), o, o + (k - i), o + (j - i));
  }

  lemma {:induction false} PiecesKept(a: Re, b: Re, w: string, reps: seq<string>, i: nat, k: nat, j: nat)
    requires i <= k <= j <= |w| == |reps| && Edit(w, reps) && Untouched(w, reps, i, j)
    ensures var u, o := Expand(reps), Off(reps, i);
            && o + (j - i) <= |u|
            && (Match(a, u, o, o + (k - i)) <==> Match(a, w, i, k))
            && (Match(b, u, o + (k - i), o + (j - i)) <==> Match(b, w, k, j))
    decreases Cat(a, b), 0
  {
    hide Edit, Expand, Untouched, Match;
    UntouchedSplit(w, reps, i, k, j);
    UntouchedOff(w, reps, i, k);
    MatchKept(a, w, reps, i, k);
    MatchKept(b, w, reps, k, j);
  }

  // ------------------------------------------------------------ building matches

  lemma {:induction false} LiteralMatches(s: string, t: string, i: nat)
    requires i + |s| <= |t| && t[i..i + |s|] == s
    ensures Match(Literal(s), t, i, i + |s|)
  {
    if s != "" {
      assert t[i] == t[i..i + |s|][0];
      assert t[i + 1..i + 1 + |s[1..]|] == t[i..i + |s|][1..];
      LiteralMatches(s[1..], t, i + 1);
      CatJoin(Ch(Exact(s[0])), Literal(s[1..]), t, i, i + 1, i + |s|);
    }
  }

  lemma {:induction false} LiteralStands(s: string, t: string, i: nat, j: nat)
    requires i <= j <= |t| && Match(Literal(s), t, i, j)
    ensures j == i + |s| && forall k | 0 <= k < |s| :: t[i + k] == s[k]
  {
    if s != "" {
      var m := CatSplit(Ch(Exact(s[0])), Literal(s[1..]), t, i, j);
      LiteralStands(s[1..], t, m, j);
      forall k | 0 <= k < |s| ensures t[i + k] == s[k] {
        if k > 0 { assert t[m + (k - 1)] == s[1..][k - 1]; }
      }
    }
  }

  lemma ManyMatches(cls: Class, p: string, t: string, i: nat)
    requires i + |p| <= |t| && t[i..i + |p|] == p && forall c | c in p :: In(cls, c)
    ensures Match(Many(cls), t, i, i + |p|)
  {
    forall k | i <= k < i + |p| ensures In(cls, t[k]) { assert t[k] == p[k - i]; }
  }

  // ------------------------------------------------------------ matching inside a longer text

  lemma SuffixBoundary(pre: string, t: string, i: nat)
    requires 1 <= i <= |t|
    ensures Boundary(pre + t, |pre| + i) == Boundary(t, i)
  {
    assert (pre + t)[|pre| + i - 1] == t[i - 1];
    assert i < |t| ==> (pre + t)[|pre| + i] == t[i];
  }

  lemma PrefixBoundary(t: string, post: string, i: nat)
    requires i <= |t| && (post == "" || !IsWord(post[0]))
    ensures Boundary(t + post, i) == Boundary(t, i)
  {
    assert i > 0 ==> (t + post)[i - 1] == t[i - 1];
    assert i < |t| ==> (t + post)[i] == t[i];
    assert i == |t| && post != "" ==> (t + post)[i] == post[0];
  }

  /** Away from the front, what stands before a text does not matter to a match in it. */
  lemma {:induction false} SuffixMatch(re: Re, pre: string, t: string, i: nat, j: nat)
    requires 1 <= i <= j <= |t|
    ensures Match(re, pre + t, |pre| + i, |pre| + j) == Match(re, t, i, j)
    decreases re
  {
    hide Boundary;
    var u, n := pre + t, |pre|;
    assert |u| == n + |t|;
    match re
    case Nothing =>
    case Bound => SuffixBoundary(pre, t, i);
    case Ch(cls) => assert i < |t| ==> u[n + i] == t[i];
    case Many(cls) => ManyKept(cls, t, u, i, j, n + i);
    case Cat(a, b) =>
      if Match(re, u, n + i, n + j) {
        var m := CatSplit(a, b, u, n + i, n + j);
        SuffixMatch(a, pre, t, i, m - n);
        SuffixMatch(b, pre, t, m - n, j);
        CatJoin(a, b, t, i, m - n, j);
      }
      if Match(re, t, i, j) {
        var k := CatSplit(a, b, t, i, j);
        SuffixMatch(a, pre, t, i, k);
        SuffixMatch(b, pre, t, k, j);
        CatJoin(a, b, u, n + i, n + k, n + j);
      }
    case Alt(a, b) =>
      SuffixMatch(a, pre, t, i, j);
      SuffixMatch(b, pre, t, i, j);
  }

  /** A match that ends within a text is the same when something that starts with no word character follows. */
  lemma {:induction false} PrefixMatch(re: Re, t: string, post: string, i: nat, j: nat)
    requires i <= j <= |t| && (post == "" || !IsWord(post[0]))
    ensures Match(re, t + post, i, j) == Match(re, t, i, j)
    decreases re
  {
    hide Boundary;
    var u := t + post;
    match re
    case Nothing =>
    case Bound => PrefixBoundary(t, post, i);
    case Ch(cls) => assert i < |t| ==> u[i] == t[i];
    case Many(cls) => ManyKept(cls, t, u, i, j, i);
    case Cat(a, b) =>
      if Match(re, u, i, j) {
        var k := CatSplit(a, b, u, i, j);
        PrefixMatch(a, t, post, i, k);
        PrefixMatch(b, t, post, k, j);
        CatJoin(a, b, t, i, k, j);
      }
      if Match(re, t, i, j) {
        var k := CatSplit(a, b, t, i, j);
        PrefixMatch(a, t, post, i, k);
        PrefixMatch(b, t, post, k, j);
        CatJoin(a, b, u, i, k, j);
      }
    case Alt(a, b) =>
      PrefixMatch(a, t, post, i, j);
      PrefixMatch(b, t, post, i, j);
  }

  lemma {:induction false} WordMatches(w: string, t: string, i: nat, j: nat)
    requires i <= j <= |t| && Match(Word(w), t, i, j)
    ensures j == i + |w| && forall k | 0 <= k < |w| :: Lower(t[i + k]) == Lower(w[k])
  {
    if w != "" {
      var m := CatSplit(Ch(Fold(w[0])), Word(w[1..]), t, i, j);
      WordMatches(w[1..], t, m, j);
      forall k | 0 <= k < |w| ensures Lower(t[i + k]) == Lower(w[k]) {
        if k > 0 { assert Lower(t[m + (k - 1)]) == Lower(w[1..][k - 1]); }
      }
    }
  }

  lemma {:induction false} AnyWordMatches(ws: seq<string>, t: string, i: nat, j: nat) returns (n: nat)
    requires ws != [] && i <= j <= |t| && Match(AnyWord(ws), t, i, j)
    ensures n < |ws| && Match(Word(ws[n]), t, i, j)
  {
    if |ws| == 1 || Match(Word(ws[0]), t, i, j) {
      n := 0;
    } else {
      n := AnyWordMatches(ws[1..], t, i, j);
      n := n + 1;
    }
  }

  lemma {:induction false} WordStands(w: string, t: string, i: nat)
    requires i + |w| <= |t| && forall k | 0 <= k < |w| :: Lower(t[i + k]) == Lower(w[k])
    ensures Match(Word(w), t, i, i + |w|)
  {
    if w != "" {
      forall k | 0 <= k < |w[1..]| ensures Lower(t[i + 1 + k]) == Lower(w[1..][k]) {
        assert Lower(t[i + (k + 1)]) == Lower(w[k + 1]);
      }
      WordStands(w[1..], t, i + 1);
      assert Lower(t[i + 0]) == Lower(w[0]);
      CatJoin(Ch(Fold(w[0])), Word(w[1..]), t, i, i + 1, i + |w|);
    }
  }

  lemma {:induction false} AnyWordStands(ws: seq<string>, n: nat, t: string, i: nat, j: nat)
    requires n < |ws| && i <= j <= |t| && Match(Word(ws[n]), t, i, j)
    ensures Match(AnyWord(ws), t, i, j)
  {
    if n > 0 { AnyWordStands(ws[1..], n - 1, t, i, j); }
  }

  // ------------------------------------------------------------ indenting every new line

  predicate Spaces(pad: string) { forall k | 0 <= k < |pad| :: pad[k] == ' ' }

  function IndentReps(t: string, pad: string): (reps: seq<string>)
    ensures |reps| == |t| && forall p | 0 <= p < |t| :: reps[p] == if t[p] == '\n' then "\n" + pad else [t[p]]
  {
    seq(|t|, p requires 0 <= p < |t| => if t[p] == '\n' then "\n" + pad else [t[p]])
  }

  /** `pad` after every line break. */
  function Indented(t: string, pad: string): string { Expand(IndentReps(t, pad)) }

  /** The first position of the original at or after this one of the indented text. */
  ghost predicate Maps(t: string, pad: string, q: nat, p: nat) {
    && p <= |t| && q <= Off(IndentReps(t, pad), p)
    && (p > 0 ==> Off(IndentReps(t, pad), p - 1) < q)
  }

  /** No single-character step of `re` takes a space; runs may. */
  predicate StepsNoSpace(re: Re) {
    match re
    case Ch(cls) => !In(cls, ' ')
    case Cat(a, b) => StepsNoSpace(a) && StepsNoSpace(b)
    case Alt(a, b) => StepsNoSpace(a) && StepsNoSpace(b)
    case _ => true
  }

  lemma {:induction false} OffMonotone(reps: seq<string>, a: nat, b: nat)
    requires a <= b <= |reps| && forall p | 0 <= p < |reps| :: |reps[p]| >= 1
    ensures Off(reps, a) + (b - a) <= Off(reps, b)
  {
    if a < b { OffMonotone(reps, a, b - 1); }
  }

  lemma MapsExists(t: string, pad: string, q: nat) returns (p: nat)
    requires q <= |Indented(t, pad)|
    ensures Maps(t, pad, q, p)
  {
    var reps := IndentReps(t, pad);
    OffEnd(reps);
    p := LeastReaching(reps, q, |t|);
  }

  lemma {:induction false} LeastReaching(reps: seq<string>, q: nat, hi: nat) returns (p: nat)
    requires hi <= |reps| && q <= Off(reps, hi)
    ensures p <= hi && q <= Off(reps, p) && (p > 0 ==> Off(reps, p - 1) < q)
  {
    if hi == 0 || Off(reps, hi - 1) < q {
      p := hi;
    } else {
      p := LeastReaching(reps, q, hi - 1);
    }
  }

  /** The image of a position is unique and monotone. */
  lemma MapsMonotone(t: string, pad: string, q: nat, p: nat, q': nat, p': nat)
    requires Maps(t, pad, q, p) && Maps(t, pad, q', p') && q <= q'
    ensures p <= p'
  {
    if p > p' { OffMonotone(IndentReps(t, pad), p', p - 1); }
  }

  /** The character at an image, and where it came from. */
  lemma IndentedChar(t: string, pad: string, q: nat, p: nat)
    requires Spaces(pad) && Maps(t, pad, q, p) && q < |Indented(t, pad)|
    ensures p <= |t| && q <= Off(IndentReps(t, pad), p)
    ensures q == Off(IndentReps(t, pad), p) ==> p < |t| && Indented(t, pad)[q] == t[p]
    ensures q < Off(IndentReps(t, pad), p) ==> p > 0 && t[p - 1] == '\n' && Indented(t, pad)[q] == ' '
  {
    hide Expand, Spaces, Off;
    var reps := IndentReps(t, pad);
    OffEnd(reps);
    OffWithin(reps, p);
    if q == Off(reps, p) {
      if p < |t| {
        CharAt(reps, p, 0);
        assert reps[p][0] == t[p];
      }
    } else {
      OffFirst(reps);
      PadChar(reps, pad, p - 1, q);
    }
  }

  lemma OffFirst(reps: seq<string>)
    ensures Off(reps, 0) == 0
  {
  }

  lemma PadChar(reps: seq<string>, pad: string, p: nat, q: nat)
    requires p < |reps| && Spaces(pad) && (reps[p] == "\n" + pad || |reps[p]| == 1)
    requires Off(reps, p) < q < Off(reps, p + 1) <= |Expand(reps)|
    ensures reps[p] == "\n" + pad && |reps[p]| > 1 && Expand(reps)[q] == ' '
  {
    var d := q - Off(reps, p);
    CharAt(reps, p, d);
    assert ("\n" + pad)[d] == pad[d - 1];
  }

  lemma IndentedBefore(t: string, pad: string, q: nat, p: nat)
    requires Spaces(pad) && Maps(t, pad, q, p) && 0 < q <= |Indented(t, pad)|
    ensures p > 0 && IsWord(Indented(t, pad)[q - 1]) == (q == Off(IndentReps(t, pad), p) && IsWord(t[p - 1]))
  {
    var reps := IndentReps(t, pad);
    CharAt(reps, p - 1, q - 1 - Off(reps, p - 1));
  }

  lemma IndentedBoundary(t: string, pad: string, q: nat, p: nat)
    requires Spaces(pad) && Maps(t, pad, q, p) && q <= |Indented(t, pad)| && Boundary(Indented(t, pad), q)
    ensures Boundary(t, p)
  {
    var reps := IndentReps(t, pad);
    hide Maps, Indented;
    if q > 0 { IndentedBefore(t, pad, q, p); } else { OffZero(t, pad, p); }
    if q < |Indented(t, pad)| { IndentedChar(t, pad, q, p); } else { EndMaps(t, pad, p); }
  }

  lemma OffZero(t: string, pad: string, p: nat)
    requires Maps(t, pad, 0, p)
    ensures p == 0
  {
  }

  lemma EndMaps(t: string, pad: string, p: nat)
    requires Maps(t, pad, |Indented(t, pad)|, p)
    ensures p == |t| && Off(IndentReps(t, pad), p) == |Indented(t, pad)|
  {
    var reps := IndentReps(t, pad);
    OffEnd(reps);
    if p < |t| { OffMonotone(reps, p + 1, |t|); CharAt(reps, p, 0); }
  }

  lemma IndentedStep(t: string, pad: string, q: nat, p: nat, p': nat)
    requires Spaces(pad) && Maps(t, pad, q, p) && Maps(t, pad, q + 1, p') && q < |Indented(t, pad)|
    requires Indented(t, pad)[q] != ' '
    ensures p < |t| && p' == p + 1 && Indented(t, pad)[q] == t[p]
  {
    IndentedChar(t, pad, q, p);
    var reps := IndentReps(t, pad);
    assert Off(reps, p + 1) == Off(reps, p) + |reps[p]|;
    assert Maps(t, pad, q + 1, p + 1);
    MapsMonotone(t, pad, q + 1, p', q + 1, p + 1);
    MapsMonotone(t, pad, q + 1, p + 1, q + 1, p');
  }

  lemma IndentedRun(cls: Class, t: string, pad: string, q: nat, q': nat, p: nat, p': nat)
    requires q <= q' <= |Indented(t, pad)| && Maps(t, pad, q, p) && Maps(t, pad, q', p') && p <= p'
    requires forall k | q <= k < q' :: In(cls, Indented(t, pad)[k])
    ensures p' <= |t| && forall k | p <= k < p' :: In(cls, t[k])
  {
    MapsBound(t, pad, q', p');
    hide Indented, Maps, IndentReps;
    forall k | p <= k < p' ensures In(cls, t[k]) {
      var m := RunChar(t, pad, q, q', p, p', k);
      assert In(cls, Indented(t, pad)[m]);
    }
  }

  lemma RunChar(t: string, pad: string, q: nat, q': nat, p: nat, p': nat, k: nat) returns (m: nat)
    requires q <= q' <= |Indented(t, pad)| && Maps(t, pad, q, p) && Maps(t, pad, q', p') && p <= k < p'
    ensures q <= m < q' && k < |t| && Indented(t, pad)[m] == t[k]
  {
    hide Expand, Off;
    var reps := IndentReps(t, pad);
    OffMonotone(reps, p, k);
    OffMonotone(reps, k, p' - 1);
    CharAt(reps, k, 0);
    assert reps[k][0] == t[k];
    m := Off(reps, k);
  }

  /** Indenting makes no new match, for a pattern that takes spaces only in runs. */
  lemma {:induction false} IndentedMatch(re: Re, t: string, pad: string, q: nat, q': nat, p: nat, p': nat)
    requires StepsNoSpace(re) && Spaces(pad)
    requires q <= q' <= |Indented(t, pad)| && Match(re, Indented(t, pad), q, q')
    requires Maps(t, pad, q, p) && Maps(t, pad, q', p')
    ensures p <= p' && Match(re, t, p, p')
    decreases re
  {
    hide Indented, Maps, Spaces, Boundary;
    var u := Indented(t, pad);
    MapsMonotone(t, pad, q, p, q', p');
    assert p' <= |t| by { MapsBound(t, pad, q', p'); }
    match re
    case Nothing => MapsMonotone(t, pad, q', p', q, p);
    case Bound =>
      MapsMonotone(t, pad, q', p', q, p);
      IndentedBoundary(t, pad, q, p);
    case Ch(cls) => IndentedStep(t, pad, q, p, p');
    case Many(cls) => IndentedRun(cls, t, pad, q, q', p, p');
    case Cat(a, b) =>
      var m := CatSplit(a, b, u, q, q');
      var pm := MapsExists(t, pad, m);
      IndentedMatch(a, t, pad, q, m, p, pm);
      IndentedMatch(b, t, pad, m, q', pm, p');
      CatJoin(a, b, t, p, pm, p');
    case Alt(a, b) =>
      if Match(a, u, q, q') {
        IndentedMatch(a, t, pad, q, q', p, p');
      } else {
        IndentedMatch(b, t, pad, q, q', p, p');
      }
  }

  lemma MapsBound(t: string, pad: string, q: nat, p: nat)
    requires Maps(t, pad, q, p)
    ensures p <= |t|
  {
  }
}
