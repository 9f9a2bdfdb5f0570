/**
 * A feed line cut to length, with a notice that says how much of it is shown: the notice's own length decides the cut.
 */
module LiveLines {
  import opened Text
  import opened Patterns

  const MAX_LINE_CHARS := 240

  /** `str.split` with no separator, on ASCII. */
  function Words(t: string): seq<string>
    decreases |t|
  {
    if t == "" then []
    else if IsSpace(t[0]) then Words(t[1..])
    else var n := WordEnd(t, 1); [t[..n]] + Words(t[n..])
  }

  function WordEnd(t: string, i: nat): (n: nat)
    requires i <= |t|
    ensures i <= n <= |t|
    decreases |t| - i
  {
    if i == |t| || IsSpace(t[i]) then i else WordEnd(t, i + 1)
  }

  function Compact(value: string): string { Join(Words(value), " ") }

  function Suffix(reference: string): string {
    if reference != "" then " [ref " + reference + "]" else ""
  }

  function Notice(shown: nat, length: nat, reference: string): string {
    " \U{2026} [showing " + Decimal(shown) + " of " + Decimal(length) + " characters; ref " + reference + "]"
  }

  /** The line has to be cut. */
  predicate TooLong(compact: string, reference: string) {
    |compact| + |Suffix(reference)| > MAX_LINE_CHARS
  }

  /** How many characters are left once the notice for this many is written. */
  function Adjusted(shown: nat, length: nat, reference: string): nat {
    Max(0, MAX_LINE_CHARS - |Notice(shown, length, reference)|)
  }

  /** The count after so many passes. */
  function Pass(n: nat, length: nat, reference: string): nat {
    if n == 0 then MAX_LINE_CHARS else Adjusted(Pass(n - 1, length, reference), length, reference)
  }

  /** What the two variable parts of the notice that do not change take up. */
  function Fixed(length: nat, reference: string): nat { |Decimal(length)| + |reference| }

  predicate Settles(length: nat, reference: string) {
    Fixed(length, reference) != 104 && Fixed(length, reference) != 195
  }

  /** The loop as it stands ends only where its counts settle. */
  method Bounded(value: string, reference: string) returns (line: string)
    requires TooLong(Compact(value), reference) ==> Settles(|Compact(value)|, reference)
    ensures var compact := Compact(value); var shown := Pass(4, |compact|, reference);
            var whole := compact + (if reference == "" then "" else " [ref " + reference + "]");
            line == if |whole| <= 240 then whole
                    else compact[..Min(shown, |compact|)]
                         + (" \U{2026} [showing " + Decimal(shown) + " of " + Decimal(|compact|) + " characters; ref "
                            + reference + "]")
  {
    hide Notice, Suffix, Compact;
    var compact := Compact(value);
    var suffix := Suffix(reference);
    Wording(Pass(4, |compact|, reference), |compact|, reference);
    if |compact| + |suffix| <= MAX_LINE_CHARS { return compact + suffix; }
    SettlesInFour(|compact|, reference);
    var shown: nat := MAX_LINE_CHARS;
    ghost var n := 0;
    while true
      invariant n <= 3 && shown == Pass(n, |compact|, reference)
      decreases 3 - n
    {
      var notice := Notice(shown, |compact|, reference);
      var adjusted := Max(0, MAX_LINE_CHARS - |notice|);
      assert adjusted == Pass(n + 1, |compact|, reference);
      if adjusted == shown {
        StaysSettled(n, 4, |compact|, reference);
        return compact[..Min(shown, |compact|)] + notice;
      }
      shown := adjusted;
      n := n + 1;
    }
  }

  lemma Wording(shown: nat, length: nat, reference: string)
    ensures Suffix(reference) == if reference == "" then "" else " [ref " + reference + "]"
    ensures Notice(shown, length, reference)
            == " \U{2026} [showing " + Decimal(shown) + " of " + Decimal(length) + " characters; ref " + reference + "]"
  {
    hide Decimal;
  }

  // ------------------------------------------------------------ one line of the words

  predicate White(c: char) { c == ' ' || 9 <= c as int <= 13 || 28 <= c as int <= 31 }

  /** A text read character by character: what is white is left out, and leaves one space between what it parts. */
  function Squeezed(t: string, parted: bool): string {
    if t == "" then ""
    else if White(t[0]) then Squeezed(t[1..], true)
    else (if parted then " " else "") + [t[0]] + Squeezed(t[1..], false)
  }

  lemma WhiteExactly(c: char)
    ensures IsSpace(c) <==> White(c)
  {
  }

  lemma {:induction false} WordEndExactly(t: string, i: nat)
    requires i <= |t|
    ensures var n := WordEnd(t, i); (forall k | i <= k < n :: !White(t[k])) && (n == |t| || White(t[n]))
    decreases |t| - i
  {
    if i < |t| {
      WhiteExactly(t[i]);
      if !White(t[i]) { WordEndExactly(t, i + 1); }
    }
  }

  lemma {:induction false} WordSqueezed(t: string, n: nat)
    requires n <= |t| && forall k | 0 <= k < n :: !White(t[k])
    ensures Squeezed(t, false) == t[..n] + Squeezed(t[n..], false)
    decreases n
  {
    if n > 0 {
      WordSqueezed(t[1..], n - 1);
      assert t[1..][n - 1..] == t[n..] && t[..n] == [t[0]] + t[1..][..n - 1];
      Gathered(t[0], t[1..][..n - 1], Squeezed(t[n..], false));
    } else {
      assert t[0..] == t;
    }
  }

  lemma Gathered(c: char, a: string, b: string)
    ensures "" + [c] + (a + b) == ([c] + a) + b
  {
  }

  lemma WordsBegin(t: string)
    requires t != ""
    ensures Words(t) == if White(t[0]) then Words(t[1..]) else [t[..WordEnd(t, 1)]] + Words(t[WordEnd(t, 1)..])
  {
    WhiteExactly(t[0]);
  }

  /** The words of a text, one space apart, after a space of their own when they are parted from what came before. */
  lemma {:induction false} WordsSqueezed(t: string, parted: bool)
    requires t != "" && !parted ==> !White(t[0])
    ensures Squeezed(t, parted)
            == if Words(t) == [] then "" else (if parted then " " else "") + Join(Words(t), " ")
    decreases |t|
  {
    hide Words, Join, WordEnd, Squeezed;
    if t == "" {
      NothingSaid(parted);
    } else {
      WordsBegin(t);
      if White(t[0]) {
        WordsSqueezed(t[1..], true);
        Skipped(t, parted);
      } else {
        var n := WordEnd(t, 1);
        WordEndExactly(t, 1);
        RestSqueezed(t[n..]);
        WordSqueezed(t, n);
        FirstParted(t, parted);
        JoinedWords(t[..n], Words(t[n..]));
      }
    }
  }

  /** Where a word has just ended, what follows is nothing, or begins white. */
  lemma {:induction false} RestSqueezed(t: string)
    requires t != "" ==> White(t[0])
    ensures Squeezed(t, false) == if Words(t) == [] then "" else " " + Join(Words(t), " ")
    decreases |t|
  {
    hide Words, Join, Squeezed;
    if t == "" {
      NothingSaid(false);
    } else {
      WordsBegin(t);
      WordsSqueezed(t[1..], true);
      Skipped(t, false);
    }
  }

  lemma NothingSaid(parted: bool)
    ensures Words("") == [] && Squeezed("", parted) == ""
  {
  }

  lemma Skipped(t: string, parted: bool)
    requires t != "" && White(t[0])
    ensures Squeezed(t, parted) == Squeezed(t[1..], true)
  {
  }

  lemma FirstParted(t: string, parted: bool)
    requires t != "" && !White(t[0])
    ensures Squeezed(t, parted) == (if parted then " " else "") + Squeezed(t, false)
  {
    var rest := Squeezed(t[1..], false);
    OneLetter(t, parted);
    OneLetter(t, false);
    hide Squeezed;
    Regroup3(if parted then " " else "", [t[0]], rest);
  }

  lemma OneLetter(t: string, parted: bool)
    requires t != "" && !White(t[0])
    ensures Squeezed(t, parted) == (if parted then " " else "") + [t[0]] + Squeezed(t[1..], false)
  {
  }

  lemma JoinedWords(w: string, words: seq<string>)
    ensures Join([w] + words, " ") == w + if words == [] then "" else " " + Join(words, " ")
  {
    if words == [] { assert [w] + words == [w]; } else { JoinCons(w, words, " "); }
  }

  /** A text without the white it begins with. */
  function Unled(t: string): string { if t != "" && White(t[0]) then Unled(t[1..]) else t }

  lemma {:induction false} UnledWords(t: string)
    ensures Words(Unled(t)) == Words(t) && (Unled(t) != "" ==> !White(Unled(t)[0]))
  {
    if t != "" && White(t[0]) {
      UnledWords(t[1..]);
      WordsBegin(t);
    }
  }

  /** One line of a text: its characters but for what is white, with one space where white parted them. */
  lemma CompactExactly(value: string)
    ensures Compact(value) == Squeezed(Unled(value), false)
  {
    hide Words, Join, Squeezed;
    UnledWords(value);
    WordsSqueezed(Unled(value), false);
    if Words(value) == [] { NothingJoined(); }
  }

  lemma NothingJoined()
    ensures Join([], " ") == ""
  {
  }

  // ------------------------------------------------------------ digits

  lemma DigitCount(n: nat)
    ensures n < 10 ==> |Decimal(n)| == 1
    ensures 10 <= n < 100 ==> |Decimal(n)| == 2
    ensures 100 <= n < 1000 ==> |Decimal(n)| == 3
  {
  }

  lemma NoticeLength(shown: nat, length: nat, reference: string)
    ensures |Notice(shown, length, reference)| == 34 + |Decimal(shown)| + Fixed(length, reference)
  {
    hide Decimal;
    assert |" \U{2026} [showing "| == 12 && |" of "| == 4 && |" characters; ref "| == 17;
  }

  lemma Step(shown: nat, length: nat, reference: string)
    ensures Adjusted(shown, length, reference) == Max(0, 206 - Fixed(length, reference) - |Decimal(shown)|)
  {
    hide Decimal, Notice;
    NoticeLength(shown, length, reference);
  }

  lemma PassStep(n: nat, length: nat, reference: string)
    ensures var shown := Pass(n, length, reference);
            Pass(n + 1, length, reference) == Max(0, 206 - Fixed(length, reference) - |Decimal(shown)|)
    ensures Pass(n, length, reference) < 10 ==> |Decimal(Pass(n, length, reference))| == 1
    ensures 10 <= Pass(n, length, reference) < 100 ==> |Decimal(Pass(n, length, reference))| == 2
    ensures 100 <= Pass(n, length, reference) < 1000 ==> |Decimal(Pass(n, length, reference))| == 3
  {
    DigitCount(Pass(n, length, reference));
    hide Decimal, Notice;
    Step(Pass(n, length, reference), length, reference);
  }

  /** The first passes, as the fixed part alone decides them. */
  lemma FirstPasses(length: nat, reference: string)
    ensures var s := Fixed(length, reference); var one := Max(0, 203 - s);
            && Pass(1, length, reference) == one
            && Pass(2, length, reference) == Max(0, 206 - s - (if one >= 100 then 3 else if one >= 10 then 2 else 1))
  {
    hide Decimal, Adjusted;
    PassStep(0, length, reference);
    PassStep(1, length, reference);
  }

  /** Where the counts settle they do so in at most four passes. */
  lemma SettlesInFour(length: nat, reference: string)
    requires Settles(length, reference)
    ensures Pass(3, length, reference) == Pass(4, length, reference)
  {
    hide Decimal, Adjusted;
    FirstPasses(length, reference);
    PassStep(2, length, reference);
    PassStep(3, length, reference);
  }

  lemma {:induction false} StaysSettled(n: nat, m: nat, length: nat, reference: string)
    requires n <= m && Pass(n, length, reference) == Pass(n + 1, length, reference)
    ensures Pass(m, length, reference) == Pass(n, length, reference)
    decreases m
  {
    hide Adjusted;
    if n < m { StaysSettled(n, m - 1, length, reference); }
  }

  /** Otherwise they alternate for ever: 99 and 100 with a fixed part of 104, and 9 and 10 with one of 195. */
  lemma {:induction false} Alternates(n: nat, length: nat, reference: string)
    requires !Settles(length, reference) && n >= 2
    ensures var s := Fixed(length, reference);
            Pass(n, length, reference)
            == if s == 104 then (if n % 2 == 0 then 100 else 99) else (if n % 2 == 0 then 10 else 9)
    decreases n
  {
    hide Decimal, Adjusted;
    if n == 2 {
      FirstPasses(length, reference);
    } else {
      Alternates(n - 1, length, reference);
      PassStep(n - 1, length, reference);
    }
  }

  /** The loop ends exactly when the digits of the length and the reference add up to neither 104 nor 195. */
  lemma EndsExactly(length: nat, reference: string)
    ensures (exists n: nat :: Pass(n, length, reference) == Pass(n + 1, length, reference))
            <==> Settles(length, reference)
  {
    hide Decimal, Adjusted;
    if Settles(length, reference) {
      SettlesInFour(length, reference);
      assert Pass(3, length, reference) == Pass(3 + 1, length, reference);
    } else {
      forall n: nat ensures Pass(n, length, reference) != Pass(n + 1, length, reference) {
        FirstPasses(length, reference);
        Alternates(n + 2, length, reference);
        Alternates(n + 3, length, reference);
        if n >= 2 { Alternates(n, length, reference); Alternates(n + 1, length, reference); }
      }
    }
  }

  /** The count settled on is what fits beside its own notice. */
  lemma SettledCount(length: nat, reference: string)
    requires Settles(length, reference)
    ensures var shown := Pass(4, length, reference); shown == Adjusted(shown, length, reference)
  {
    hide Decimal, Adjusted;
    SettlesInFour(length, reference);
    StaysSettled(3, 5, length, reference);
  }

  /**
   * A cut line says what it does: the printed count is the number of characters kept, and the line is within the limit
   * exactly when the reference leaves room for the notice itself.
   */
  lemma CutSaysWhatItKeeps(compact: string, reference: string)
    requires TooLong(compact, reference) && Settles(|compact|, reference)
    ensures var shown := Pass(4, |compact|, reference);
            && shown <= |compact|
            && (shown > 0 ==> shown + |Notice(shown, |compact|, reference)| == MAX_LINE_CHARS)
            && (shown + |Notice(shown, |compact|, reference)| <= MAX_LINE_CHARS <==> Fixed(|compact|, reference) <= 205)
  {
    hide Decimal, Notice, Pass;
    var shown := Pass(4, |compact|, reference);
    SettledCount(|compact|, reference);
    NoticeLength(shown, |compact|, reference);
    ShownDigits(shown);
    DecimalNotEmpty(|compact|);
    assert reference != "" ==> |Suffix(reference)| == 7 + |reference|;
  }

  lemma ShownDigits(n: nat)
    ensures |Decimal(n)| >= 1 && (n < 10 <==> |Decimal(n)| == 1)
  {
    DigitCount(n);
    if n >= 10 { DecimalNotEmpty(n / 10); }
  }

  lemma DecimalNotEmpty(n: nat)
    ensures |Decimal(n)| >= 1
  {
  }

  // ------------------------------------------------------------ lines that are never cut

  predicate OneWord(t: string) { t != "" && forall k | 0 <= k < |t| :: !IsSpace(t[k]) }

  lemma {:induction false} WordRunsOn(t: string, i: nat)
    requires OneWord(t) && i <= |t|
    ensures WordEnd(t, i) == |t|
    decreases |t| - i
  {
    if i < |t| { WordRunsOn(t, i + 1); }
  }

  lemma OneWordCompact(t: string)
    requires OneWord(t)
    ensures Compact(t) == t
  {
    WordRunsOn(t, 1);
    assert Words(t) == [t[..|t|]] + Words(t[|t|..]) && t[..|t|] == t && t[|t|..] == "";
  }

  /** Such lines reach the loop: a word of a few hundred characters, and a reference of 101 or of 192. */
  lemma NeverCut(value: string, reference: string)
    requires OneWord(value) && 234 <= |value| < 1000 && (|reference| == 101 || |reference| == 192)
    ensures Compact(value) == value && TooLong(Compact(value), reference) && !Settles(|Compact(value)|, reference)
    ensures forall n: nat :: Pass(n, |Compact(value)|, reference) != Pass(n + 1, |Compact(value)|, reference)
  {
    OneWordCompact(value);
    DigitCount(|value|);
    hide Decimal, Adjusted;
    EndsExactly(|value|, reference);
  }

  function Repeated(c: char, n: nat): string { seq(n, k requires 0 <= k < n => c) }

  /** Three hundred letters and a reference of a hundred and one. */
  lemma ThreeHundredLetters()
    ensures var value, reference := Repeated('x', 300), Repeated('r', 101);
            && TooLong(Compact(value), reference)
            && forall n: nat :: Pass(n, |Compact(value)|, reference) != Pass(n + 1, |Compact(value)|, reference)
  {
    var value, reference := Repeated('x', 300), Repeated('r', 101);
    assert !IsSpace('x');
    hide Pass;
    NeverCut(value, reference);
  }
}
