/** Numbers as they are printed: reading the figures gives the number back. */
module Numbers {
  import opened Text

  /** The number a row of figures stands for, its commas passed over. */
  ghost function Figures(s: string): int {
    if s == "" then 0
    else
      var n := |s| - 1;
      if s[n] == ',' then Figures(s[..n]) else 10 * Figures(s[..n]) + (s[n] as int - '0' as int)
  }

  lemma FiguresSnoc(s: string, c: char)
    ensures Figures(s + [c]) == if c == ',' then Figures(s) else 10 * Figures(s) + (c as int - '0' as int)
  {
    assert (s + [c])[..|s|] == s;
  }

  /** `str(n)`: figures only, no leading nought, and they read as `n`. */
  lemma {:induction false} DecimalReads(n: nat)
    ensures Figures(Decimal(n)) == n && (forall c | c in Decimal(n) :: '0' <= c <= '9')
    ensures n > 0 ==> Decimal(n)[0] != '0'
    ensures n == 0 ==> Decimal(n) == "0"
  {
    if n < 10 {
      FiguresSnoc("", Digit(n));
      assert "" + [Digit(n)] == [Digit(n)];
    } else {
      DecimalReads(n / 10);
      FiguresSnoc(Decimal(n / 10), Digit(n % 10));
    }
  }

  lemma {:induction false} DecimalLength(n: nat)
    ensures n < 10 ==> |Decimal(n)| == 1
    ensures 10 <= n < 100 ==> |Decimal(n)| == 2
    ensures 100 <= n < 1000 ==> |Decimal(n)| == 3
  {
    if n >= 10 { DecimalLength(n / 10); }
  }

  /** Every fourth character from the right is a comma, and every other a figure. */
  ghost predicate Spaced(s: string) {
    && (forall k | 0 <= k < |s| :: s[k] == ',' <==> (|s| - 1 - k) % 4 == 3)
    && (forall k | 0 <= k < |s| :: s[k] == ',' || '0' <= s[k] <= '9')
  }

  lemma LastThree(n: nat)
    ensures n == 1000 * (n / 1000) + 100 * (n / 100 % 10) + 10 * (n / 10 % 10) + n % 10
  {
    var tens, hundreds := n / 10, n / 100;
    assert n == 10 * tens + n % 10;
    assert hundreds == tens / 10 && tens == 10 * hundreds + tens % 10;
    assert n / 1000 == hundreds / 10 && hundreds == 10 * (n / 1000) + hundreds % 10;
  }

  lemma GroupFigures(front: string, a: nat, b: nat, c: nat)
    requires a < 10 && b < 10 && c < 10
    ensures Figures(front + "," + [Digit(a), Digit(b), Digit(c)]) == 1000 * Figures(front) + 100 * a + 10 * b + c
  {
    var s := front + [','];
    assert front + "," + [Digit(a), Digit(b), Digit(c)] == s + [Digit(a)] + [Digit(b)] + [Digit(c)];
    FiguresSnoc(front, ',');
    FiguresSnoc(s, Digit(a));
    FiguresSnoc(s + [Digit(a)], Digit(b));
    FiguresSnoc(s + [Digit(a)] + [Digit(b)], Digit(c));
  }

  lemma GroupSpaced(front: string, a: char, b: char, c: char)
    requires Spaced(front) && '0' <= a <= '9' && '0' <= b <= '9' && '0' <= c <= '9'
    ensures Spaced(front + "," + [a, b, c])
  {
    var s, n := front + "," + [a, b, c], |front|;
    assert s[n] == ',' && s[n + 1] == a && s[n + 2] == b && s[n + 3] == c;
    forall k | 0 <= k < |s| ensures s[k] == ',' <==> (|s| - 1 - k) % 4 == 3 {
      if k < n {
        assert s[k] == front[k];
        assert |s| - 1 - k == n - 1 - k + 4;
      }
    }
  }

  /** `f"{n:,}"`: the figures of `n` with a comma before every third figure from the right. */
  lemma {:induction false} GroupedReads(n: nat)
    ensures Figures(Grouped(n)) == n && Spaced(Grouped(n))
    ensures n > 0 ==> Grouped(n)[0] != '0'
    ensures n == 0 ==> Grouped(n) == "0"
    ensures Grouped(n)[0] != ','
  {
    hide Figures, Spaced, Digit;
    if n < 1000 {
      DecimalReads(n);
      ShortSpaced(n);
    } else {
      GroupedReads(n / 1000);
      LastThree(n);
      GroupFigures(Grouped(n / 1000), n / 100 % 10, n / 10 % 10, n % 10);
      GroupSpaced(Grouped(n / 1000), Digit(n / 100 % 10), Digit(n / 10 % 10), Digit(n % 10));
    }
  }

  lemma ShortSpaced(n: nat)
    requires n < 1000
    ensures Spaced(Decimal(n)) && Decimal(n)[0] != ','
  {
    DecimalLength(n);
    var s := Decimal(n);
    assert forall k | 0 <= k < |s| :: s[k] in s;
  }

  /** A greater number never takes less room. */
  lemma {:induction false} GroupedWider(m: nat, n: nat)
    requires m <= n
    ensures |Grouped(m)| <= |Grouped(n)|
  {
    if n < 1000 {
      DecimalLength(m);
      DecimalLength(n);
    } else if m < 1000 {
      DecimalLength(m);
    } else {
      GroupedWider(m / 1000, n / 1000);
    }
  }
}
