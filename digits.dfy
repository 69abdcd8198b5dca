/** Decimal digit characters, the numbers that digit strings denote, and the
    reference representation of a number as a zero-padded digit string. */
module Digits {

  predicate IsDigit(c: char) {
    '0' <= c <= '9'
  }

  /** Every character of `s` is one of `0`..`9` (the empty string qualifies). */
  predicate AllDigits(s: string) {
    forall i :: 0 <= i < |s| ==> IsDigit(s[i])
  }

  /** The number a digit character stands for, as Java's `c - '0'` computes it. */
  function DigitVal(c: char): (d: nat)
    requires IsDigit(c)
    ensures d <= 9
  {
    c as int - '0' as int
  }

  /** The character that `StringBuilder.append(int)` writes for a value 0..9. */
  function DigitChar(d: nat): (c: char)
    requires d <= 9
    ensures IsDigit(c) && DigitVal(c) == d
  {
    ('0' as int + d) as char
  }

  /** Reading a digit and writing its value back gives the same character. */
  lemma {:induction false} DigitRoundTrip(c: char)
    requires IsDigit(c)
    ensures DigitChar(DigitVal(c)) == c
  {
  }

  /** A non-empty string is its front followed by its last character. */
  lemma {:induction false} SplitLast(s: string)
    requires s != []
    ensures s == s[..|s| - 1] + [s[|s| - 1]]
  {
  }

  function Pow10(k: nat): (p: nat)
    ensures p >= 1
  {
    if k == 0 then 1 else 10 * Pow10(k - 1)
  }

  lemma {:induction false} Pow10Monotone(i: nat, j: nat)
    requires i <= j
    ensures Pow10(i) <= Pow10(j)
    decreases j
  {
    if i < j {
      Pow10Monotone(i, j - 1);
    }
  }

  /** The value of a most-significant-first digit string by Horner's rule; the empty
      string denotes 0. A string of n digits denotes less than 10^n. */
  function Value(s: string): (v: nat)
    requires AllDigits(s)
    ensures v < Pow10(|s|)
  {
    if s == [] then 0 else 10 * Value(s[..|s| - 1]) + DigitVal(s[|s| - 1])
  }

  lemma {:induction false} MulTen(d: int, p: int)
    ensures d * (10 * p) == 10 * (d * p)
  {
  }

  lemma {:induction false} MulAtLeast(d: nat, p: nat)
    requires d >= 1
    ensures d * p >= p
  {
  }

  /** A leading digit weighs 10 to the power of the number of digits after it. */
  lemma {:induction false} ValuePrepend(c: char, t: string)
    requires IsDigit(c) && AllDigits(t)
    ensures AllDigits([c] + t)
    ensures Value([c] + t) == DigitVal(c) * Pow10(|t|) + Value(t)
  {
    var d := DigitVal(c);
    if t == [] {
      assert ([c] + t)[..0] == [];
    } else {
      var init := t[..|t| - 1];
      assert ([c] + t)[..|t|] == [c] + init;
      ValuePrepend(c, init);
      calc {
        Value([c] + t);
        10 * Value([c] + init) + DigitVal(t[|t| - 1]);
        10 * (d * Pow10(|init|) + Value(init)) + DigitVal(t[|t| - 1]);
        { MulTen(d, Pow10(|init|)); }
        d * Pow10(|t|) + Value(t);
      }
    }
  }

  /** The value of a concatenation: the digits of x shifted left by |y| places, plus y. */
  lemma {:induction false} ValueConcat(x: string, y: string)
    requires AllDigits(x) && AllDigits(y)
    ensures AllDigits(x + y)
    ensures Value(x + y) == Value(x) * Pow10(|y|) + Value(y)
    decreases |y|
  {
    if y == [] {
      assert x + y == x;
    } else {
      var init, c := y[..|y| - 1], y[|y| - 1];
      ValueConcat(x, init);
      assert (x + y)[..|x + y| - 1] == x + init;
      MulTen(Value(x), Pow10(|init|));
    }
  }

  /** The reference representation: the decimal digits of `n`, most significant first,
      padded on the left with zeros to at least `w` characters. Zero at width 0 is the
      empty string, not "0", just as the carry loop collects nothing for two empty
      operands. */
  function Decimal(n: nat, w: nat): (s: string)
    ensures AllDigits(s)
    decreases n + w
  {
    if n == 0 && w == 0 then []
    else Decimal(n / 10, if w == 0 then 0 else w - 1) + [DigitChar(n % 10)]
  }

  /** The reference representation denotes the number it represents. */
  lemma {:induction false} DecimalValue(n: nat, w: nat)
    ensures Value(Decimal(n, w)) == n
    decreases n + w
  {
    if n != 0 || w != 0 {
      var w' := if w == 0 then 0 else w - 1;
      DecimalValue(n / 10, w');
      var init := Decimal(n / 10, w');
      assert (init + [DigitChar(n % 10)])[..|init|] == init;
    }
  }

  /** A number below 10^w is represented by exactly w digits. */
  lemma {:induction false} DecimalFits(n: nat, w: nat)
    requires n < Pow10(w)
    ensures |Decimal(n, w)| == w
  {
    if w > 0 {
      DecimalFits(n / 10, w - 1);
    }
  }

  /** A number in [10^w, 2 * 10^w) takes one digit more than w, and that leading digit is 1. */
  lemma {:induction false} DecimalOverflows(n: nat, w: nat)
    requires Pow10(w) <= n < 2 * Pow10(w)
    ensures |Decimal(n, w)| == w + 1 && Decimal(n, w)[0] == '1'
  {
    if w == 0 {
      assert n == 1;
      assert Decimal(0, 0) == [];
    } else {
      DecimalOverflows(n / 10, w - 1);
    }
  }

  /** Below 2 * 10^w the representation takes w digits, or w + 1 exactly when the
      number reaches 10^w, and then it starts with 1. */
  lemma {:induction false} DecimalShape(n: nat, w: nat)
    requires n < 2 * Pow10(w)
    ensures |Decimal(n, w)| == w || |Decimal(n, w)| == w + 1
    ensures |Decimal(n, w)| == w + 1 <==> n >= Pow10(w)
    ensures |Decimal(n, w)| == w + 1 ==> Decimal(n, w)[0] == '1'
  {
    if n < Pow10(w) {
      DecimalFits(n, w);
    } else {
      DecimalOverflows(n, w);
    }
  }

  /** Uniqueness: a digit string of at least w characters that has no leading zero
      beyond the first w positions is the reference representation of its value. */
  lemma {:induction false} DecimalOfValue(s: string, w: nat, n: nat)
    requires AllDigits(s) && w <= |s|
    requires |s| > w ==> s[0] != '0'
    requires n == Value(s)
    ensures Decimal(n, w) == s
  {
    if s != [] {
      var p, c := s[..|s| - 1], s[|s| - 1];
      assert n > 0 || w > 0 by {
        if w == 0 {
          ValuePrepend(s[0], s[1..]);
          assert s == [s[0]] + s[1..];
          MulAtLeast(DigitVal(s[0]), Pow10(|s| - 1));
        }
      }
      var w' := if w == 0 then 0 else w - 1;
      if |p| > w' {
        assert p[0] == s[0];
      }
      assert n / 10 == Value(p) && n % 10 == DigitVal(c);
      DecimalOfValue(p, w', n / 10);
      DigitRoundTrip(c);
      SplitLast(s);
    }
  }
}
