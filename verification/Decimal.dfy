/** Decimal numerals, as written and read back by both programs. */
module Decimal {
  import opened Basics

  predicate IsDigit(c: char) { '0' <= c <= '9' }

  predicate AllDigits(s: string) { forall i :: 0 <= i < |s| ==> IsDigit(s[i]) }

  function Digit(d: nat): (c: char)
    requires d < 10
    ensures IsDigit(c) && DigitValue(c) == d
  {
    (('0' as int) + d) as char
  }

  function DigitValue(c: char): nat
    requires IsDigit(c)
  {
    (c as int) - ('0' as int)
  }

  function Value(s: string): nat
    requires AllDigits(s)
  {
    if |s| == 0 then 0 else Value(s[..|s| - 1]) * 10 + DigitValue(s[|s| - 1])
  }

  function FormatNat(n: nat): string {
    if n < 10 then [Digit(n)] else FormatNat(n / 10) + [Digit(n % 10)]
  }

  /** A numeral with an optional sign. */
  function ParseInt(s: string): Option<int> {
    if |s| > 0 && AllDigits(s) then Some(Value(s))
    else if |s| > 1 && AllDigits(s[1..]) && s[0] == '-' then Some(0 - Value(s[1..]))
    else if |s| > 1 && AllDigits(s[1..]) && s[0] == '+' then Some(Value(s[1..]))
    else None
  }

  /** s is digits with value n, behind the given sign. */
  predicate IsSigned(s: string, sign: string, n: nat) {
    |s| > |sign| && s[..|sign|] == sign && AllDigits(s[|sign|..]) && Value(s[|sign|..]) == n
  }

  lemma {:induction false} ParseIntExactly(s: string, n: nat)
    ensures ParseInt(s) == Some(n) <==> IsSigned(s, "", n) || IsSigned(s, "+", n) || (n == 0 && IsSigned(s, "-", 0))
    ensures ParseInt(s) == Some(0 - n) <==>
              IsSigned(s, "-", n) || (n == 0 && (IsSigned(s, "", 0) || IsSigned(s, "+", 0)))
  {
    assert s[0..] == s && s[..0] == "";
    if |s| > 0 {
      assert s == [s[0]] + s[1..];
      assert s[..1] == [s[0]];
    }
  }

  lemma {:induction false} FormatIsNumeral(n: nat)
    ensures |FormatNat(n)| > 0 && AllDigits(FormatNat(n)) && Value(FormatNat(n)) == n
  {
    if n >= 10 {
      FormatIsNumeral(n / 10);
      var s := FormatNat(n);
      assert s[..|s| - 1] == FormatNat(n / 10);
    } else {
      var s := FormatNat(n);
      assert s[..|s| - 1] == "";
    }
  }

  lemma {:induction false} FormatParse(n: nat)
    ensures ParseInt(FormatNat(n)) == Some(n)
  {
    FormatIsNumeral(n);
  }

  /** Printed counts are read back with a sign in front, too. */
  lemma {:induction false} SignedNumeral(sign: char, n: nat)
    requires sign == '-' || sign == '+'
    ensures ParseInt([sign] + FormatNat(n)) == Some(if sign == '-' then 0 - n else n)
  {
    FormatIsNumeral(n);
    var s := [sign] + FormatNat(n);
    assert s[1..] == FormatNat(n);
    assert !IsDigit(s[0]);
  }

  /** Numerals have no leading zeros. */
  lemma {:induction false} FormatIsCanonical(n: nat)
    ensures |FormatNat(n)| > 0 && (FormatNat(n)[0] == '0' <==> n == 0)
  {
    if n >= 10 {
      FormatIsCanonical(n / 10);
    }
  }

  // ----- Numerals of fixed width -----

  function Pow10(k: nat): nat { if k == 0 then 1 else 10 * Pow10(k - 1) }

  /** The last k decimal digits of n. */
  function Fixed(n: nat, k: nat): (s: string)
    ensures |s| == k && AllDigits(s)
  {
    if k == 0 then "" else Fixed(n / 10, k - 1) + [Digit(n % 10)]
  }

  lemma {:induction false} FixedValue(n: nat, k: nat)
    requires n < Pow10(k)
    ensures Value(Fixed(n, k)) == n
  {
    if k > 0 {
      FixedValue(n / 10, k - 1);
      var s := Fixed(n, k);
      assert s[..k - 1] == Fixed(n / 10, k - 1);
    }
  }

  function LastThree(n: nat): string { [Digit(n / 10 / 10 % 10), Digit(n / 10 % 10), Digit(n % 10)] }

  lemma {:induction false} SplitThree(n: nat, k: nat)
    ensures Fixed(n, k + 3) == Fixed(n / 1000, k) + LastThree(n)
  {
    var hundreds := n / 10 / 10;
    assert hundreds / 10 == n / 1000;
    assert Fixed(hundreds, k + 1) == Fixed(n / 1000, k) + [Digit(hundreds % 10)];
    assert Fixed(n / 10, k + 2) == Fixed(hundreds, k + 1) + [Digit(n / 10 % 10)];
    assert Fixed(n, k + 3) == Fixed(n / 10, k + 2) + [Digit(n % 10)];
  }

  lemma {:induction false} LastThreeOfRemainder(q: nat, m: nat)
    ensures LastThree(1000 * q + m) == LastThree(m)
  {
    DropDigit(100 * q, m);
    DropDigit(10 * q, m / 10);
    DropDigit(q, m / 10 / 10);
  }

  lemma {:induction false} DropDigit(a: nat, b: nat)
    ensures (10 * a + b) / 10 == a + b / 10 && (10 * a + b) % 10 == b % 10
  {
  }

  /** Nanosecond digits split into six microsecond digits and a tail of three. */
  lemma {:induction false} FixedSplit(n: nat)
    ensures Fixed(n, 9)[..6] == Fixed(n / 1000, 6)
    ensures Fixed(n, 9)[6..] == Fixed(n % 1000, 3)
  {
    SplitThree(n, 6);
    SplitThree(n % 1000, 0);
    assert n % 1000 / 1000 == 0;
    LastThreeOfRemainder(n / 1000, n % 1000);
  }

  // ----- Text order -----

  /** Strings compare by their first differing character. */
  predicate TextLess(a: string, b: string) {
    |b| > 0 && (|a| == 0 || a[0] < b[0] || (a[0] == b[0] && TextLess(a[1..], b[1..])))
  }

  lemma {:induction false} TextLessSnoc(a: string, x: char, b: string, y: char)
    requires |a| == |b|
    ensures TextLess(a + [x], b + [y]) <==> TextLess(a, b) || (a == b && x < y)
  {
    if |a| > 0 {
      assert (a + [x])[1..] == a[1..] + [x] && (b + [y])[1..] == b[1..] + [y];
      TextLessSnoc(a[1..], x, b[1..], y);
      assert a == [a[0]] + a[1..] && b == [b[0]] + b[1..];
    }
  }

  /** On numerals of one width, text order is numeric order. */
  lemma {:induction false} TextOrderIsNumericOrder(a: string, b: string)
    requires |a| == |b| && AllDigits(a) && AllDigits(b)
    ensures TextLess(a, b) <==> Value(a) < Value(b)
    ensures a == b <==> Value(a) == Value(b)
  {
    if |a| > 0 {
      var n := |a| - 1;
      assert a == a[..n] + [a[n]] && b == b[..n] + [b[n]];
      TextLessSnoc(a[..n], a[n], b[..n], b[n]);
      TextOrderIsNumericOrder(a[..n], b[..n]);
      DigitOrder(a[n], b[n]);
      LastDigitOrder(Value(a[..n]), DigitValue(a[n]), Value(b[..n]), DigitValue(b[n]));
    }
  }

  lemma {:induction false} DigitOrder(c: char, d: char)
    requires IsDigit(c) && IsDigit(d)
    ensures c < d <==> DigitValue(c) < DigitValue(d)
    ensures c == d <==> DigitValue(c) == DigitValue(d)
  {
  }

  lemma {:induction false} LastDigitOrder(x: nat, d: nat, y: nat, e: nat)
    requires d < 10 && e < 10
    ensures x * 10 + d < y * 10 + e <==> x < y || (x == y && d < e)
    ensures x * 10 + d == y * 10 + e <==> x == y && d == e
  {
  }
}
