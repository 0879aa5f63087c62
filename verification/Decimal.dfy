/** Whole numbers written in decimal, as the formatting macros write them, and
    read back. */
module Decimal {
  predicate IsDigit(c: char) {
    '0' <= c <= '9'
  }

  predicate AllDigits(s: string) {
    forall i :: 0 <= i < |s| ==> IsDigit(s[i])
  }

  function DigitOf(d: nat): (c: char)
    requires d < 10
    ensures IsDigit(c)
  {
    '0' + d as char
  }

  function ValueOf(c: char): (d: nat)
    requires IsDigit(c)
    ensures d < 10
  {
    (c - '0') as nat
  }

  function Digits(n: nat): (s: string)
    ensures |s| > 0 && AllDigits(s)
  {
    if n < 10 then [DigitOf(n)] else Digits(n / 10) + [DigitOf(n % 10)]
  }

  /** At least `width` digits, with zeros before. */
  function Padded(n: nat, width: nat): (s: string)
    ensures |s| >= width && |s| > 0 && AllDigits(s)
    decreases width
  {
    if width == 0 || |Digits(n)| >= width then Digits(n)
    else if n < 10 then Zeros(width - 1) + [DigitOf(n)]
    else Padded(n / 10, width - 1) + [DigitOf(n % 10)]
  }

  function Zeros(k: nat): (s: string)
    ensures |s| == k && AllDigits(s)
  {
    if k == 0 then "" else Zeros(k - 1) + "0"
  }

  function Value(s: string): nat
    requires AllDigits(s)
  {
    if s == "" then 0 else Value(s[..|s| - 1]) * 10 + ValueOf(s[|s| - 1])
  }

  lemma {:induction false} ValueOfDigits(n: nat)
    ensures Value(Digits(n)) == n
  {
    if n >= 10 {
      ValueOfDigits(n / 10);
      assert Digits(n)[..|Digits(n)| - 1] == Digits(n / 10);
    } else {
      assert Digits(n)[..0] == "";
    }
  }

  lemma {:induction false} ValueOfZeros(k: nat)
    ensures Value(Zeros(k)) == 0
  {
    if k > 0 {
      ValueOfZeros(k - 1);
      assert Zeros(k)[..k - 1] == Zeros(k - 1);
    }
  }

  /** Padding changes nothing but the length. */
  lemma {:induction false} ValueOfPadded(n: nat, width: nat)
    ensures Value(Padded(n, width)) == n
    decreases width
  {
    var p := Padded(n, width);
    if width == 0 || |Digits(n)| >= width {
      ValueOfDigits(n);
    } else if n < 10 {
      ValueOfZeros(width - 1);
      assert p[..|p| - 1] == Zeros(width - 1);
    } else {
      ValueOfPadded(n / 10, width - 1);
      assert p[..|p| - 1] == Padded(n / 10, width - 1);
    }
  }

  /** Two digits are enough below a hundred. */
  lemma TwoDigits(n: nat)
    requires n < 100
    ensures |Padded(n, 2)| == 2
  {
    if n >= 10 {
      assert |Digits(n)| == |Digits(n / 10)| + 1 == 2;
    }
  }

  /** Four digits are enough below ten thousand, and only there. */
  lemma FourDigits(n: nat)
    ensures |Padded(n, 4)| == 4 <==> n < 10_000
  {
    DigitsLength(n);
    if n < 10_000 { PaddedLength(n, 4); }
  }

  lemma DigitsLength(n: nat)
    ensures |Digits(n)| <= 4 <==> n < 10_000
  {
    var a, b, c := n / 10, n / 10 / 10, n / 10 / 10 / 10;
    assert n >= 10 ==> |Digits(n)| == |Digits(a)| + 1;
    assert a >= 10 ==> |Digits(a)| == |Digits(b)| + 1;
    assert b >= 10 ==> |Digits(b)| == |Digits(c)| + 1;
    assert c >= 10 ==> |Digits(c)| == |Digits(c / 10)| + 1;
    assert c < 10 ==> |Digits(c)| == 1;
  }

  lemma {:induction false} PaddedLength(n: nat, width: nat)
    requires |Digits(n)| <= width
    ensures |Padded(n, width)| == width
    decreases width
  {
    if |Digits(n)| < width && n >= 10 {
      PaddedLength(n / 10, width - 1);
    }
  }
}
