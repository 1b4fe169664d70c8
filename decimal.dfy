/** Decimal rendering of integers as Python's `str(n)` and `format(n, "0Nd")` print them,
    and a parser for strings of decimal digits used to state round trips. */
module Decimal {

  predicate IsDigit(c: char) {
    '0' <= c <= '9'
  }

  predicate IsDigits(s: string) {
    forall i :: 0 <= i < |s| ==> IsDigit(s[i])
  }

  function DigitChar(d: nat): (c: char)
    requires d < 10
    ensures IsDigit(c)
  {
    ('0' as int + d) as char
  }

  function DigitValue(c: char): (d: nat)
    requires IsDigit(c)
    ensures d < 10
  {
    c as int - '0' as int
  }

  function Pow10(k: nat): (p: nat)
    ensures p >= 1
  {
    if k == 0 then 1 else 10 * Pow10(k - 1)
  }

  /** `str(n)` for n >= 0: the shortest decimal representation, "0" for zero. */
  function DigitsOf(n: nat): (s: string)
    ensures |s| >= 1 && IsDigits(s)
    ensures |s| > 1 ==> s[0] != '0'
  {
    if n < 10 then [DigitChar(n)] else DigitsOf(n / 10) + [DigitChar(n % 10)]
  }

  /** The value of a string of decimal digits (leading zeros allowed; "" is 0). */
  function ParseDigits(s: string): nat
    requires IsDigits(s)
  {
    if s == [] then 0 else ParseDigits(s[..|s| - 1]) * 10 + DigitValue(s[|s| - 1])
  }

  function Zeros(k: nat): (s: string)
    ensures |s| == k && forall i :: 0 <= i < k ==> s[i] == '0'
  {
    if k == 0 then [] else Zeros(k - 1) + ['0']
  }

  /** `format(n, "0{width}d")` for n >= 0: zero-filled on the left up to `width`, never cut. */
  function ZeroPad(n: nat, width: nat): (s: string)
    ensures IsDigits(s)
    ensures |s| == if |DigitsOf(n)| >= width then |DigitsOf(n)| else width
    ensures |DigitsOf(n)| >= width ==> s == DigitsOf(n)
  {
    var d := DigitsOf(n);
    if |d| >= width then d else Zeros(width - |d|) + d
  }

  lemma {:induction false} ParseDigitsOf(n: nat)
    ensures ParseDigits(DigitsOf(n)) == n
  {
    var s := DigitsOf(n);
    if n >= 10 {
      ParseDigitsOf(n / 10);
      assert s[..|s| - 1] == DigitsOf(n / 10);
    }
  }

  lemma {:induction false} ParseLeadingZeros(k: nat, s: string)
    requires IsDigits(s)
    ensures IsDigits(Zeros(k) + s)
    ensures ParseDigits(Zeros(k) + s) == ParseDigits(s)
  {
    var z := Zeros(k) + s;
    if s == [] {
      assert z == Zeros(k);
      ParseZeros(k);
    } else {
      ParseLeadingZeros(k, s[..|s| - 1]);
      assert z[..|z| - 1] == Zeros(k) + s[..|s| - 1];
    }
  }

  lemma {:induction false} ParseZeros(k: nat)
    ensures ParseDigits(Zeros(k)) == 0
  {
    if k > 0 {
      ParseZeros(k - 1);
      assert Zeros(k)[..k - 1] == Zeros(k - 1);
    }
  }

  /** Zero padding never changes the value a field reads back as. */
  lemma ParseZeroPad(n: nat, width: nat)
    ensures ParseDigits(ZeroPad(n, width)) == n
  {
    ParseDigitsOf(n);
    var d := DigitsOf(n);
    if |d| < width {
      ParseLeadingZeros(width - |d|, d);
    }
  }

  /** A number below 10^w needs at most w digits, and one at or above needs more. */
  lemma {:induction false} DigitsOfLength(n: nat, w: nat)
    requires w >= 1
    ensures |DigitsOf(n)| <= w <==> n < Pow10(w)
  {
    if n >= 10 && w > 1 {
      DigitsOfLength(n / 10, w - 1);
    }
  }

  /** So a field below 10^w is printed with exactly w characters. */
  lemma ZeroPadWidth(n: nat, w: nat)
    requires w >= 1 && n < Pow10(w)
    ensures |ZeroPad(n, w)| == w
  {
    DigitsOfLength(n, w);
  }
}
