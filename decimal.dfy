/** Decimal text of integers: the base-10 rendering of signed and unsigned
    values, its parse back, and the fixed-point form an integer takes when a
    directive gives it a precision. */
module Decimal {

  predicate IsDigit(c: char) {
    '0' <= c <= '9'
  }

  predicate AllDigits(s: string) {
    forall i | 0 <= i < |s| :: IsDigit(s[i])
  }

  /** A digit string as the renderer writes it: non-empty, no leading zero
      unless the number is zero itself. */
  predicate Canonical(s: string) {
    |s| > 0 && AllDigits(s) && (|s| > 1 ==> s[0] != '0')
  }

  /** The value of a decimal digit; the parser only applies it to digits. */
  function DigitOf(c: char): nat
  {
    if IsDigit(c) then c as int - '0' as int else 0
  }

  function DigitChar(d: nat): (c: char)
    requires d < 10
    ensures IsDigit(c) && DigitOf(c) == d
  {
    ('0' as int + d) as char
  }

  /** The number a run of decimal digits denotes; the empty run denotes 0
      (a directive without width digits has width 0). */
  function DigitsValue(s: string): nat
  {
    if s == [] then 0 else 10 * DigitsValue(s[..|s| - 1]) + DigitOf(s[|s| - 1])
  }

  /** Base-10 text of n, with no sign, grouping or leading zero. Reading the
      digits back gives n again. */
  function NatToString(n: nat): (s: string)
    ensures Canonical(s)
    ensures DigitsValue(s) == n
    decreases n
  {
    if n < 10 then [DigitChar(n)]
    else
      var hi := NatToString(n / 10);
      var s := hi + [DigitChar(n % 10)];
      assert s[..|s| - 1] == hi;
      s
  }

  /** The other direction of the round trip: every canonical digit string is
      the rendering of the number it denotes. */
  lemma {:induction false} NatToStringOfDigits(s: string)
    requires Canonical(s)
    ensures NatToString(DigitsValue(s)) == s
    decreases |s|
  {
    var n := DigitsValue(s);
    if |s| == 1 {
      assert n == DigitOf(s[0]) && n < 10;
      assert NatToString(n) == [DigitChar(n)];
    } else {
      var hi := s[..|s| - 1];
      assert Canonical(hi) by {
        assert hi[0] == s[0];
        assert forall i | 0 <= i < |hi| :: hi[i] == s[i];
      }
      NatToStringOfDigits(hi);
      var h := DigitsValue(hi);
      assert n / 10 == h && n % 10 == DigitOf(s[|s| - 1]);
      assert NatToString(n) == NatToString(h) + [DigitChar(n % 10)];
      assert s == hi + [s[|s| - 1]];
    }
  }

  /** Base-10 text of a signed integer: a minus sign exactly for negative
      values, then the digits of the magnitude. */
  function IntToString(i: int): (s: string)
    ensures |s| > 0 && (s[0] == '-' <==> i < 0)
    ensures i >= 0 ==> Canonical(s) && DigitsValue(s) == i
    ensures i < 0 ==> Canonical(s[1..]) && DigitsValue(s[1..]) == -i
  {
    if i < 0 then
      var s := "-" + NatToString(-i);
      assert s[1..] == NatToString(-i);
      s
    else NatToString(i)
  }

  function Zeros(n: nat): (s: string)
    ensures |s| == n && forall k | 0 <= k < n :: s[k] == '0'
  {
    if n == 0 then "" else Zeros(n - 1) + "0"
  }

  /** The fixed-point text of an integer shown with `precision` fractional
      digits: the integer's own text, then, for a positive precision, a point
      and that many zeros (an integer has no fractional part). */
  function FixedPoint(i: int, precision: nat): (s: string)
    ensures |s| == |IntToString(i)| + (if precision == 0 then 0 else precision + 1)
    ensures s[..|IntToString(i)|] == IntToString(i)
    ensures precision > 0 ==> s[|IntToString(i)|] == '.'
    ensures forall k | |IntToString(i)| < k < |s| :: s[k] == '0'
  {
    if precision == 0 then IntToString(i) else IntToString(i) + "." + Zeros(precision)
  }
}
