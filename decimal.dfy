/**
 * Decimal rendering of integers, as JavaScript's number-to-string conversion
 * produces it for an integral value: an optional '-' followed by the decimal
 * digits without leading zeros.  Used to build the "<n><unit> ago" strings.
 */
module Decimal {

  predicate IsDigit(c: char) {
    '0' <= c <= '9'
  }

  predicate AllDigits(s: string) {
    forall i :: 0 <= i < |s| ==> IsDigit(s[i])
  }

  /** A non-empty digit string with no leading zero (other than "0" itself). */
  predicate Canonical(s: string) {
    |s| >= 1 && AllDigits(s) && (s[0] == '0' ==> |s| == 1)
  }

  function DigitValue(c: char): (d: nat)
    requires IsDigit(c)
    ensures d < 10
  {
    c as int - '0' as int
  }

  function DigitChar(d: nat): (c: char)
    requires d < 10
    ensures IsDigit(c) && DigitValue(c) == d
  {
    ('0' as int + d) as char
  }

  /** Reading a digit character and writing its value back gives the same character. */
  lemma DigitRoundTrip(c: char)
    requires IsDigit(c)
    ensures DigitChar(DigitValue(c)) == c
  {
  }

  /** The number a digit string denotes, read most significant digit first. */
  function DecimalValue(s: string): nat
    requires AllDigits(s)
    decreases |s|
  {
    if s == [] then 0 else DecimalValue(s[..|s| - 1]) * 10 + DigitValue(s[|s| - 1])
  }

  /** The canonical decimal digits of n; reading them back gives n. */
  function NatToDecimal(n: nat): (s: string)
    ensures Canonical(s)
    ensures DecimalValue(s) == n
    decreases n
  {
    if n < 10 then [DigitChar(n)]
    else
      var prefix := NatToDecimal(n / 10);
      var s := prefix + [DigitChar(n % 10)];
      assert s[..|s| - 1] == prefix;
      s
  }

  /** String(i) for an integral number i: a '-' sign exactly for negative values. */
  function IntToString(i: int): (s: string)
    ensures |s| >= 1
    ensures s[0] == '-' <==> i < 0
    ensures i >= 0 ==> Canonical(s) && DecimalValue(s) == i
    ensures i < 0 ==> Canonical(s[1..]) && DecimalValue(s[1..]) == -i
  {
    if i < 0 then
      var s := "-" + NatToDecimal(-i);
      assert s[1..] == NatToDecimal(-i);
      s
    else NatToDecimal(i)
  }

  /** Distinct integers are rendered as distinct strings. */
  lemma IntToStringInjective(i: int, j: int)
    ensures IntToString(i) == IntToString(j) <==> i == j
  {
    if IntToString(i) == IntToString(j) {
      var s := IntToString(i);
      if s[0] == '-' {
        assert DecimalValue(s[1..]) == -i == -j;
      } else {
        assert DecimalValue(s) == i == j;
      }
    }
  }
}
