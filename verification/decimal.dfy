/** Decimal text of integers, as Python renders it: `str(n)` for the `Year`
    partition value and `f"{n:02}"` for the `Month` column (main.py:59-60). */
module Decimal {

  predicate IsDigit(c: char) {
    '0' <= c <= '9'
  }

  predicate IsDigits(s: string) {
    forall i | 0 <= i < |s| :: IsDigit(s[i])
  }

  function DigitChar(d: nat): (c: char)
    requires d < 10
    ensures IsDigit(c)
  {
    ('0' as int + d) as char
  }

  function DigitValue(c: char): (d: nat)
    requires IsDigit(c)
    ensures d < 10
  {
    c as int - '0' as int
  }

  /** The number a string of decimal digits denotes (most significant first);
      the reference reading that the renderings below are checked against. */
  function DecimalValue(s: string): nat
    requires IsDigits(s)
  {
    if |s| == 0 then 0 else 10 * DecimalValue(s[..|s| - 1]) + DigitValue(s[|s| - 1])
  }

  /** Python's `int(s)` on the shapes `str` produces: an optional minus sign, then digits. */
  function IntValue(s: string): int
    requires |s| > 0 && (if s[0] == '-' then IsDigits(s[1..]) else IsDigits(s))
  {
    if s[0] == '-' then 0 - DecimalValue(s[1..]) as int else DecimalValue(s)
  }

  /** `str(n)` for a natural number: shortest digit string, no leading zero. */
  function NatToString(n: nat): (s: string)
    ensures |s| >= 1 && IsDigits(s)
    ensures DecimalValue(s) == n
    ensures |s| > 1 ==> s[0] != '0'
    ensures n > 0 ==> s[0] != '0'
    ensures n < 10 <==> |s| == 1
  {
    if n < 10 then [DigitChar(n)]
    else
      var init := NatToString(n / 10);
      var s := init + [DigitChar(n % 10)];
      assert s[..|s| - 1] == init;
      s
  }

  /** `str(n)` for any integer. */
  function IntToString(n: int): (s: string)
    ensures |s| > 0 && (if s[0] == '-' then IsDigits(s[1..]) else IsDigits(s))
    ensures IntValue(s) == n
    ensures n < 0 <==> s[0] == '-'
    // no leading zero, before or after the sign; "-0" never occurs
    ensures s[0] != '-' && |s| > 1 ==> s[0] != '0'
    ensures s[0] == '-' ==> |s| >= 2 && s[1] != '0'
    ensures '/' !in s
  {
    if n < 0 then
      var s := "-" + NatToString(-n);
      assert s[1..] == NatToString(-n);
      s
    else NatToString(n)
  }

  /** `f"{n:02}"` for a natural number: zero-padded to at least two digits. */
  function ZeroPad2(n: nat): (s: string)
    ensures IsDigits(s) && |s| >= 2
    ensures DecimalValue(s) == n
    ensures n < 100 <==> |s| == 2
    // padded with a zero exactly when the value has one digit
    ensures n < 10 <==> s[0] == '0'
    ensures '/' !in s
  {
    if n < 10 then
      var s := "0" + NatToString(n);
      assert s[..|s| - 1] == "0";
      s
    else
      var s := NatToString(n);
      assert n >= 100 ==> |s| > 2 by {
        if n >= 100 { assert NatToString(n / 10) == s[..|s| - 1]; }
      }
      s
  }

  /** Distinct integers render to distinct text (`str` is injective). */
  lemma IntToStringInjective(a: int, b: int)
    requires IntToString(a) == IntToString(b)
    ensures a == b
  {
    assert IntValue(IntToString(a)) == a;
  }
}
