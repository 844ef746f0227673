/** Decimal text of integers, as Python's `str(int)` writes it, and its reading back. */
module Decimal {

  predicate IsDigit(c: char) {
    '0' <= c <= '9'
  }

  predicate AllDigits(s: string) {
    forall i :: 0 <= i < |s| ==> IsDigit(s[i])
  }

  function DigitValue(c: char): (d: int)
    requires IsDigit(c)
    ensures 0 <= d <= 9
  {
    c as int - '0' as int
  }

  function DigitChar(d: int): (c: char)
    requires 0 <= d <= 9
    ensures IsDigit(c) && DigitValue(c) == d
  {
    ('0' as int + d) as char
  }

  /** The shortest decimal numeral of `n`: digits only, no leading zero. */
  function NatToString(n: nat): (s: string)
    ensures 1 <= |s| && AllDigits(s)
    ensures s[0] == '0' <==> n == 0
    decreases n
  {
    if n < 10 then [DigitChar(n)] else NatToString(n / 10) + [DigitChar(n % 10)]
  }

  /** Python's `str` of an integer: a minus sign before the numeral of the magnitude. */
  function IntToString(i: int): (s: string)
    ensures 1 <= |s|
    ensures i >= 0 <==> AllDigits(s)
    ensures i >= 0 ==> (s[0] == '0' <==> i == 0)
    ensures i < 0 ==> 2 <= |s| && s[0] == '-' && s[1] != '0'
  {
    if i < 0 then
      var s := "-" + NatToString(-i);
      assert !IsDigit(s[0]);
      s
    else NatToString(i)
  }

  /** The value of a string of decimal digits (0 for the empty string). */
  function ParseNat(s: string): nat
    requires AllDigits(s)
  {
    if |s| == 0 then 0 else ParseNat(s[..|s| - 1]) * 10 + DigitValue(s[|s| - 1])
  }

  /** Reading back the numeral of `n` gives `n`. */
  lemma {:induction false} ParseNatToString(n: nat)
    ensures ParseNat(NatToString(n)) == n
    decreases n
  {
    var s := NatToString(n);
    if n >= 10 {
      ParseNatToString(n / 10);
      assert s[..|s| - 1] == NatToString(n / 10);
    }
  }

  /**
   * The text of an integer reads back as that integer: all digits for a
   * non-negative one, a minus sign before the magnitude's digits otherwise.
   */
  lemma IntToStringRoundTrip(i: int)
    ensures i >= 0 ==> ParseNat(IntToString(i)) == i
    ensures i < 0 ==> IntToString(i)[0] == '-' && AllDigits(IntToString(i)[1..])
                      && ParseNat(IntToString(i)[1..]) == -i
  {
    if i >= 0 {
      ParseNatToString(i);
    } else {
      assert IntToString(i)[1..] == NatToString(-i);
      ParseNatToString(-i);
    }
  }
}
