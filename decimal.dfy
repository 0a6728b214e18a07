/**
 * Decimal text of integers: the string that a template literal `${n}` gives
 * for an integer-valued number n with |n| < 10^21 (from 10^21 on JavaScript
 * switches to exponential text such as "1e+21"), and a parser that reads such
 * text back.
 * The parser is the reference that pins the rendering down: every integer
 * reads back as itself, so distinct integers render differently.
 */
module Decimal {

  import opened Options

  predicate IsDigit(c: char) {
    '0' <= c <= '9'
  }

  predicate AllDigits(s: string) {
    forall i | 0 <= i < |s| :: IsDigit(s[i])
  }

  function DigitChar(d: nat): (c: char)
    requires d < 10
    ensures IsDigit(c) && c as int - '0' as int == d
  {
    (d + '0' as int) as char
  }

  function DigitValue(c: char): (d: nat)
    requires IsDigit(c)
    ensures d < 10
  {
    c as int - '0' as int
  }

  /** The digits of n, most significant first, with no leading zero. */
  function NatText(n: nat): (s: string)
    ensures 0 < |s| && AllDigits(s)
    ensures |s| > 1 ==> s[0] != '0'
  {
    if n < 10 then [DigitChar(n)] else NatText(n / 10) + [DigitChar(n % 10)]
  }

  /** `${n}` for an integer n below 10^21 in magnitude: a minus sign before the digits of |n| when n is negative. */
  function IntText(n: int): string {
    if n < 0 then "-" + NatText(-n) else NatText(n)
  }

  /** The number written by a run of digits, read left to right; the empty run is 0. */
  function DigitsValue(s: string): nat
    requires AllDigits(s)
  {
    if s == [] then 0 else DigitsValue(s[..|s| - 1]) * 10 + DigitValue(s[|s| - 1])
  }

  /** Reads an optional minus sign followed by at least one digit; anything else is None. */
  function ParseInt(s: string): Option<int> {
    if 1 < |s| && s[0] == '-' && AllDigits(s[1..]) then Some(-(DigitsValue(s[1..]) as int))
    else if 0 < |s| && AllDigits(s) then Some(DigitsValue(s))
    else None
  }

  lemma {:induction false} DigitsValueOfNatText(n: nat)
    ensures DigitsValue(NatText(n)) == n
  {
    var s := NatText(n);
    if n >= 10 {
      DigitsValueOfNatText(n / 10);
      assert s[..|s| - 1] == NatText(n / 10);
    }
  }

  /** Round trip: the text of every integer reads back as that integer. */
  lemma ParseIntText(n: int)
    ensures ParseInt(IntText(n)) == Some(n)
  {
    if n < 0 {
      DigitsValueOfNatText(-n);
      assert IntText(n)[1..] == NatText(-n);
    } else {
      DigitsValueOfNatText(n);
      assert IntText(n)[0] != '-';
    }
  }

  /** Distinct integers have distinct texts. */
  lemma IntTextInjective(a: int, b: int)
    requires IntText(a) == IntText(b)
    ensures a == b
  {
    ParseIntText(a);
    ParseIntText(b);
  }
}
