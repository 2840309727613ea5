/** Python's `str(n)` for an integer, as used by the f-strings that build URLs:
    decimal digits without leading zeros, preceded by '-' for a negative value. */
module Decimal {

  predicate IsDigit(c: char) {
    '0' <= c <= '9'
  }

  function DigitChar(d: nat): (c: char)
    requires d < 10
    ensures IsDigit(c)
  {
    ('0' as int + d) as char
  }

  function DigitValue(c: char): (d: nat)
    requires IsDigit(c)
    ensures d < 10 && DigitChar(d) == c
  {
    c as int - '0' as int
  }

  predicate AllDigits(s: string) {
    forall i :: 0 <= i < |s| ==> IsDigit(s[i])
  }

  function NatToString(n: nat): string {
    if n < 10 then [DigitChar(n)] else NatToString(n / 10) + [DigitChar(n % 10)]
  }

  /** A rendering is a non-empty string of digits with no leading zero. */
  lemma {:induction false} NatToStringDigits(n: nat)
    ensures var s := NatToString(n); s != [] && AllDigits(s) && (s[0] == '0' ==> n == 0)
  {
    if n >= 10 {
      NatToStringDigits(n / 10);
      var s, t := NatToString(n), NatToString(n / 10);
      assert s[0] == t[0];
      assert forall i :: 0 <= i < |t| ==> s[i] == t[i];
    }
  }

  /** Reads a string of decimal digits as a natural number. */
  function ParseNat(s: string): nat
    requires AllDigits(s)
  {
    if s == [] then 0 else ParseNat(s[..|s| - 1]) * 10 + DigitValue(s[|s| - 1])
  }

  lemma {:induction false} ParseNatToString(n: nat)
    ensures AllDigits(NatToString(n)) && ParseNat(NatToString(n)) == n
  {
    NatToStringDigits(n);
    if n >= 10 {
      var s := NatToString(n);
      ParseNatToString(n / 10);
      assert s[..|s| - 1] == NatToString(n / 10);
    }
  }

  function IntToString(i: int): string {
    if i < 0 then "-" + NatToString(-i) else NatToString(i)
  }

  /** A rendering is non-empty and holds only digits and the minus sign. */
  lemma IntToStringChars(i: int)
    ensures IntToString(i) != []
    ensures forall k :: 0 <= k < |IntToString(i)| ==> IsDigit(IntToString(i)[k]) || IntToString(i)[k] == '-'
  {
    NatToStringDigits(if i < 0 then -i else i);
  }

  /** Different integers have different decimal renderings. */
  lemma IntToStringInjective(i: int, j: int)
    requires IntToString(i) == IntToString(j)
    ensures i == j
  {
    NatToStringDigits(if i < 0 then -i else i);
    NatToStringDigits(if j < 0 then -j else j);
    if i < 0 && j < 0 {
      assert NatToString(-i) == IntToString(i)[1..] == NatToString(-j);
      ParseNatToString(-i);
      ParseNatToString(-j);
    } else if i >= 0 && j >= 0 {
      ParseNatToString(i);
      ParseNatToString(j);
    }
  }
}
