/** Decimal rendering of integers. JavaScript's Number::toString and Python's
    str() agree on it for integral values: digits without leading zeros,
    preceded by "-" for negative numbers. */
module Text {

  predicate IsDigit(c: char) {
    '0' <= c <= '9'
  }

  predicate AllDigits(s: string) {
    forall i :: 0 <= i < |s| ==> IsDigit(s[i])
  }

  function DigitValue(c: char): (d: nat)
    requires IsDigit(c)
    ensures d < 10
  {
    c as int - '0' as int
  }

  function DigitChar(d: nat): (c: char)
    requires d < 10
    ensures IsDigit(c) && DigitValue(c) == d
  {
    ('0' as int + d) as char
  }

  /** The number a string of decimal digits denotes, most significant digit first. */
  function DigitsValue(s: string): nat
    requires AllDigits(s)
  {
    if s == [] then 0 else DigitsValue(s[..|s| - 1]) * 10 + DigitValue(s[|s| - 1])
  }

  /** The canonical decimal numeral of n: it denotes n and has no leading zero. */
  function NatToString(n: nat): (r: string)
    ensures |r| > 0 && AllDigits(r)
    ensures r[0] == '0' ==> r == "0"
    ensures DigitsValue(r) == n
  {
    if n < 10 then
      [DigitChar(n)]
    else
      var r := NatToString(n / 10) + [DigitChar(n % 10)];
      assert r[..|r| - 1] == NatToString(n / 10);
      r
  }

  function IntToString(i: int): string {
    if i < 0 then "-" + NatToString(-i) else NatToString(i)
  }

  /** Two decimal digits for a number below 100, the first possibly a zero. */
  function TwoDigits(n: nat): (r: string)
    requires n < 100
    ensures |r| == 2 && AllDigits(r) && DigitsValue(r) == n
  {
    var r := [DigitChar(n / 10), DigitChar(n % 10)];
    assert r[..1] == [DigitChar(n / 10)] && r[..1][..0] == [];
    assert DigitsValue(r[..1]) == n / 10;
    r
  }

  /** Splits the last two digits off the numeral of a number of at least 100. */
  lemma NatToStringLastTwo(n: nat)
    requires n >= 100
    ensures NatToString(n) == NatToString(n / 100) + TwoDigits(n % 100)
  {
    assert (n / 10) / 10 == n / 100;
    assert (n / 10) % 10 == (n % 100) / 10;
  }

  /** The numeral of a number below 100, written as TwoDigits, only loses its leading zero. */
  lemma NatToStringBelowHundred(n: nat)
    requires n < 100
    ensures n < 10 ==> NatToString(n) == TwoDigits(n)[1..]
    ensures n >= 10 ==> NatToString(n) == TwoDigits(n)
  {
  }
}
