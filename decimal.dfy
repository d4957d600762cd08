/** Decimal rendering of the unsigned numbers that appear in formatted answers
    (MX preference; SRV priority, weight and port), and its inverse. */
module Decimal {
  import opened Wrappers

  predicate IsDigit(c: char) {
    '0' <= c <= '9'
  }

  predicate AllDigits(s: string) {
    forall i :: 0 <= i < |s| ==> IsDigit(s[i])
  }

  function DigitValue(c: char): (d: nat)
    requires IsDigit(c)
    ensures d < 10
  {
    (c as int) - ('0' as int)
  }

  function DigitChar(d: nat): (c: char)
    requires d < 10
    ensures IsDigit(c) && DigitValue(c) == d
  {
    (('0' as int) + d) as char
  }

  /** The shortest decimal spelling of n, as .NET's integer ToString gives it. */
  function NatToDecimal(n: nat): (s: string)
    ensures |s| >= 1 && AllDigits(s)
    ensures s[0] == '0' <==> n == 0
    ensures n == 0 ==> s == "0"
    decreases n
  {
    if n < 10 then [DigitChar(n)] else NatToDecimal(n / 10) + [DigitChar(n % 10)]
  }

  /** The number a string of digits spells, most significant digit first. */
  function DecimalValue(s: string): nat
    requires AllDigits(s)
  {
    if s == [] then 0 else DecimalValue(s[..|s| - 1]) * 10 + DigitValue(s[|s| - 1])
  }

  /** Reads a non-empty run of decimal digits; anything else is refused. */
  function ParseNat(s: string): Option<nat> {
    if s != [] && AllDigits(s) then Some(DecimalValue(s)) else None
  }

  lemma {:induction false} DecimalRoundTrip(n: nat)
    ensures DecimalValue(NatToDecimal(n)) == n
    decreases n
  {
    if n >= 10 {
      var s := NatToDecimal(n);
      assert s[..|s| - 1] == NatToDecimal(n / 10);
      DecimalRoundTrip(n / 10);
    }
  }

  /** Reading back the decimal spelling of n gives n: the spelling is faithful and injective. */
  lemma ParseNatRoundTrip(n: nat)
    ensures ParseNat(NatToDecimal(n)) == Some(n)
  {
    DecimalRoundTrip(n);
  }

  /** A decimal spelling never contains a blank, so it can be cut out of a
      space-separated rendering. */
  lemma DecimalHasNo(n: nat, c: char)
    requires !IsDigit(c)
    ensures c !in NatToDecimal(n)
  {
  }
}
