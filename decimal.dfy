/** Decimal rendering of integers, as Go's `%d` verb prints them. */
module Decimal {

  function DigitChar(d: nat): (c: char)
    requires d < 10
    ensures '0' <= c <= '9'
  {
    ('0' as int + d) as char
  }

  /** The decimal digits of `n`, most significant first, without leading zeros. */
  function NatToString(n: nat): (s: string)
    ensures |s| > 0
    ensures n >= 10 ==> |s| >= 2
    ensures forall i :: 0 <= i < |s| ==> '0' <= s[i] <= '9'
  {
    if n < 10 then [DigitChar(n)] else NatToString(n / 10) + [DigitChar(n % 10)]
  }

  /** `%d` of a signed integer: a minus sign, then the digits of the magnitude. */
  function IntToString(i: int): (s: string)
    ensures |s| > 0
    ensures forall k :: 0 <= k < |s| ==> s[k] == '-' || '0' <= s[k] <= '9'
  {
    if i < 0 then "-" + NatToString(-i) else NatToString(i)
  }

  /** Distinct numbers print differently. */
  lemma {:induction false} NatToStringInjective(a: nat, b: nat)
    ensures NatToString(a) == NatToString(b) ==> a == b
  {
    if NatToString(a) == NatToString(b) {
      var s := NatToString(a);
      if a < 10 && b < 10 {
        assert s[0] == DigitChar(a) && s[0] == DigitChar(b);
      } else if a >= 10 && b >= 10 {
        assert s[|s| - 1] == DigitChar(a % 10) == DigitChar(b % 10);
        assert s[..|s| - 1] == NatToString(a / 10) == NatToString(b / 10);
        NatToStringInjective(a / 10, b / 10);
      }
    }
  }
}
