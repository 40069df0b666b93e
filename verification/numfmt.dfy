/**
  `Number.prototype.toFixed(0)` and `toFixed(1)` on exact reals: round to the
  nearest unit or tenth, ties away from zero, then write the digits (and, for
  one fraction digit, a point before the last one).
 */
module NumberFormat {

  predicate IsDigit(c: char) { '0' <= c <= '9' }

  function DigitChar(d: nat): (c: char)
    requires d < 10
    ensures IsDigit(c)
  {
    "0123456789"[d]
  }

  function DigitValue(c: char): (d: nat)
    requires IsDigit(c)
    ensures d < 10
  {
    c as int - '0' as int
  }

  lemma DigitRoundTrip(d: nat)
    requires d < 10
    ensures DigitValue(DigitChar(d)) == d
  {
  }

  predicate AllDigits(s: string) {
    forall k :: 0 <= k < |s| ==> IsDigit(s[k])
  }

  /** Decimal notation of a natural number, without leading zeros. */
  function NatToString(n: nat): (r: string)
    ensures |r| >= 1 && AllDigits(r)
    ensures |r| > 1 ==> r[0] != '0'
  {
    if n < 10 then [DigitChar(n)] else NatToString(n / 10) + [DigitChar(n % 10)]
  }

  /** Reads decimal digits back as a number. */
  function ParseNat(s: string): nat
    requires AllDigits(s)
  {
    if |s| == 0 then 0 else 10 * ParseNat(s[..|s| - 1]) + DigitValue(s[|s| - 1])
  }

  lemma {:induction false} ParseNatToString(n: nat)
    ensures ParseNat(NatToString(n)) == n
  {
    var r := NatToString(n);
    if n < 10 {
      DigitRoundTrip(n);
    } else {
      ParseNatToString(n / 10);
      assert r[..|r| - 1] == NatToString(n / 10);
      DigitRoundTrip(n % 10);
    }
  }

  /** The `n` of `toFixed(0)` for a non-negative `x`: the nearest integer, the larger one on a tie. */
  function RoundUnits(x: real): (n: int)
    requires x >= 0.0
    ensures n >= 0
    ensures x - 0.5 < n as real <= x + 0.5
  {
    (x + 0.5).Floor
  }

  /** `x.toFixed(0)`. A negative value is formatted as its magnitude with a minus sign. */
  function Fixed0(x: real): (r: string)
    ensures |r| >= 1
    ensures (r[0] == '-') <==> x < 0.0
  {
    if x < 0.0 then "-" + NatToString(RoundUnits(-x)) else NatToString(RoundUnits(x))
  }

  /** The formatted text of a non-negative value reads back within half a unit of it. */
  lemma Fixed0IsAccurate(x: real)
    requires x >= 0.0
    ensures AllDigits(Fixed0(x))
    ensures x - 0.5 < ParseNat(Fixed0(x)) as real <= x + 0.5
  {
    ParseNatToString(RoundUnits(x));
  }

  /**
    The `n` of `toFixed(1)` for a non-negative `x`: the integer with
    `n / 10` nearest to `x`, the larger one on a tie.
   */
  function RoundTenths(x: real): (n: int)
    requires x >= 0.0
    ensures n >= 0
    ensures x - 0.05 < n as real / 10.0 <= x + 0.05
  {
    (x * 10.0 + 0.5).Floor
  }

  /** `n / 10` written with exactly one digit after the point. */
  function Tenths(n: nat): (r: string)
    ensures |r| >= 3 && r[|r| - 2] == '.'
  {
    NatToString(n / 10) + "." + [DigitChar(n % 10)]
  }

  /** `x.toFixed(1)`. A negative value is formatted as its magnitude with a minus sign. */
  function Fixed1(x: real): (r: string)
    ensures |r| >= 3 && r[|r| - 2] == '.'
    ensures (r[0] == '-') <==> x < 0.0
  {
    if x < 0.0 then "-" + Tenths(RoundTenths(-x)) else Tenths(RoundTenths(x))
  }

  /** Reads a string `Tenths` produces back as its number of tenths. */
  function ParseTenths(s: string): (n: nat)
    requires |s| >= 3 && s[|s| - 2] == '.'
    requires AllDigits(s[..|s| - 2]) && IsDigit(s[|s| - 1])
  {
    10 * ParseNat(s[..|s| - 2]) + DigitValue(s[|s| - 1])
  }

  /** The formatted text of a non-negative value reads back within half a tenth of it. */
  lemma Fixed1IsAccurate(x: real)
    requires x >= 0.0
    ensures var s := Fixed1(x);
      AllDigits(s[..|s| - 2]) && IsDigit(s[|s| - 1])
      && x - 0.05 < ParseTenths(s) as real / 10.0 <= x + 0.05
  {
    var n := RoundTenths(x);
    var s := Fixed1(x);
    assert s == Tenths(n);
    assert s[..|s| - 2] == NatToString(n / 10);
    ParseNatToString(n / 10);
    DigitRoundTrip(n % 10);
    assert ParseTenths(s) == n;
  }
}
