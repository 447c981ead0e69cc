/** Decimal rounding of times, to the nearest with ties to even. */
module Rounding {
  function RoundHalfEven(x: real): int {
    var floor := x.Floor;
    var rest := x - floor as real;
    if rest < 0.5 then floor else if rest > 0.5 then floor + 1 else if floor % 2 == 0 then floor else floor + 1
  }

  lemma RoundIsNearest(x: real)
    ensures -0.5 <= RoundHalfEven(x) as real - x <= 0.5
    ensures (RoundHalfEven(x) as real - x == 0.5 || RoundHalfEven(x) as real - x == -0.5) ==> RoundHalfEven(x) % 2 == 0
  {
  }

  lemma RoundIsMonotone(x: real, y: real)
    requires x <= y
    ensures RoundHalfEven(x) <= RoundHalfEven(y)
  {
    assert x.Floor <= y.Floor;
  }

  /** Values more than one unit apart round to different integers. */
  lemma RoundSeparates(x: real, y: real)
    requires x + 1.0 < y
    ensures RoundHalfEven(x) < RoundHalfEven(y)
  {
    RoundIsNearest(x);
    RoundIsNearest(y);
    assert RoundHalfEven(x) as real < RoundHalfEven(y) as real;
  }

  const TEN_THOUSAND := 10000.0

  /** Rounding to four decimals. */
  function Round4(x: real): real { RoundHalfEven(x * TEN_THOUSAND) as real / TEN_THOUSAND }

  lemma Round4IsMonotone(x: real, y: real)
    requires x <= y
    ensures Round4(x) <= Round4(y)
  {
    RoundIsMonotone(x * TEN_THOUSAND, y * TEN_THOUSAND);
  }

  const MILLION := 1000000.0

  /** Rounding to six decimals. */
  function Round6(x: real): real { RoundHalfEven(x * MILLION) as real / MILLION }

  lemma Round6IsMonotone(x: real, y: real)
    requires x <= y
    ensures Round6(x) <= Round6(y)
  {
    RoundIsMonotone(x * MILLION, y * MILLION);
  }

  lemma RoundWhole(n: int)
    ensures RoundHalfEven(n as real) == n
  {
  }

  lemma Round6Settles(x: real)
    ensures Round6(Round6(x)) == Round6(x)
  {
    var n := RoundHalfEven(x * MILLION);
    assert Round6(x) * MILLION == n as real;
    RoundWhole(n);
  }

  lemma Round6IsNear(x: real)
    ensures -0.0000005 <= Round6(x) - x <= 0.0000005
  {
    RoundIsNearest(x * MILLION);
  }

  /** Rounding down to six decimals. */
  function Floor6(x: real): real { (x * MILLION).Floor as real / MILLION }

  /** A whole number of millionths. */
  predicate WholeMillionths(x: real) { Floor6(x) == x }

  lemma Floor6IsBelow(x: real)
    ensures Floor6(x) <= x < Floor6(x) + 0.000001
  {
  }

  lemma Floor6IsMonotone(x: real, y: real)
    requires x <= y
    ensures Floor6(x) <= Floor6(y)
  {
    assert (x * MILLION).Floor <= (y * MILLION).Floor;
  }

  function Ceiling(x: real): int { -(-x).Floor }
}
