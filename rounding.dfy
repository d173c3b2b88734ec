/**
 * The shooting percentages and averages the screens show, in exact integer arithmetic.
 * `Math.round(x)` and `x.toFixed(1)` both round a half up; on the non-negative
 * ratios shown here that is `RoundHalfUp`.
 */
module Rounding {
  import opened Decimal

  /** n / d rounded to the nearest integer, a half rounded up. */
  function RoundHalfUp(n: nat, d: nat): (r: nat)
    requires d > 0
    ensures 2 * d * r <= 2 * n + d < 2 * d * r + 2 * d
  {
    var q := (2 * n + d) / (2 * d);
    assert 2 * n + d == 2 * d * q + (2 * n + d) % (2 * d);
    q
  }

  /** A positive factor can be cancelled from a strict inequality. */
  lemma MulCancel(d: nat, x: int, y: int)
    requires d > 0 && d * x < d * y
    ensures x < y
  {
    assert d * y - d * x == d * (y - x);
  }

  /** A ratio of at most one rounds to at most the scale. */
  lemma RoundHalfUpBounded(n: nat, d: nat, scale: nat)
    requires d > 0 && n <= scale * d
    ensures RoundHalfUp(n, d) <= scale
  {
    var r := RoundHalfUp(n, d);
    assert 2 * d * r <= 2 * n + d <= 2 * scale * d + d;
    assert (2 * d) * r < (2 * d) * (scale + 1);
    MulCancel(2 * d, r, scale + 1);
  }

  /** `Math.round((made / attempted) * 100)`, or 0 when nothing was attempted. */
  function RoundedPercent(made: nat, attempted: nat): (r: nat)
    ensures attempted == 0 ==> r == 0
    ensures attempted > 0 ==> 2 * attempted * r <= 200 * made + attempted < 2 * attempted * r + 2 * attempted
  {
    if attempted > 0 then RoundHalfUp(100 * made, attempted) else 0
  }

  /** With no more makes than attempts, the rounded percentage lies in 0..100. */
  lemma RoundedPercentBounded(made: nat, attempted: nat)
    requires made <= attempted
    ensures RoundedPercent(made, attempted) <= 100
  {
    if attempted > 0 {
      RoundHalfUpBounded(100 * made, attempted, 100);
    }
  }

  /** The percentage to one decimal, counted in tenths of a percent. */
  function TenthsPercent(made: nat, attempted: nat): (r: nat)
    requires attempted > 0
    ensures 2 * attempted * r <= 2000 * made + attempted < 2 * attempted * r + 2 * attempted
  {
    RoundHalfUp(1000 * made, attempted)
  }

  /** The text of GameDetail's percentage: "0" when nothing was attempted, else one decimal place. */
  function PercentText(made: nat, attempted: nat): (s: string)
    ensures attempted == 0 <==> s == "0"
    ensures attempted > 0 ==> s == FixedOne(TenthsPercent(made, attempted))
  {
    if attempted == 0 then "0" else FixedOne(TenthsPercent(made, attempted))
  }

  /** With no more makes than attempts, the one-decimal percentage lies in 0.0..100.0. */
  lemma TenthsPercentBounded(made: nat, attempted: nat)
    requires 0 < attempted && made <= attempted
    ensures TenthsPercent(made, attempted) <= 1000
  {
    RoundHalfUpBounded(1000 * made, attempted, 1000);
  }

  /** The average `(total / count).toFixed(1)` when count > 0, else the number 0 printed as "0". */
  function AverageText(total: nat, count: nat): (s: string)
    ensures count == 0 <==> s == "0"
    ensures count > 0 ==> s == FixedOne(RoundHalfUp(10 * total, count))
  {
    if count > 0 then FixedOne(RoundHalfUp(10 * total, count)) else "0"
  }

  /** The worked values: 0/0 is 0, 3/4 is 75, 1/3 is 33 and "33.3", 1/4 is 25. */
  lemma PercentExamples()
    ensures RoundedPercent(0, 0) == 0
    ensures RoundedPercent(3, 4) == 75
    ensures RoundedPercent(1, 3) == 33
    ensures RoundedPercent(1, 4) == 25
    ensures PercentText(1, 3) == "33.3"
    ensures PercentText(0, 0) == "0"
  {
    assert TenthsPercent(1, 3) == 333;
    assert NatToString(33) == "33";
  }
}
