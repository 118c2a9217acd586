/** The base-breakout detector, and how strong a breakout from a tight base can be. */
module Signals {
  import opened Numeric
  import opened Wrappers
  import opened PriceExtension

  function MinOf(s: seq<real>): (m: real)
    requires s != []
    ensures m in s && forall x <- s :: m <= x
  {
    if |s| == 1 then s[0]
    else
      var rest := MinOf(s[1..]);
      assert forall x <- s :: x == s[0] || x in s[1..];
      Min(s[0], rest)
  }

  /** Spread of the latest twenty closes, as a percentage of their midpoint. */
  function RangePct(high: real, low: real): real {
    var mid := (high + low) / 2.0;
    if mid > 0.0 then (high - low) / mid * 100.0 else 100.0
  }

  function BreakoutPct(latest: real, priorHigh: real): real
    requires priorHigh != 0.0
  {
    (latest - priorHigh) / priorHigh * 100.0
  }

  /** Newest-first closes. With a window of zero there is no prior high to break, as a maximum over nothing
      is not positive. */
  function BaseBreakout(closes: seq<real>, window: nat, tightness: real): Option<real> {
    if |closes| < window + 1 then None
    else
      var recent := Take(closes, 20);
      var high, low := MaxOf(recent), MinOf(recent);
      if high <= 0.0 || low <= 0.0 || RangePct(high, low) > tightness || window == 0 then None
      else
        var priorHigh := MaxOf(closes[1..window + 1]);
        if priorHigh <= 0.0 || closes[0] <= priorHigh then None else Some(BreakoutPct(closes[0], priorHigh))
  }

  lemma TightRatio(high: real, low: real, tightness: real)
    requires 0.0 < low <= high && tightness < 200.0 && RangePct(high, low) <= tightness
    ensures high - low <= low * (2.0 * tightness / (200.0 - tightness))
  {
    var mid := (high + low) / 2.0;
    var pct := (high - low) / mid * 100.0;
    assert (high - low) * 100.0 == pct * mid by { DivCancels(high - low, mid); }
    MulMonotone(pct, tightness, mid);
    assert (high - low) * (200.0 - tightness) <= 2.0 * tightness * low;
    DivCancels(2.0 * tightness, 200.0 - tightness);
    var ratio := 2.0 * tightness / (200.0 - tightness);
    assert (high - low) * (200.0 - tightness) <= (ratio * low) * (200.0 - tightness);
    CancelPositive(high - low, ratio * low, 200.0 - tightness);
  }

  lemma CancelPositive(a: real, b: real, c: real)
    requires c > 0.0 && a * c <= b * c
    ensures a <= b
  {
    if b < a { MulStrict(b, a, c); }
  }

  lemma GrowthBound(rise: real, base: real, low: real, ratio: real)
    requires 0.0 < low <= base && ratio >= 0.0 && rise <= low * ratio
    ensures rise / base <= ratio
  {
    MulMonotone(low, base, ratio);
    DivCancels(rise, base);
    CancelPositive(rise / base, ratio, base);
  }

  lemma PctBounded(latest: real, priorHigh: real, high: real, low: real, tightness: real)
    requires 0.0 < low <= priorHigh < latest <= high
    requires RangePct(high, low) <= tightness < 200.0
    ensures 0.0 < BreakoutPct(latest, priorHigh) <= 200.0 * tightness / (200.0 - tightness)
  {
    var ratio := 2.0 * tightness / (200.0 - tightness);
    TightRatio(high, low, tightness);
    NonNegativeTightness(high, low, tightness);
    GrowthBound(latest - priorHigh, priorHigh, low, ratio);
    PositiveRatio(latest - priorHigh, priorHigh);
    HundredFold(2.0 * tightness, 200.0 - tightness);
  }

  lemma PositiveRatio(a: real, b: real)
    requires a > 0.0 && b > 0.0
    ensures a / b > 0.0
  {
    DivCancels(a, b);
  }

  lemma HundredFold(a: real, b: real)
    requires b != 0.0
    ensures 100.0 * a / b == a / b * 100.0
  {
    DivCancels(a, b);
    DivCancels(a / b * 100.0, b);
  }

  /** Every breakout from a base of tightness t is positive and at most 200 t / (200 - t) percent, whatever
      the history. */
  lemma BreakoutBounded(closes: seq<real>, window: nat, tightness: real)
    requires tightness < 200.0 && BaseBreakout(closes, window, tightness).Some?
    ensures 0.0 < BaseBreakout(closes, window, tightness).value <= 200.0 * tightness / (200.0 - tightness)
  {
    hide RangePct, BreakoutPct;
    var recent, prior := Take(closes, 20), closes[1..window + 1];
    assert closes[0] == recent[0] && closes[1] == recent[1] && closes[1] == prior[0];
    assert recent[0] in recent && recent[1] in recent && prior[0] in prior;
    PctBounded(closes[0], MaxOf(prior), MaxOf(recent), MinOf(recent), tightness);
  }

  lemma NonNegativeTightness(high: real, low: real, tightness: real)
    requires 0.0 < low <= high && RangePct(high, low) <= tightness < 200.0
    ensures 2.0 * tightness / (200.0 - tightness) >= 0.0
  {
    var mid := (high + low) / 2.0;
    RatioNonNegative(high - low, mid);
    RatioNonNegative(2.0 * tightness, 200.0 - tightness);
  }

  /** The bound is attained: from a base of tightness 8, a rise from 96 to 104 is exactly 1600 / 192 percent. */
  lemma BoundAttained()
    ensures BaseBreakout([104.0, 96.0], 1, 8.0) == Some(200.0 * 8.0 / (200.0 - 8.0))
  {
    var closes := [104.0, 96.0];
    assert Take(closes, 20) == closes && closes[1..] == [96.0] && closes[1..2] == [96.0];
    assert MaxOf(closes) == 104.0 && MinOf(closes) == 96.0 && MaxOf([96.0]) == 96.0;
    assert RangePct(104.0, 96.0) == 8.0;
  }
}
