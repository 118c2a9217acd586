/** How extended a price is: the discovery scanner and the consensus scorer each compute it from the same
    newest-first closes, with separately written relative-strength loops. */
module PriceExtension {
  import opened Numeric
  import opened Wrappers

  datatype Extension = Extension(pctAboveSma: real, smaDays: nat, rsi14: real, pctFromHigh: real, raw: real) {
    predicate IsHigh() {
      raw >= 75.0 || (pctFromHigh >= -2.0 && (rsi14 >= 70.0 || pctAboveSma >= 20.0))
    }

    predicate IsLowOrMid() {
      raw < 65.0
    }
  }

  datatype ComponentStatus = ScoreOk | NoData

  datatype ComponentScore = ComponentScore(raw: real, status: ComponentStatus)

  function Sum(s: seq<real>): real {
    if s == [] then 0.0 else s[0] + Sum(s[1..])
  }

  function MaxOf(s: seq<real>): (m: real)
    requires s != []
    ensures m in s && forall x <- s :: x <= m
  {
    if |s| == 1 then s[0]
    else
      var rest := MaxOf(s[1..]);
      assert forall x <- s :: x == s[0] || x in s[1..];
      Max(s[0], rest)
  }

  function Take(s: seq<real>, n: nat): seq<real> {
    if |s| <= n then s else s[..n]
  }

  /** The rise from the older bar k + 1 to the newer bar k, if it is one. */
  function Gain(closes: seq<real>, k: nat): real
    requires k + 1 < |closes|
  {
    Max(closes[k] - closes[k + 1], 0.0)
  }

  function Loss(closes: seq<real>, k: nat): real
    requires k + 1 < |closes|
  {
    Max(closes[k + 1] - closes[k], 0.0)
  }

  function Gains(closes: seq<real>, lo: nat, hi: nat): (g: real)
    requires lo <= hi < |closes|
    ensures g >= 0.0
    decreases hi - lo
  {
    if lo == hi then 0.0 else Gain(closes, lo) + Gains(closes, lo + 1, hi)
  }

  function Losses(closes: seq<real>, lo: nat, hi: nat): (g: real)
    requires lo <= hi < |closes|
    ensures g >= 0.0
    decreases hi - lo
  {
    if lo == hi then 0.0 else Loss(closes, lo) + Losses(closes, lo + 1, hi)
  }

  lemma {:induction false} SumsGrowAtEnd(closes: seq<real>, lo: nat, hi: nat)
    requires lo <= hi && hi + 1 < |closes|
    ensures Gains(closes, lo, hi + 1) == Gains(closes, lo, hi) + Gain(closes, hi)
    ensures Losses(closes, lo, hi + 1) == Losses(closes, lo, hi) + Loss(closes, hi)
    decreases hi - lo
  {
    if lo < hi {
      SumsGrowAtEnd(closes, lo + 1, hi);
    }
  }

  lemma RatioNonNegative(a: real, b: real)
    requires a >= 0.0 && b > 0.0
    ensures a / b >= 0.0
  {
    DivCancels(a, b);
  }

  function Strength(gains: real, losses: real): real
    requires gains >= 0.0 && losses >= 0.0
  {
    if losses == 0.0 then 100.0
    else
      RatioNonNegative(gains, losses);
      100.0 - 100.0 / (1.0 + gains / losses)
  }

  /** The relative strength index over the latest fourteen moves. */
  function Rsi14(closes: seq<real>): real {
    if |closes| < 15 then 50.0 else Strength(Gains(closes, 0, 14), Losses(closes, 0, 14))
  }

  /** The discovery loop walks the newest-first bars in place. */
  method DiscoveryRsi14(closes: seq<real>) returns (rsi: real)
    ensures rsi == Rsi14(closes)
  {
    if |closes| < 15 {
      return 50.0;
    }
    var gains, losses := 0.0, 0.0;
    for k := 0 to 14
      invariant gains == Gains(closes, 0, k) && losses == Losses(closes, 0, k)
    {
      SumsGrowAtEnd(closes, 0, k);
      var diff := closes[k] - closes[k + 1];
      if diff >= 0.0 {
        gains := gains + diff;
      } else {
        losses := losses - diff;
      }
    }
    rsi := Strength(gains, losses);
  }

  function Reverse(s: seq<real>): (r: seq<real>)
    ensures |r| == |s| && forall k | 0 <= k < |s| :: r[k] == s[|s| - 1 - k]
  {
    seq(|s|, k requires 0 <= k < |s| => s[|s| - 1 - k])
  }

  /** The averaged form of the same ratio. */
  function AveragedStrength(gains: real, losses: real): real
    requires gains >= 0.0 && losses >= 0.0
  {
    if losses == 0.0 then 100.0
    else
      RatioNonNegative(gains / 14.0, losses / 14.0);
      100.0 - 100.0 / (1.0 + (gains / 14.0) / (losses / 14.0))
  }

  lemma AveragingCancels(gains: real, losses: real)
    requires gains >= 0.0 && losses >= 0.0
    ensures AveragedStrength(gains, losses) == Strength(gains, losses)
  {
    if losses != 0.0 {
      var ratio := gains / losses;
      assert gains / 14.0 == ratio * (losses / 14.0);
      DivCancels(ratio, losses / 14.0);
    }
  }

  /** The consensus loop reverses the latest fifteen bars and averages both sums. */
  method ConsensusRsi14(closes: seq<real>) returns (rsi: real)
    ensures rsi == Rsi14(closes)
  {
    hide Strength, AveragedStrength;
    if |closes| < 15 {
      return 50.0;
    }
    var recent := Reverse(closes[..15]);
    var gains, losses := 0.0, 0.0;
    for k := 0 to 14
      invariant gains == Gains(closes, 14 - k, 14) && losses == Losses(closes, 14 - k, 14)
    {
      var change := recent[k + 1] - recent[k];
      if change > 0.0 {
        gains := gains + change;
      } else {
        losses := losses - change;
      }
    }
    AveragingCancels(gains, losses);
    rsi := AveragedStrength(gains, losses);
  }

  function PctAbove(latest: real, base: real): real {
    if base > 0.0 then (latest - base) / base * 100.0 else 0.0
  }

  function PctAboveSma(closes: seq<real>): real
    requires closes != []
  {
    var window := Take(closes, 200);
    PctAbove(closes[0], Sum(window) / |window| as real)
  }

  function PctFromHigh(closes: seq<real>): real
    requires closes != []
  {
    PctAbove(closes[0], MaxOf(Take(closes, 252)))
  }

  function DiscoveryRaw(pctAboveSma: real, rsi14: real, pctFromHigh: real): real {
    var a := Clamp(pctAboveSma / 30.0, 0.0, 1.0) * 100.0;
    var b := Clamp((rsi14 - 50.0) / 40.0, 0.0, 1.0) * 100.0;
    var c := (Clamp(pctFromHigh, -30.0, 0.0) + 30.0) / 30.0 * 100.0;
    (a + b + c) / 3.0
  }

  function Clamp01(x: real): real {
    Clamp(x, 0.0, 1.0)
  }

  function ConsensusRaw(pctAboveSma: real, rsi14: real, pctFromHigh: real): real {
    var a := Clamp01(Clamp(pctAboveSma / 30.0, 0.0, 1.0)) * 100.0;
    var b := Clamp01(Clamp((rsi14 - 50.0) / 40.0, 0.0, 1.0)) * 100.0;
    var c := (Clamp(pctFromHigh, -30.0, 0.0) + 30.0) / 30.0 * 100.0;
    (a + b + c) / 3.0
  }

  function ExtensionOf(closes: seq<real>): Option<Extension> {
    if |closes| < 15 || closes[0] <= 0.0 then None
    else
      var sma, rsi, high := PctAboveSma(closes), Rsi14(closes), PctFromHigh(closes);
      Some(Extension(sma, |Take(closes, 200)|, rsi, high, DiscoveryRaw(sma, rsi, high)))
  }

  function ScoreOf(closes: seq<real>): ComponentScore {
    if |closes| < 15 then ComponentScore(0.0, NoData)
    else ComponentScore(ConsensusRaw(PctAboveSma(closes), Rsi14(closes), PctFromHigh(closes)), ScoreOk)
  }

  method DiscoveryExtension(closes: seq<real>) returns (extension: Option<Extension>)
    ensures extension == ExtensionOf(closes)
  {
    if |closes| < 15 || closes[0] <= 0.0 {
      return None;
    }
    var rsi := DiscoveryRsi14(closes);
    var sma, high := PctAboveSma(closes), PctFromHigh(closes);
    extension := Some(Extension(sma, |Take(closes, 200)|, rsi, high, DiscoveryRaw(sma, rsi, high)));
  }

  method ConsensusExtension(closes: seq<real>) returns (score: ComponentScore)
    ensures score == ScoreOf(closes)
  {
    if |closes| < 15 {
      return ComponentScore(0.0, NoData);
    }
    var rsi := ConsensusRsi14(closes);
    score := ComponentScore(ConsensusRaw(PctAboveSma(closes), rsi, PctFromHigh(closes)), ScoreOk);
  }

  lemma StrengthRange(gains: real, losses: real)
    requires gains >= 0.0 && losses >= 0.0
    ensures 0.0 <= Strength(gains, losses) <= 100.0
    ensures Strength(gains, losses) == 100.0 <==> losses == 0.0
  {
    if losses > 0.0 {
      RatioNonNegative(gains, losses);
      ReciprocalRange(1.0 + gains / losses);
      assert gains / losses * losses == gains;
    }
  }

  lemma Rsi14Range(closes: seq<real>)
    ensures 0.0 <= Rsi14(closes) <= 100.0
    ensures |closes| >= 15 ==> (Rsi14(closes) == 100.0 <==> Losses(closes, 0, 14) == 0.0)
  {
    hide Strength;
    if |closes| >= 15 {
      StrengthRange(Gains(closes, 0, 14), Losses(closes, 0, 14));
    }
  }

  lemma ReciprocalRange(d: real)
    requires d >= 1.0
    ensures 0.0 < 100.0 / d <= 100.0
  {
    DivCancels(100.0, d);
  }

  /** The two implementations give the same score, in [0, 100], whenever the discovery one gives any;
      they part only on a history whose latest close is not positive. */
  lemma ScoresAgree(closes: seq<real>)
    ensures ExtensionOf(closes).Some? <==> ScoreOf(closes).status == ScoreOk && closes[0] > 0.0
    ensures ExtensionOf(closes).Some? ==> ExtensionOf(closes).value.raw == ScoreOf(closes).raw
    ensures 0.0 <= ScoreOf(closes).raw <= 100.0
  {
    if |closes| >= 15 {
      var sma, rsi, high := PctAboveSma(closes), Rsi14(closes), PctFromHigh(closes);
      assert ConsensusRaw(sma, rsi, high) == DiscoveryRaw(sma, rsi, high);
    }
  }
}
