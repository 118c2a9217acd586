/** Exactly when a base breakout fires, and how strong it is, from the closes, the window and the tightness. */
module SignalRules {
  import opened Numeric
  import opened PriceExtension
  import opened PriceExtensionRules
  import opened Signals

  /** The lowest of a range of closes. */
  predicate Lowest(closes: seq<real>, from: nat, to: nat, low: real)
    requires from <= to <= |closes|
  {
    (exists i | from <= i < to :: closes[i] == low) && forall i | from <= i < to :: low <= closes[i]
  }

  lemma MinIsLowest(closes: seq<real>)
    requires closes != []
    ensures Take(closes, 20) != [] && Lowest(closes, 0, AtMost(|closes|, 20), MinOf(Take(closes, 20)))
  {
    hide MinOf;
    var recent := Take(closes, 20);
    TakenIs(closes, 20);
    var i :| 0 <= i < |recent| && recent[i] == MinOf(recent);
    assert closes[i] == recent[i];
    forall k | 0 <= k < |recent| ensures MinOf(recent) <= closes[k] {
      assert recent[k] in recent;
    }
  }

  lemma MaxOfPrior(closes: seq<real>, window: nat)
    requires 0 < window < |closes|
    ensures Highest(closes, 1, window + 1, MaxOf(closes[1..window + 1]))
  {
    hide MaxOf;
    var prior := closes[1..window + 1];
    var i :| 0 <= i < |prior| && prior[i] == MaxOf(prior);
    assert closes[i + 1] == prior[i];
    forall k | 1 <= k < window + 1 ensures closes[k] <= MaxOf(prior) {
      assert prior[k - 1] in prior;
    }
  }

  lemma TightIff(high: real, low: real, tightness: real)
    requires 0.0 < low <= high
    ensures RangePct(high, low) <= tightness <==> (high - low) * 200.0 <= tightness * (high + low)
  {
    var mid := (high + low) / 2.0;
    var pct := (high - low) / mid * 100.0;
    DivCancels(high - low, mid);
    assert pct * mid == (high - low) * 100.0;
    if pct <= tightness {
      MulMonotone(pct, tightness, mid);
    } else {
      MulStrict(tightness, pct, mid);
    }
    assert tightness * (high + low) == tightness * mid * 2.0;
  }

  lemma BreakoutSize(latest: real, prior: real)
    requires prior > 0.0
    ensures BreakoutPct(latest, prior) * prior == (latest - prior) * 100.0
  {
    DivCancels(latest - prior, prior);
    assert (latest - prior) / prior * 100.0 * prior == (latest - prior) / prior * prior * 100.0;
  }

  /** The closes are enough, the latest twenty of them are positive and no further apart than so many percent of the
      middle between them, and the latest is above every close of the window before it, the highest of which is
      positive. */
  predicate Breaks(closes: seq<real>, window: nat, tightness: real, high: real, low: real, prior: real) {
    && 0 < window < |closes|
    && high > 0.0 && low > 0.0 && (high - low) * 200.0 <= tightness * (high + low)
    && 0.0 < prior < closes[0]
  }

  /** Exactly when a breakout fires, given the high and the low of the latest twenty closes and the high of the window
      before the latest; and it is the rise over that high, in percent of it. */
  lemma BreakoutIff(closes: seq<real>, window: nat, tightness: real, high: real, low: real, prior: real)
    requires closes != [] && Highest(closes, 0, AtMost(|closes|, 20), high)
    requires Lowest(closes, 0, AtMost(|closes|, 20), low)
    requires 0 < window < |closes| ==> Highest(closes, 1, window + 1, prior)
    ensures var fired := BaseBreakout(closes, window, tightness);
            && (fired.Some? <==> Breaks(closes, window, tightness, high, low, prior))
            && (fired.Some? ==> fired.value * prior == (closes[0] - prior) * 100.0)
  {
    hide RangePct, BreakoutPct, MaxOf, MinOf, Take;
    MaxIsHighest(closes, 20);
    MinIsLowest(closes);
    if high > 0.0 && low > 0.0 {
      TightIff(high, low, tightness);
    }
    if 0 < window < |closes| {
      MaxOfPrior(closes, window);
      if prior > 0.0 {
        BreakoutSize(closes[0], prior);
      }
    }
  }

  /** No closes, no breakout. */
  lemma NothingBreaks(window: nat, tightness: real)
    ensures BaseBreakout([], window, tightness).None?
  {
  }
}
