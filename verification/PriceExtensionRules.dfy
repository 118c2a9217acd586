/** How extended a price is, from the closes alone: newest first, whatever is there of the last year. */
module PriceExtensionRules {
  import opened Numeric
  import opened PriceExtension

  // ---------- the parts ----------

  /** Everything the latest n moves rose by. */
  function Rise(closes: seq<real>, n: nat): (r: real)
    requires n < |closes|
    ensures r >= 0.0
  {
    if n == 0 then 0.0
    else Rise(closes, n - 1) + if closes[n - 1] > closes[n] then closes[n - 1] - closes[n] else 0.0
  }

  /** Everything they fell by. */
  function Fall(closes: seq<real>, n: nat): (r: real)
    requires n < |closes|
    ensures r >= 0.0
  {
    if n == 0 then 0.0
    else Fall(closes, n - 1) + if closes[n] > closes[n - 1] then closes[n] - closes[n - 1] else 0.0
  }

  /** The latest n closes added up. */
  function Added(closes: seq<real>, n: nat): real
    requires n <= |closes|
  {
    if n == 0 then 0.0 else Added(closes, n - 1) + closes[n - 1]
  }

  /** At most so many. */
  function AtMost(n: nat, limit: nat): nat {
    if n > limit then limit else n
  }

  lemma {:induction false} RiseIsGains(closes: seq<real>, n: nat)
    requires n < |closes|
    ensures Rise(closes, n) == Gains(closes, 0, n) && Fall(closes, n) == Losses(closes, 0, n)
  {
    if n > 0 {
      RiseIsGains(closes, n - 1);
      SumsGrowAtEnd(closes, 0, n - 1);
    }
  }

  lemma {:induction false} SumEnd(s: seq<real>, x: real)
    ensures Sum(s + [x]) == Sum(s) + x
  {
    if s == [] {
      assert [] + [x] == [x] && [x][1..] == [];
    } else {
      SumEnd(s[1..], x);
      assert (s + [x])[1..] == s[1..] + [x];
    }
  }

  lemma {:induction false} AddedIsSum(closes: seq<real>, n: nat)
    requires n <= |closes|
    ensures Added(closes, n) == Sum(closes[..n])
  {
    if n > 0 {
      AddedIsSum(closes, n - 1);
      SumEnd(closes[..n - 1], closes[n - 1]);
      assert closes[..n] == closes[..n - 1] + [closes[n - 1]];
    } else {
      assert closes[..0] == [];
    }
  }

  lemma TakenIs(closes: seq<real>, n: nat)
    ensures Take(closes, n) == closes[..AtMost(|closes|, n)]
  {
  }

  // ---------- the index, the average and the high ----------

  lemma ShareOf(gains: real, losses: real)
    requires gains >= 0.0 && losses > 0.0
    ensures Strength(gains, losses) * (gains + losses) == 100.0 * gains
  {
    var ratio := gains / losses;
    RatioNonNegative(gains, losses);
    DivCancels(gains, losses);
    DivCancels(100.0, 1.0 + ratio);
    var rest := 100.0 / (1.0 + ratio);
    assert ratio * losses == gains;
    assert (1.0 + ratio) * losses == losses + gains;
    assert rest * (gains + losses) == rest * (1.0 + ratio) * losses;
    assert rest * (1.0 + ratio) == 100.0;
  }

  /** The relative strength index: of everything the last fourteen moves went, the percentage that was up; a hundred
      when nothing was down, and fifty when there are fewer than fourteen moves. */
  lemma Rsi14Is(closes: seq<real>)
    ensures |closes| < 15 ==> Rsi14(closes) == 50.0
    ensures |closes| >= 15 && Fall(closes, 14) == 0.0 ==> Rsi14(closes) == 100.0
    ensures |closes| >= 15 && Fall(closes, 14) > 0.0 ==>
              Rsi14(closes) * (Rise(closes, 14) + Fall(closes, 14)) == 100.0 * Rise(closes, 14)
  {
    hide Rise, Fall, Gains, Losses;
    if |closes| >= 15 {
      RiseIsGains(closes, 14);
      if Fall(closes, 14) > 0.0 {
        ShareOf(Rise(closes, 14), Fall(closes, 14));
      }
    }
  }

  lemma PercentAbove(latest: real, base: real)
    requires base > 0.0
    ensures PctAbove(latest, base) * base == (latest - base) * 100.0
  {
    DivCancels(latest - base, base);
    assert (latest - base) / base * 100.0 * base == (latest - base) / base * base * 100.0;
  }

  /** The percentage by which the latest close is above the mean of at most two hundred, if that is positive. */
  lemma AboveAverageIs(closes: seq<real>)
    requires closes != []
    ensures var n := AtMost(|closes|, 200);
            var mean := Added(closes, n) / n as real;
            && (mean <= 0.0 ==> PctAboveSma(closes) == 0.0)
            && (mean > 0.0 ==> PctAboveSma(closes) * mean == (closes[0] - mean) * 100.0)
  {
    hide Added, Sum, PctAbove;
    var n := AtMost(|closes|, 200);
    AddedIsSum(closes, n);
    TakenIs(closes, 200);
    var mean := Added(closes, n) / n as real;
    if mean > 0.0 {
      PercentAbove(closes[0], mean);
    } else {
      NothingAbove(closes[0], mean);
    }
  }

  lemma NothingAbove(latest: real, base: real)
    requires base <= 0.0
    ensures PctAbove(latest, base) == 0.0
  {
  }

  /** The highest of a range of closes. */
  predicate Highest(closes: seq<real>, from: nat, to: nat, high: real)
    requires from <= to <= |closes|
  {
    (exists i | from <= i < to :: closes[i] == high) && forall i | from <= i < to :: closes[i] <= high
  }

  lemma MaxIsHighest(closes: seq<real>, limit: nat)
    requires closes != [] && limit > 0
    ensures Take(closes, limit) != [] && Highest(closes, 0, AtMost(|closes|, limit), MaxOf(Take(closes, limit)))
  {
    hide MaxOf;
    var window := Take(closes, limit);
    TakenIs(closes, limit);
    var i :| 0 <= i < |window| && window[i] == MaxOf(window);
    assert closes[i] == window[i];
    forall k | 0 <= k < |window| ensures closes[k] <= MaxOf(window) {
      assert window[k] in window;
    }
  }

  /** The percentage by which the latest close is below the highest of at most two hundred and fifty-two, if that is
      positive. */
  lemma FromHighIs(closes: seq<real>, high: real)
    requires closes != [] && Highest(closes, 0, AtMost(|closes|, 252), high)
    ensures high <= 0.0 ==> PctFromHigh(closes) == 0.0
    ensures high > 0.0 ==> PctFromHigh(closes) * high == (closes[0] - high) * 100.0
  {
    hide PctAbove, MaxOf;
    MaxIsHighest(closes, 252);
    if high > 0.0 {
      PercentAbove(closes[0], high);
    } else {
      NothingAbove(closes[0], high);
    }
  }

  // ---------- the score ----------

  /** Nothing up to the first point, a hundred from the second on, and in proportion between them. */
  function Ramp(x: real, from: real, to: real): real
    requires from < to
  {
    if x <= from then 0.0 else if x >= to then 100.0 else 100.0 * (x - from) / (to - from)
  }

  lemma RampsAre(sma: real, rsi: real, high: real)
    ensures 3.0 * DiscoveryRaw(sma, rsi, high) == Ramp(sma, 0.0, 30.0) + Ramp(rsi, 50.0, 90.0) + Ramp(high, -30.0, 0.0)
    ensures ConsensusRaw(sma, rsi, high) == DiscoveryRaw(sma, rsi, high)
  {
  }

  /** The discovery scanner's answer: none for fewer than fifteen closes or a latest that is not positive; otherwise the
      three percentages, how many closes the mean is over, and the mean of the three ramps, above the average by up to
      thirty percent, of strength between fifty and ninety, and below the high by up to thirty percent. */
  lemma ExtensionIs(closes: seq<real>)
    ensures ExtensionOf(closes).Some? <==> |closes| >= 15 && closes[0] > 0.0
    ensures ExtensionOf(closes).Some? ==>
              var e := ExtensionOf(closes).value;
              && e.pctAboveSma == PctAboveSma(closes) && e.rsi14 == Rsi14(closes)
              && e.pctFromHigh == PctFromHigh(closes)
              && e.smaDays == AtMost(|closes|, 200)
              && 3.0 * e.raw == Ramp(e.pctAboveSma, 0.0, 30.0) + Ramp(e.rsi14, 50.0, 90.0)
                                + Ramp(e.pctFromHigh, -30.0, 0.0)
  {
    hide DiscoveryRaw, ConsensusRaw, Rsi14, PctAboveSma, PctFromHigh, Ramp;
    if |closes| >= 15 {
      RampsAre(PctAboveSma(closes), Rsi14(closes), PctFromHigh(closes));
    }
  }

  /** The consensus scorer's answer: no data for fewer than fifteen closes; otherwise the mean of the same ramps. */
  lemma ScoreIs(closes: seq<real>)
    ensures ScoreOf(closes).status == NoData <==> |closes| < 15
    ensures |closes| < 15 ==> ScoreOf(closes).raw == 0.0
    ensures |closes| >= 15 ==>
              3.0 * ScoreOf(closes).raw == Ramp(PctAboveSma(closes), 0.0, 30.0) + Ramp(Rsi14(closes), 50.0, 90.0)
                                           + Ramp(PctFromHigh(closes), -30.0, 0.0)
  {
    hide DiscoveryRaw, ConsensusRaw, Rsi14, PctAboveSma, PctFromHigh, Ramp;
    if |closes| >= 15 {
      RampsAre(PctAboveSma(closes), Rsi14(closes), PctFromHigh(closes));
    }
  }
}
