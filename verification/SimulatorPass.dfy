/** What one reconciliation pass keeps: the profit-and-loss accounts balance exactly up to the quantity
    the pass loses, positions stay well formed, and full fills reach the target and then stay there. */
module SimulatorPass {
  import opened Numeric
  import opened Simulator

  /** The pass gets as far as building legs: there is a price and no incident. */
  predicate Trades(input: Input) {
    Price(input) > EPS && IncidentOf(input).None?
  }

  function Fraction(input: Input): (f: real)
    ensures 0.0 <= f <= 1.0
  {
    Clamp(input.config.fillFraction, 0.0, 1.0)
  }

  predicate Flips(input: Input) {
    var c := Normalize(input.current);
    c.side != Flat && input.targetSide != Flat && c.side != input.targetSide
  }

  // ---------- unfolding the fold over at most two legs ----------

  function Start(c: Position): Settlement {
    Settlement(c, [], 0.0, false)
  }

  lemma SettleOne(c: Position, leg: Leg, f: real, price: real)
    ensures Settle(c, [leg], f, price) == FillLeg(Start(c), leg, f, price)
  {
    hide FillLeg;
    assert [leg][..0] == [];
  }

  lemma FillLegIs(s: Settlement, leg: Leg, f: real, price: real)
    ensures FillLeg(s, leg, f, price) == FillAmount(s, leg, Portion(leg.quantity, f), price)
  {
  }

  lemma SettleTwo(c: Position, first: Leg, second: Leg, f: real, price: real)
    ensures Settle(c, [first, second], f, price) == FillLeg(FillLeg(Start(c), first, f, price), second, f, price)
  {
    hide FillLeg;
    assert [first, second][..1] == [first];
    SettleOne(c, first, f, price);
  }

  // ---------- accounting of one fill ----------

  /** Averaging in at the market price moves no profit. */
  lemma IncreaseKeepsValue(p: Position, leg: Leg, quantity: real, price: real)
    requires WellFormed(p) && p.side == leg.side && p.side != Flat
    requires leg.kind == Increase && quantity > EPS
    ensures UnrealizedPnl(Applied(p, leg, quantity, price), price) == UnrealizedPnl(p, price)
  {
    var total := p.quantity + quantity;
    var avg := (p.quantity * p.avgPrice + quantity * price) / total;
    DivCancels(p.quantity * p.avgPrice + quantity * price, total);
    assert avg * total == p.quantity * p.avgPrice + quantity * price;
    assert (price - avg) * total == price * total - avg * total;
    assert (avg - price) * total == avg * total - price * total;
    assert (price - p.avgPrice) * p.quantity == price * p.quantity - p.quantity * p.avgPrice;
    assert (p.avgPrice - price) * p.quantity == p.quantity * p.avgPrice - price * p.quantity;
    assert price * total == price * p.quantity + quantity * price;
  }

  lemma AverageAboveTolerance(p: Position, quantity: real, price: real)
    requires p.quantity > EPS && p.avgPrice > EPS && quantity > EPS && price > EPS
    ensures (p.quantity * p.avgPrice + quantity * price) / (p.quantity + quantity) > EPS
  {
    var total := p.quantity + quantity;
    MulMonotone(EPS, p.avgPrice, p.quantity);
    assert quantity * price > quantity * EPS;
    assert p.quantity * p.avgPrice + quantity * price > EPS * total;
    var avg := (p.quantity * p.avgPrice + quantity * price) / total;
    assert avg * total > EPS * total;
    if avg <= EPS {
      MulMonotone(avg, EPS, total);
    }
  }

  /** Opening quantity that is neither kept nor realized when `filled` of it is sent to be closed:
      the dust a closing fill drops, or all that is left when another leg then overwrites it. */
  function LostFrom(c: Position, filled: real, overwritten: bool): real {
    var left := if filled > EPS then c.quantity - filled else c.quantity;
    if overwritten || (filled > EPS && left <= EPS) then left else 0.0
  }

  /** How much a pass intends to close. */
  function Closing(input: Input): real {
    var c := Normalize(input.current);
    if c.side == Flat then 0.0
    else if c.side == input.targetSide then Max(c.quantity - TargetQuantity(input), 0.0)
    else c.quantity
  }

  function Lost(input: Input): real {
    if Trades(input)
    then LostFrom(Normalize(input.current), Portion(Closing(input), Fraction(input)),
                  Flips(input) && Portion(TargetQuantity(input), Fraction(input)) > EPS)
    else 0.0
  }

  /** The guard under which a partial flip's enter leg overwrites a live remainder. */
  predicate Overwrites(input: Input) {
    var c, f := Normalize(input.current), Fraction(input);
    Trades(input) && Flips(input) && Portion(TargetQuantity(input), f) > EPS
    && (Portion(c.quantity, f) <= EPS || c.quantity - Portion(c.quantity, f) > EPS)
  }

  lemma FillWithinLeg(quantity: real, f: real)
    requires quantity >= 0.0 && 0.0 <= f <= 1.0
    ensures 0.0 <= Portion(quantity, f) <= quantity
  {
    MulMonotone(f, 1.0, quantity);
  }

  lemma ClosesAtMostAll(input: Input)
    ensures var filled := Portion(Closing(input), Fraction(input));
            0.0 <= filled <= Normalize(input.current).quantity
  {
    assert Closing(input) <= Normalize(input.current).quantity;
    FillWithinLeg(Closing(input), Fraction(input));
  }

  lemma OverwritesIffLost(input: Input)
    ensures Lost(input) >= 0.0
    ensures Overwrites(input) <==> Lost(input) > EPS
  {
    hide TargetQuantity, Portion;
    var c, f := Normalize(input.current), Fraction(input);
    ClosesAtMostAll(input);
  }

  // ---------- the accounting law of one pass ----------

  /** Realized profit plus what the final position would realize equals what the opening position
      would have realized, less the profit on the shares lost; and the final position is well formed. */
  ghost predicate Balances(c: Position, price: real, lost: real, final: Position, realized: real) {
    && WellFormed(final)
    && realized + UnrealizedPnl(final, price)
       == UnrealizedPnl(c, price) - RealizedPnl(c.side, lost, c.avgPrice, price)
  }

  lemma ProfitAdds(side: Side, a: real, b: real, avgPrice: real, price: real)
    ensures RealizedPnl(side, a + b, avgPrice, price)
         == RealizedPnl(side, a, avgPrice, price) + RealizedPnl(side, b, avgPrice, price)
  {
    assert (price - avgPrice) * (a + b) == (price - avgPrice) * a + (price - avgPrice) * b;
    assert (avgPrice - price) * (a + b) == (avgPrice - price) * a + (avgPrice - price) * b;
  }

  /** The profit on a position is that on any part of it plus that on the rest. */
  lemma SplitProfit(p: Position, filled: real, price: real)
    ensures RealizedPnl(p.side, filled, p.avgPrice, price) + RealizedPnl(p.side, p.quantity - filled, p.avgPrice, price)
         == UnrealizedPnl(p, price)
    ensures UnrealizedPnl(p.(quantity := p.quantity - filled), price)
         == RealizedPnl(p.side, p.quantity - filled, p.avgPrice, price)
    ensures RealizedPnl(p.side, 0.0, p.avgPrice, price) == 0.0
  {
    ProfitAdds(p.side, filled, p.quantity - filled, p.avgPrice, price);
    assert filled + (p.quantity - filled) == p.quantity;
  }

  lemma EnteredHasNoProfit(p: Position)
    ensures UnrealizedPnl(p, p.avgPrice) == 0.0
  {
  }

  lemma FlatHasNoProfit(price: real)
    ensures UnrealizedPnl(FLAT_POSITION, price) == 0.0
  {
  }

  /** A closing leg realizes exactly what it takes out of the open profit, less dropped dust. */
  lemma CloseLegBalances(c: Position, leg: Leg, filled: real, price: real)
    requires WellFormed(c) && c.side == leg.side && c.side != Flat
    requires leg.kind == Reduce || leg.kind == Exit
    requires 0.0 <= filled <= c.quantity
    ensures var s := FillAmount(Start(c), leg, filled, price);
            Balances(c, price, LostFrom(c, filled, false), s.position, s.realized)
  {
    hide RealizedPnl, UnrealizedPnl;
    SplitProfit(c, filled, price);
    FlatHasNoProfit(price);
  }

  /** What an exit realizes, whatever it leaves behind. */
  lemma ExitRealizes(c: Position, exit: Leg, filled: real, price: real)
    requires WellFormed(c) && c.side == exit.side && c.side != Flat && exit.kind == Exit
    requires 0.0 <= filled <= c.quantity
    ensures FillAmount(Start(c), exit, filled, price).realized
         == UnrealizedPnl(c, price) - RealizedPnl(c.side, LostFrom(c, filled, true), c.avgPrice, price)
  {
    hide RealizedPnl, UnrealizedPnl;
    SplitProfit(c, filled, price);
    SplitProfit(c, 0.0, price);
  }

  lemma EnterOverwrites(s: Settlement, enter: Leg, entered: real, price: real)
    requires enter.kind == Enter && enter.side != Flat && price > EPS && entered > EPS
    ensures var next := FillAmount(s, enter, entered, price);
            WellFormed(next.position) && next.realized == s.realized && UnrealizedPnl(next.position, price) == 0.0
  {
    hide RealizedPnl, UnrealizedPnl;
    EnteredHasNoProfit(Position(enter.side, entered, price));
  }

  /** An enter leg overwrites whatever the exit leg before it left behind. */
  lemma FlipLegsBalance(c: Position, exit: Leg, filled: real, enter: Leg, entered: real, price: real)
    requires WellFormed(c) && c.side == exit.side && c.side != Flat && exit.kind == Exit
    requires enter.kind == Enter && enter.side != Flat && price > EPS
    requires 0.0 <= filled <= c.quantity
    ensures var s := FillAmount(FillAmount(Start(c), exit, filled, price), enter, entered, price);
            Balances(c, price, LostFrom(c, filled, entered > EPS), s.position, s.realized)
  {
    hide UnrealizedPnl, RealizedPnl, LostFrom, WellFormed;
    var exited := FillAmount(Start(c), exit, filled, price);
    if entered > EPS {
      hide FillAmount;
      ExitRealizes(c, exit, filled, price);
      EnterOverwrites(exited, enter, entered, price);
    } else {
      hide Applied, FillFor;
      CloseLegBalances(c, exit, filled, price);
    }
  }

  lemma IncreaseLegBalances(c: Position, leg: Leg, filled: real, price: real)
    requires WellFormed(c) && c.side == leg.side && c.side != Flat && leg.kind == Increase
    requires price > EPS
    ensures var s := FillAmount(Start(c), leg, filled, price);
            Balances(c, price, 0.0, s.position, s.realized)
  {
    hide UnrealizedPnl, RealizedPnl;
    SplitProfit(c, 0.0, price);
    if filled > EPS {
      IncreaseKeepsValue(c, leg, filled, price);
      AverageAboveTolerance(c, filled, price);
    }
  }

  lemma OneLegPass(input: Input, leg: Leg)
    requires Trades(input)
    requires BuildLegs(Normalize(input.current), input.targetSide, TargetQuantity(input)) == [leg]
    ensures var s := FillLeg(Start(Normalize(input.current)), leg, Fraction(input), Price(input));
            var out := Reconcile(input);
            out.final == s.position && out.fills == s.fills && out.realized == s.realized
  {
    hide FillLeg, UnrealizedPnl;
    SettleOne(Normalize(input.current), leg, Fraction(input), Price(input));
  }

  lemma FlipPass(input: Input)
    requires Trades(input) && Flips(input)
    ensures var c, f, price := Normalize(input.current), Fraction(input), Price(input);
            var exit, enter := Leg(c.side, c.quantity, Exit), Leg(input.targetSide, TargetQuantity(input), Enter);
            var s := FillLeg(FillLeg(Start(c), exit, f, price), enter, f, price);
            var out := Reconcile(input);
            out.final == s.position && out.fills == s.fills && out.realized == s.realized
  {
    hide FillLeg, UnrealizedPnl;
    var c := Normalize(input.current);
    SettleTwo(c, Leg(c.side, c.quantity, Exit), Leg(input.targetSide, TargetQuantity(input), Enter),
              Fraction(input), Price(input));
  }

  lemma LostInFlip(input: Input)
    requires Trades(input) && Flips(input)
    ensures var c, f := Normalize(input.current), Fraction(input);
            && 0.0 <= Portion(c.quantity, f) <= c.quantity
            && Lost(input) == LostFrom(c, Portion(c.quantity, f), Portion(TargetQuantity(input), f) > EPS)
  {
    hide TargetQuantity, Portion;
    ClosesAtMostAll(input);
  }

  lemma FlipPassBalances(input: Input)
    requires Trades(input) && Flips(input)
    ensures Balances(Normalize(input.current), Price(input), Lost(input),
                     Reconcile(input).final, Reconcile(input).realized)
  {
    hide Balances, Reconcile, FillAmount, TargetQuantity, Portion, RealizedPnl, UnrealizedPnl;
    LostInFlip(input);
    var c, f, price, tq := Normalize(input.current), Fraction(input), Price(input), TargetQuantity(input);
    var exit, enter := Leg(c.side, c.quantity, Exit), Leg(input.targetSide, tq, Enter);
    FlipPass(input);
    FlipLegsBalance(c, exit, Portion(c.quantity, f), enter, Portion(tq, f), price);
    FillLegIs(Start(c), exit, f, price);
    FillLegIs(FillLeg(Start(c), exit, f, price), enter, f, price);
  }

  lemma ClosePassBalances(input: Input, leg: Leg)
    requires Trades(input) && !Flips(input)
    requires leg.side == Normalize(input.current).side != Flat && (leg.kind == Reduce || leg.kind == Exit)
    requires leg.quantity == Closing(input)
    requires BuildLegs(Normalize(input.current), input.targetSide, TargetQuantity(input)) == [leg]
    ensures Balances(Normalize(input.current), Price(input), Lost(input),
                     Reconcile(input).final, Reconcile(input).realized)
  {
    hide Balances, Reconcile, FillAmount, TargetQuantity, Portion, RealizedPnl, UnrealizedPnl;
    var c, f, price := Normalize(input.current), Fraction(input), Price(input);
    OneLegPass(input, leg);
    ClosesAtMostAll(input);
    CloseLegBalances(c, leg, Portion(leg.quantity, f), price);
    FillLegIs(Start(c), leg, f, price);
  }

  lemma IncreasePassBalances(input: Input)
    requires Trades(input) && Normalize(input.current).side == input.targetSide != Flat
    requires TargetQuantity(input) > Normalize(input.current).quantity + EPS
    ensures Balances(Normalize(input.current), Price(input), Lost(input),
                     Reconcile(input).final, Reconcile(input).realized)
  {
    hide Balances, Reconcile, FillAmount, TargetQuantity, Portion, RealizedPnl, UnrealizedPnl;
    var c, f, price := Normalize(input.current), Fraction(input), Price(input);
    var leg := Leg(c.side, TargetQuantity(input) - c.quantity, Increase);
    OneLegPass(input, leg);
    FillWithinLeg(Closing(input), f);
    IncreaseLegBalances(c, leg, Portion(leg.quantity, f), price);
    FillLegIs(Start(c), leg, f, price);
  }

  lemma EnterPassBalances(input: Input)
    requires Trades(input) && Normalize(input.current).side == Flat
    ensures Balances(Normalize(input.current), Price(input), Lost(input),
                     Reconcile(input).final, Reconcile(input).realized)
  {
    if input.targetSide != Flat {
      var f, price := Fraction(input), Price(input);
      var leg := Leg(input.targetSide, TargetQuantity(input), Enter);
      OneLegPass(input, leg);
      FillLegIs(Start(FLAT_POSITION), leg, f, price);
    }
  }

  lemma IdlePassBalances(input: Input)
    requires Trades(input) ==> BuildLegs(Normalize(input.current), input.targetSide, TargetQuantity(input)) == []
    ensures Balances(Normalize(input.current), Price(input), Lost(input),
                     Reconcile(input).final, Reconcile(input).realized)
  {
    ClosesAtMostAll(input);
    FillWithinLeg(Closing(input), Fraction(input));
  }

  /** The accounting law of one pass, for every input. */
  lemma PassBalances(input: Input)
    ensures Balances(Normalize(input.current), Price(input), Lost(input),
                     Reconcile(input).final, Reconcile(input).realized)
  {
    hide Balances, Reconcile, FillAmount, TargetQuantity, Portion, RealizedPnl, UnrealizedPnl;
    var c, tq := Normalize(input.current), TargetQuantity(input);
    if !Trades(input) || BuildLegs(c, input.targetSide, tq) == [] {
      IdlePassBalances(input);
    } else if Flips(input) {
      FlipPassBalances(input);
    } else if c.side == Flat {
      EnterPassBalances(input);
    } else if input.targetSide == Flat {
      ClosePassBalances(input, Leg(c.side, c.quantity, Exit));
    } else if tq > c.quantity {
      IncreasePassBalances(input);
    } else {
      ClosePassBalances(input, Leg(c.side, c.quantity - tq, Reduce));
    }
  }

  // ---------- reaching a target ----------

  /** Distance in quantity between a position and the target it is on its way to. */
  function Gap(p: Position, input: Input): real {
    Abs(p.quantity - TargetQuantity(input))
  }

  /** The position is flat or already on the target's side, or the target is flat. */
  predicate OnTheWay(p: Position, targetSide: Side) {
    p.side == Flat || targetSide == Flat || p.side == targetSide
  }

  /** One pass towards a target: it fills exactly when the fraction covers more than EPS of the gap,
      and a filling pass closes that fraction of the gap or leaves at most EPS of it. */
  ghost predicate StepsTowards(input: Input, out: Outcome) {
    var gap := Gap(input.current, input);
    var filled := Portion(gap, Fraction(input));
    && WellFormed(out.final) && OnTheWay(out.final, input.targetSide)
    && (out.fills != [] <==> filled > EPS)
    && (out.fills == [] ==> out.final == input.current && out.realized == 0.0)
    && (out.fills != [] ==> Gap(out.final, input) == gap - filled || Gap(out.final, input) <= EPS)
  }

  lemma OneLegSteps(input: Input, leg: Leg)
    requires Trades(input) && WellFormed(input.current) && OnTheWay(input.current, input.targetSide)
    requires BuildLegs(input.current, input.targetSide, TargetQuantity(input)) == [leg]
    ensures StepsTowards(input, Reconcile(input))
  {
    hide TargetQuantity, Portion, UnrealizedPnl, RealizedPnl, Reconcile, Balances;
    PassBalances(input);
    PassWellFormed(input);
    FillWithinLeg(leg.quantity, Fraction(input));
    assert leg.quantity == Gap(input.current, input);
    OneLegPass(input, leg);
    FillLegIs(Start(input.current), leg, Fraction(input), Price(input));
  }

  lemma PassWellFormed(input: Input)
    ensures WellFormed(Reconcile(input).final)
  {
    hide Reconcile, Lost;
    PassBalances(input);
  }

  lemma StepTowardsTarget(input: Input)
    requires Trades(input) && WellFormed(input.current) && OnTheWay(input.current, input.targetSide)
    ensures StepsTowards(input, Reconcile(input))
  {
    hide TargetQuantity, Portion, UnrealizedPnl, RealizedPnl;
    var c, tq := input.current, TargetQuantity(input);
    if BuildLegs(c, input.targetSide, tq) == [] {
      FillWithinLeg(Gap(c, input), Fraction(input));
    } else if c.side == Flat {
      OneLegSteps(input, Leg(input.targetSide, tq, Enter));
    } else if input.targetSide == Flat {
      OneLegSteps(input, Leg(c.side, c.quantity, Exit));
    } else if tq > c.quantity {
      OneLegSteps(input, Leg(c.side, tq - c.quantity, Increase));
    } else {
      OneLegSteps(input, Leg(c.side, c.quantity - tq, Reduce));
    }
  }

  /** Where a complete fill should leave a position. */
  function SignedTarget(input: Input): real {
    Direction(input.targetSide) * TargetQuantity(input)
  }

  lemma FullFlip(input: Input)
    requires Trades(input) && Fraction(input) == 1.0 && Flips(input)
    ensures var tq := TargetQuantity(input);
            Reconcile(input).final
              == if tq > EPS then Position(input.targetSide, tq, Price(input)) else FLAT_POSITION
  {
    hide TargetQuantity, UnrealizedPnl, Reconcile;
    var c := Normalize(input.current);
    FlipPass(input);
    assert Portion(c.quantity, 1.0) == c.quantity && Portion(TargetQuantity(input), 1.0) == TargetQuantity(input);
  }

  lemma OnTheWayIsSigned(p: Position, input: Input)
    requires WellFormed(p) && (p.side == Flat || p.side == input.targetSide)
    ensures Abs(SignedQuantity(p) - SignedTarget(input)) == Gap(p, input)
  {
    hide TargetQuantity;
  }

  lemma SameTarget(input: Input, c: Position)
    ensures TargetQuantity(input.(current := c)) == TargetQuantity(input)
  {
    assert Price(input.(current := c)) == Price(input);
  }

  /** With full fills and no fault one pass, flips included, reaches the target within EPS and ends
      flat or on the target's side. */
  lemma FullFillReaches(input: Input)
    requires Trades(input) && input.config.fillFraction >= 1.0
    ensures var p := Reconcile(input).final;
            && WellFormed(p) && (p.side == Flat || p.side == input.targetSide)
            && Gap(p, input) <= EPS
            && Abs(SignedQuantity(p) - SignedTarget(input)) <= EPS
  {
    hide TargetQuantity, Reconcile, SignedTarget;
    PassWellFormed(input);
    if Flips(input) {
      FullFlip(input);
    } else {
      var started := input.(current := Normalize(input.current));
      SameFromNormalized(input);
      SameTarget(input, started.current);
      assert Portion(Gap(started.current, started), 1.0) == Gap(started.current, started);
      StepTowardsTarget(started);
      assert Reconcile(input).final.side == Flat || Reconcile(input).final.side == input.targetSide by {
        if input.targetSide == Flat { assert Gap(Reconcile(input).final, input) <= EPS; }
      }
    }
    OnTheWayIsSigned(Reconcile(input).final, input);
  }

  lemma SameFromNormalized(input: Input)
    ensures Reconcile(input) == Reconcile(input.(current := Normalize(input.current)))
  {
    assert Price(input.(current := Normalize(input.current))) == Price(input);
  }

  /** A second identical pass makes no fill and changes nothing. */
  lemma FullFillIsFixpoint(input: Input)
    requires Trades(input) && input.config.fillFraction >= 1.0
    ensures var p := Reconcile(input).final;
            var again := Reconcile(input.(current := p));
            again.fills == [] && again.final == p && again.realized == 0.0
  {
    hide TargetQuantity, Reconcile, SignedTarget;
    FullFillReaches(input);
    var again := input.(current := Reconcile(input).final);
    SameTarget(input, again.current);
    StepTowardsTarget(again);
    FillWithinLeg(Gap(again.current, again), Fraction(again));
  }
}
