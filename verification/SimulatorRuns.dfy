/** What whole runs of passes keep: realized and open profit account for every market move,
    and partial fills converge to a resting gap. */
module SimulatorRuns {
  import opened Numeric
  import opened Simulator
  import opened SimulatorPass

  /** One order of a run: everything in a pass's input except the position it starts from. */
  datatype Order = Order(targetSide: Side, targetNotional: real, marketPrice: real, now: int, config: Config)

  function PassInput(c: Position, o: Order): Input {
    Input(o.targetSide, o.targetNotional, o.marketPrice, c, o.now, o.config)
  }

  function Mark(o: Order): real {
    Max(o.marketPrice, 0.0)
  }

  function After(c: Position, o: Order): Position {
    Reconcile(PassInput(c, o)).final
  }

  function FinalPosition(c: Position, orders: seq<Order>): Position
    decreases |orders|
  {
    if orders == [] then c else FinalPosition(After(c, orders[0]), orders[1..])
  }

  function TotalRealized(c: Position, orders: seq<Order>): real
    decreases |orders|
  {
    if orders == [] then 0.0
    else Reconcile(PassInput(c, orders[0])).realized + TotalRealized(After(c, orders[0]), orders[1..])
  }

  function LastMark(mark: real, orders: seq<Order>): real
    decreases |orders|
  {
    if orders == [] then mark else LastMark(Mark(orders[0]), orders[1..])
  }

  /** Signed quantity held times the price move it was held through. */
  function HoldingGain(c: Position, mark: real, price: real): real {
    SignedQuantity(c) * (price - mark)
  }

  /** What the market itself did to the held positions, summed over the run. */
  function MarketGain(c: Position, mark: real, orders: seq<Order>): real
    decreases |orders|
  {
    if orders == [] then 0.0
    else HoldingGain(c, mark, Mark(orders[0]))
         + MarketGain(After(c, orders[0]), Mark(orders[0]), orders[1..])
  }

  /** Open profit that a pass neither keeps nor realizes. */
  function LostProfit(c: Position, o: Order): real {
    RealizedPnl(c.side, Lost(PassInput(c, o)), c.avgPrice, Mark(o))
  }

  function RunLoss(c: Position, orders: seq<Order>): real
    decreases |orders|
  {
    if orders == [] then 0.0
    else LostProfit(c, orders[0]) + RunLoss(After(c, orders[0]), orders[1..])
  }

  lemma HoldingIsProfit(c: Position, mark: real, price: real)
    ensures HoldingGain(c, mark, price) == RealizedPnl(c.side, c.quantity, mark, price)
  {
    assert c.quantity * (price - mark) == (price - mark) * c.quantity;
    assert -c.quantity * (price - mark) == (mark - price) * c.quantity;
  }

  lemma ProfitChains(side: Side, quantity: real, from: real, via: real, to: real)
    ensures RealizedPnl(side, quantity, from, to)
         == RealizedPnl(side, quantity, from, via) + RealizedPnl(side, quantity, via, to)
  {
    assert (to - from) * quantity == (via - from) * quantity + (to - via) * quantity;
    assert (from - to) * quantity == (from - via) * quantity + (via - to) * quantity;
  }

  lemma Remark(c: Position, mark: real, price: real)
    ensures UnrealizedPnl(c, price) == UnrealizedPnl(c, mark) + HoldingGain(c, mark, price)
  {
    HoldingIsProfit(c, mark, price);
    ProfitChains(c.side, c.quantity, c.avgPrice, mark, price);
  }

  /** Conservation over every run, from every well-formed position, with no order excluded:
      realized plus final open profit is opening open profit plus market gain, less what was lost. */
  lemma {:induction false} RunConserves(c: Position, mark: real, orders: seq<Order>)
    requires WellFormed(c)
    ensures WellFormed(FinalPosition(c, orders))
    ensures TotalRealized(c, orders) + UnrealizedPnl(FinalPosition(c, orders), LastMark(mark, orders))
         == UnrealizedPnl(c, mark) + MarketGain(c, mark, orders) - RunLoss(c, orders)
    decreases |orders|
  {
    hide UnrealizedPnl, RealizedPnl, HoldingGain, Reconcile, Lost;
    if orders != [] {
      var o := orders[0];
      PassBalances(PassInput(c, o));
      Remark(c, mark, Mark(o));
      RunConserves(After(c, o), Mark(o), orders[1..]);
    }
  }

  /** Some pass of the run flips with a partial fill that overwrites a live remainder. */
  predicate SomeOverwrite(c: Position, orders: seq<Order>)
    decreases |orders|
  {
    orders != []
    && (Overwrites(PassInput(c, orders[0])) || SomeOverwrite(After(c, orders[0]), orders[1..]))
  }

  /** Dust tolerance: EPS of quantity per pass that drops dust, at its distance from cost. */
  function DustTolerance(c: Position, orders: seq<Order>): real
    decreases |orders|
  {
    if orders == [] then 0.0
    else (if Lost(PassInput(c, orders[0])) > 0.0 then EPS * Abs(Mark(orders[0]) - c.avgPrice) else 0.0)
         + DustTolerance(After(c, orders[0]), orders[1..])
  }

  lemma ProfitSize(side: Side, quantity: real, avgPrice: real, price: real)
    requires quantity >= 0.0
    ensures Abs(RealizedPnl(side, quantity, avgPrice, price))
         == if side == Flat then 0.0 else quantity * Abs(price - avgPrice)
  {
    var gap := Abs(price - avgPrice);
    MulMonotone(0.0, quantity, gap);
    assert (price - avgPrice) * quantity == if price < avgPrice then -(quantity * gap) else quantity * gap;
    assert (avgPrice - price) * quantity == if price < avgPrice then quantity * gap else -(quantity * gap);
  }

  lemma AbsOfDifference(a: real, b: real)
    ensures Abs(a - b) >= 0.0
    ensures Abs(a - b) == 0.0 <==> a == b
  {
  }

  lemma DustSize(lost: real, gap: real)
    requires lost >= 0.0 && gap >= 0.0
    ensures lost == 0.0 || gap == 0.0 ==> lost * gap == 0.0
    ensures 0.0 <= EPS * gap
    ensures lost <= EPS ==> lost * gap <= EPS * gap
    ensures lost > EPS && gap > 0.0 ==> lost * gap > EPS * gap
  {
    if lost <= EPS {
      MulMonotone(lost, EPS, gap);
    } else if gap > 0.0 {
      MulStrict(EPS, lost, gap);
    }
  }

  /** Losing no shares, or at cost, loses nothing; losing dust at most EPS per unit of distance from cost; and
      losing more than dust of an open position away from cost loses more than that. */
  lemma LossSize(side: Side, lost: real, avgPrice: real, price: real)
    requires lost >= 0.0
    ensures var size, gap := Abs(RealizedPnl(side, lost, avgPrice, price)), Abs(price - avgPrice);
            && (lost == 0.0 || gap == 0.0 ==> size == 0.0)
            && (lost <= EPS ==> size <= EPS * gap)
            && (lost > EPS && gap > 0.0 && side != Flat ==> size > EPS * gap)
  {
    hide RealizedPnl, Abs;
    var size, gap := Abs(RealizedPnl(side, lost, avgPrice, price)), Abs(price - avgPrice);
    AbsOfDifference(price, avgPrice);
    ProfitSize(side, lost, avgPrice, price);
    DustSize(lost, gap);
    if side == Flat {
      assert size == 0.0;
    } else {
      assert size == lost * gap;
    }
  }

  lemma LostProfitBound(c: Position, o: Order)
    requires WellFormed(c) && !Overwrites(PassInput(c, o))
    ensures Abs(LostProfit(c, o))
         <= if Lost(PassInput(c, o)) > 0.0 then EPS * Abs(Mark(o) - c.avgPrice) else 0.0
  {
    hide Lost, Overwrites, RealizedPnl, Mark, Abs;
    OverwritesIffLost(PassInput(c, o));
    LossSize(c.side, Lost(PassInput(c, o)), c.avgPrice, Mark(o));
  }

  lemma {:induction false} RunLossBound(c: Position, orders: seq<Order>)
    requires WellFormed(c) && !SomeOverwrite(c, orders)
    ensures Abs(RunLoss(c, orders)) <= DustTolerance(c, orders)
    decreases |orders|
  {
    hide LostProfit, Overwrites, Lost;
    if orders != [] {
      LostProfitBound(c, orders[0]);
      PassBalances(PassInput(c, orders[0]));
      RunLossBound(After(c, orders[0]), orders[1..]);
    }
  }

  /** Without an overwriting partial flip the accounts of a run balance up to dust. */
  lemma RunConservesUpToDust(c: Position, mark: real, orders: seq<Order>)
    requires WellFormed(c) && !SomeOverwrite(c, orders)
    ensures Abs(TotalRealized(c, orders) + UnrealizedPnl(FinalPosition(c, orders), LastMark(mark, orders))
                - UnrealizedPnl(c, mark) - MarketGain(c, mark, orders))
         <= DustTolerance(c, orders)
  {
    hide UnrealizedPnl, RunLoss, MarketGain, TotalRealized;
    RunConserves(c, mark, orders);
    RunLossBound(c, orders);
  }

  /** What a pass changes in realized plus open profit at its own price; a pass that conserves changes nothing. */
  function Discrepancy(c: Position, o: Order): real {
    var out := Reconcile(PassInput(c, o));
    out.realized + UnrealizedPnl(out.final, Mark(o)) - UnrealizedPnl(c, Mark(o))
  }

  lemma DiscrepancyIsLoss(c: Position, o: Order)
    requires WellFormed(c)
    ensures Discrepancy(c, o) == -LostProfit(c, o)
  {
    hide UnrealizedPnl, RealizedPnl, Lost, Reconcile;
    PassBalances(PassInput(c, o));
  }

  lemma LostProfitIs(c: Position, o: Order)
    ensures LostProfit(c, o) == RealizedPnl(c.side, Lost(PassInput(c, o)), c.avgPrice, Mark(o))
  {
  }

  lemma Negated(x: real)
    ensures Abs(-x) == Abs(x)
  {
  }

  /** A pass conserves up to dust exactly when it does not overwrite, or trades at cost. */
  lemma PassConservesIff(c: Position, o: Order)
    requires WellFormed(c)
    ensures Abs(Discrepancy(c, o)) <= EPS * Abs(Mark(o) - c.avgPrice)
       <==> !Overwrites(PassInput(c, o)) || Mark(o) == c.avgPrice
  {
    hide Lost, Overwrites, LostProfit, RealizedPnl, Mark, Discrepancy, Abs;
    DiscrepancyIsLoss(c, o);
    LostProfitIs(c, o);
    Negated(LostProfit(c, o));
    OverwritesIffLost(PassInput(c, o));
    AbsOfDifference(Mark(o), c.avgPrice);
    LossSize(c.side, Lost(PassInput(c, o)), c.avgPrice, Mark(o));
    if Overwrites(PassInput(c, o)) {
      OverwriteNeedsOpenPosition(PassInput(c, o));
    }
  }

  lemma OverwriteNeedsOpenPosition(input: Input)
    requires Overwrites(input)
    ensures Normalize(input.current).side != Flat
  {
  }

  /** Half-filled flip of 10 long at cost 100 into 10 short at 120, with 200 of open profit: the exit realizes
      100 on 5 shares, the enter leg replaces the other 5 by 5 short at 120, and nothing of the rest remains. */
  lemma OverwriteExample()
    ensures var o := Order(Short, 1200.0, 120.0, 0, DEFAULT_CONFIG.(fillFraction := 0.5));
            var c := Position(Long, 10.0, 100.0);
            var out := Reconcile(PassInput(c, o));
            && UnrealizedPnl(c, 120.0) == 200.0
            && out.final == Position(Short, 5.0, 120.0)
            && out.realized == 100.0 && UnrealizedPnl(out.final, 120.0) == 0.0
            && |out.fills| == 2 && out.status == Submitted
  {
    var o := Order(Short, 1200.0, 120.0, 0, DEFAULT_CONFIG.(fillFraction := 0.5));
    var c := Position(Long, 10.0, 100.0);
    var input := PassInput(c, o);
    assert TargetQuantity(input) == 10.0;
    assert Portion(10.0, 0.5) == 5.0;
    var exit, enter := Leg(Long, 10.0, Exit), Leg(Short, 10.0, Enter);
    assert BuildLegs(c, Short, 10.0) == [exit, enter];
    SettleTwo(c, exit, enter, 0.5, 120.0);
  }

  // ---------- convergence of partial fills ----------

  function Repeat(c: Position, o: Order, n: nat): Position
    decreases n
  {
    if n == 0 then c else Repeat(After(c, o), o, n - 1)
  }

  /** No further pass of this order fills anything. */
  predicate AtRest(c: Position, o: Order) {
    Portion(Gap(c, PassInput(c, o)), Fraction(PassInput(c, o))) <= EPS
  }

  lemma {:induction false} RestPersists(c: Position, o: Order, n: nat)
    requires Trades(PassInput(c, o)) && WellFormed(c) && OnTheWay(c, o.targetSide) && AtRest(c, o)
    ensures Repeat(c, o, n) == c
    ensures Reconcile(PassInput(c, o)).fills == []
    decreases n
  {
    hide TargetQuantity, Reconcile, Portion;
    StepTowardsTarget(PassInput(c, o));
    if n > 0 {
      RestPersists(c, o, n - 1);
    }
  }

  /** Partial fills converge towards a target reached without a flip: from gap g, at most g / EPS passes fill
      anything; then the position is at rest with a gap of at most EPS / f, and every later pass leaves it alone. */
  lemma {:induction false} PartialFillsConverge(c: Position, o: Order, n: nat, later: nat)
    requires Trades(PassInput(c, o)) && WellFormed(c) && OnTheWay(c, o.targetSide)
    requires Fraction(PassInput(c, o)) > 0.0
    requires n as real * EPS >= Gap(c, PassInput(c, o)) && later >= n
    ensures var p := Repeat(c, o, later);
            && p == Repeat(c, o, n) && WellFormed(p) && OnTheWay(p, o.targetSide)
            && AtRest(p, o) && Reconcile(PassInput(p, o)).fills == []
            && Gap(p, PassInput(p, o)) <= EPS / Fraction(PassInput(c, o))
    decreases n
  {
    hide TargetQuantity, Reconcile, Portion;
    var input := PassInput(c, o);
    var gap, f := Gap(c, input), Fraction(input);
    FillWithinLeg(gap, f);
    if AtRest(c, o) {
      RestPersists(c, o, n);
      RestPersists(c, o, later);
      RestingGap(gap, f);
    } else {
      StepTowardsTarget(input);
      assert n > 0;
      assert (n - 1) as real * EPS == n as real * EPS - EPS;
      var next := After(c, o);
      SameTarget(input, next);
      PartialFillsConverge(next, o, n - 1, later - 1);
    }
  }

  lemma RestingGap(gap: real, f: real)
    requires f > 0.0 && Portion(gap, f) <= EPS
    ensures gap <= EPS / f
  {
    assert gap * f / f == gap;
    if gap > EPS / f {
      MulStrict(EPS / f, gap, f);
    }
  }

  /** One pass of a flip: once the enter leg fills, the position is on its way; until then the exit leg
      alone shrinks the old position, or nothing fills. */
  lemma FlipStep(input: Input)
    requires Trades(input) && WellFormed(input.current) && Flips(input)
    ensures var c, out := input.current, Reconcile(input);
            var exited := Portion(c.quantity, Fraction(input));
            var entered := Portion(TargetQuantity(input), Fraction(input));
            && 0.0 <= exited <= c.quantity && 0.0 <= entered <= TargetQuantity(input)
            && (entered > EPS ==> out.final == Position(input.targetSide, entered, Price(input)))
            && (entered <= EPS && exited > EPS ==>
                  out.final == if c.quantity - exited <= EPS then FLAT_POSITION
                               else c.(quantity := c.quantity - exited))
            && (out.fills == [] <==> entered <= EPS && exited <= EPS)
            && (out.fills == [] ==> out.final == c)
  {
    hide TargetQuantity, Portion, UnrealizedPnl, RealizedPnl, Reconcile;
    FlipPass(input);
    FillWithinLeg(input.current.quantity, Fraction(input));
    FillWithinLeg(TargetQuantity(input), Fraction(input));
  }

  lemma {:induction false} IdlePersists(c: Position, o: Order, n: nat)
    requires After(c, o) == c
    ensures Repeat(c, o, n) == c
    decreases n
  {
    hide After;
    if n > 0 {
      IdlePersists(c, o, n - 1);
    }
  }

  /** Where an order stops: within EPS / f of its target, or, on a flip whose legs have both become too small
      to send, with at most EPS / f still held and at most EPS / f wanted. */
  predicate RestsNear(p: Position, o: Order) {
    var input := PassInput(p, o);
    Fraction(input) > 0.0
    && if OnTheWay(p, o.targetSide) then Gap(p, input) <= EPS / Fraction(input)
       else p.quantity <= EPS / Fraction(input) && TargetQuantity(input) <= EPS / Fraction(input)
  }

  lemma FlipRests(c: Position, o: Order, n: nat, later: nat)
    requires Trades(PassInput(c, o)) && WellFormed(c) && Flips(PassInput(c, o))
    requires Fraction(PassInput(c, o)) > 0.0 && Reconcile(PassInput(c, o)).fills == []
    ensures Repeat(c, o, later) == c == Repeat(c, o, n) && RestsNear(c, o)
  {
    hide TargetQuantity, Reconcile, Portion, Repeat;
    var input := PassInput(c, o);
    FlipStep(input);
    IdlePersists(c, o, n);
    IdlePersists(c, o, later);
    RestingGap(c.quantity, Fraction(input));
    RestingGap(TargetQuantity(input), Fraction(input));
  }

  lemma StraightConverges(c: Position, o: Order, n: nat, later: nat)
    requires Trades(PassInput(c, o)) && WellFormed(c) && OnTheWay(c, o.targetSide)
    requires Fraction(PassInput(c, o)) > 0.0
    requires n as real * EPS >= Gap(c, PassInput(c, o)) && later >= n
    ensures var p := Repeat(c, o, later);
            && p == Repeat(c, o, n) && Reconcile(PassInput(p, o)).fills == [] && After(p, o) == p && RestsNear(p, o)
  {
    hide TargetQuantity, Reconcile, Portion, Repeat;
    PartialFillsConverge(c, o, n, later);
    StepTowardsTarget(PassInput(Repeat(c, o, later), o));
  }

  /** Convergence from every well-formed position, flips included: within (quantity + target + EPS) / EPS
      passes every order stops, every later pass changes nothing, and it stops near its target. */
  lemma {:induction false} EveryPartialFillConverges(c: Position, o: Order, n: nat, later: nat)
    requires Trades(PassInput(c, o)) && WellFormed(c) && Fraction(PassInput(c, o)) > 0.0
    requires n as real * EPS >= c.quantity + TargetQuantity(PassInput(c, o)) + EPS && later >= n
    ensures var p := Repeat(c, o, later);
            && p == Repeat(c, o, n) && Reconcile(PassInput(p, o)).fills == [] && After(p, o) == p && RestsNear(p, o)
    decreases n
  {
    hide TargetQuantity, Reconcile, Portion, RestsNear;
    var input, next := PassInput(c, o), After(c, o);
    if !Flips(input) {
      StraightConverges(c, o, n, later);
    } else {
      FlipStep(input);
      SameTarget(input, next);
      assert n > 0;
      assert (n - 1) as real * EPS == n as real * EPS - EPS;
      if Portion(TargetQuantity(input), Fraction(input)) > EPS {
        StraightConverges(next, o, n - 1, later - 1);
      } else if Portion(c.quantity, Fraction(input)) > EPS {
        EveryPartialFillConverges(next, o, n - 1, later - 1);
      } else {
        FlipRests(c, o, n, later);
      }
    }
  }
}
