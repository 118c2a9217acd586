/** What the fill records of a pass say: they account for every share and for all realized profit, and the
    status tells whether an order fell short. */
module SimulatorFills {
  import opened Numeric
  import opened Simulator
  import opened SimulatorPass

  /** Shares a fill adds to a signed position. */
  function SignedFill(f: Fill): real {
    if f.kind == Enter || f.kind == Increase then Direction(f.side) * f.quantity else -Direction(f.side) * f.quantity
  }

  function NetFilled(fills: seq<Fill>): real {
    if fills == [] then 0.0 else NetFilled(fills[..|fills| - 1]) + SignedFill(fills[|fills| - 1])
  }

  function RealizedByFills(fills: seq<Fill>): real {
    if fills == [] then 0.0 else RealizedByFills(fills[..|fills| - 1]) + fills[|fills| - 1].realized
  }

  /** The position moved by what was filled, less what the pass lost. */
  predicate Counts(c: Position, lost: real, s: Settlement) {
    SignedQuantity(s.position) == SignedQuantity(c) + NetFilled(s.fills) - Direction(c.side) * lost
  }

  lemma FillAppends(s: Settlement, leg: Leg, quantity: real, price: real)
    ensures var next := FillAmount(s, leg, quantity, price);
            var fill := FillFor(s.position, leg, quantity, price);
            && NetFilled(next.fills) == NetFilled(s.fills) + (if quantity > EPS then SignedFill(fill) else 0.0)
            && RealizedByFills(next.fills) == RealizedByFills(s.fills) + (if quantity > EPS then fill.realized else 0.0)
  {
    hide FillFor, SignedFill;
    var fill := FillFor(s.position, leg, quantity, price);
    assert (s.fills + [fill])[..|s.fills|] == s.fills;
  }

  lemma ScaleDirection(side: Side, x: real)
    ensures Direction(side) * x == match side case Long => x case Short => -x case Flat => 0.0
  {
  }

  /** A closing or increasing leg of an open position. */
  lemma HeldLegCounts(c: Position, leg: Leg, filled: real, price: real)
    requires WellFormed(c) && c.side == leg.side && c.side != Flat && leg.kind != Enter
    requires leg.kind != Increase ==> 0.0 <= filled <= c.quantity
    ensures Counts(c, if leg.kind == Increase then 0.0 else LostFrom(c, filled, false),
                   FillAmount(Start(c), leg, filled, price))
  {
    hide RealizedPnl;
    FillAppends(Start(c), leg, filled, price);
    ScaleDirection(c.side, LostFrom(c, filled, false));
  }

  /** What is left after an exit is what an enter leg would overwrite, less the dust already dropped. */
  lemma ExitLeaves(c: Position, exit: Leg, filled: real, price: real)
    requires WellFormed(c) && c.side == exit.side && c.side != Flat && exit.kind == Exit
    requires 0.0 <= filled <= c.quantity
    ensures SignedQuantity(FillAmount(Start(c), exit, filled, price).position)
         == Direction(c.side) * LostFrom(c, filled, true) - Direction(c.side) * LostFrom(c, filled, false)
  {
    hide RealizedPnl;
    ScaleDirection(c.side, LostFrom(c, filled, true));
    ScaleDirection(c.side, LostFrom(c, filled, false));
  }

  lemma EnterReplaces(s: Settlement, leg: Leg, filled: real, price: real)
    requires leg.kind == Enter
    ensures SignedQuantity(FillAmount(s, leg, filled, price).position)
         == if filled > EPS then SignedFill(FillFor(s.position, leg, filled, price)) else SignedQuantity(s.position)
  {
    ScaleDirection(leg.side, filled);
  }

  lemma FlipLegsCount(c: Position, exit: Leg, filled: real, enter: Leg, entered: real, price: real)
    requires WellFormed(c) && c.side == exit.side && c.side != Flat && exit.kind == Exit
    requires enter.kind == Enter && enter.side != Flat
    requires 0.0 <= filled <= c.quantity
    ensures Counts(c, LostFrom(c, filled, entered > EPS),
                   FillAmount(FillAmount(Start(c), exit, filled, price), enter, entered, price))
  {
    hide RealizedPnl, SignedQuantity, SignedFill, Direction, FillFor, FillAmount, LostFrom;
    var exited := FillAmount(Start(c), exit, filled, price);
    HeldLegCounts(c, exit, filled, price);
    ExitLeaves(c, exit, filled, price);
    FillAppends(exited, enter, entered, price);
    EnterReplaces(exited, enter, entered, price);
  }

  lemma EnterLegCounts(leg: Leg, filled: real, price: real)
    requires leg.kind == Enter
    ensures Counts(FLAT_POSITION, 0.0, FillAmount(Start(FLAT_POSITION), leg, filled, price))
  {
    FillAppends(Start(FLAT_POSITION), leg, filled, price);
    ScaleDirection(leg.side, filled);
  }

  lemma NothingFilled(input: Input)
    requires Trades(input) ==> BuildLegs(Normalize(input.current), input.targetSide, TargetQuantity(input)) == []
    ensures var out := Reconcile(input);
            out.fills == [] && out.final == Normalize(input.current) && Lost(input) == 0.0
  {
    ClosesAtMostAll(input);
    FillWithinLeg(Closing(input), Fraction(input));
  }

  /** Every share is accounted for, for every input: the signed position moves by exactly the signed fills,
      less the shares the pass loses. */
  lemma PassCountsShares(input: Input)
    ensures var c, out := Normalize(input.current), Reconcile(input);
            SignedQuantity(out.final) == SignedQuantity(c) + NetFilled(out.fills) - Direction(c.side) * Lost(input)
  {
    hide Reconcile, FillAmount, TargetQuantity, Portion, SignedQuantity, Direction;
    var c, tq, f, price := Normalize(input.current), TargetQuantity(input), Fraction(input), Price(input);
    if !Trades(input) || BuildLegs(c, input.targetSide, tq) == [] {
      NothingFilled(input);
    } else if Flips(input) {
      var exit, enter := Leg(c.side, c.quantity, Exit), Leg(input.targetSide, tq, Enter);
      LostInFlip(input);
      FlipPass(input);
      FlipLegsCount(c, exit, Portion(c.quantity, f), enter, Portion(tq, f), price);
      FillLegIs(Start(c), exit, f, price);
      FillLegIs(FillLeg(Start(c), exit, f, price), enter, f, price);
    } else {
      var leg := BuildLegs(c, input.targetSide, tq)[0];
      OneLegPass(input, leg);
      FillLegIs(Start(c), leg, f, price);
      ClosesAtMostAll(input);
      FillWithinLeg(Closing(input), f);
      if c.side == Flat {
        EnterLegCounts(leg, Portion(leg.quantity, f), price);
      } else {
        HeldLegCounts(c, leg, Portion(leg.quantity, f), price);
      }
    }
  }

  // ---------- realized profit and status ----------

  lemma {:induction false} SettledIsRecorded(c: Position, legs: seq<Leg>, f: real, price: real)
    ensures var s := Settle(c, legs, f, price);
            && s.realized == RealizedByFills(s.fills)
            && (s.partial <==> exists leg <- legs :: Portion(leg.quantity, f) + EPS < leg.quantity)
  {
    hide FillFor, Portion, Applied;
    if legs != [] {
      var last := |legs| - 1;
      SettledIsRecorded(c, legs[..last], f, price);
      FillAppends(Settle(c, legs[..last], f, price), legs[last], Portion(legs[last].quantity, f), price);
      assert forall leg :: leg in legs <==> leg in legs[..last] || leg == legs[last];
    }
  }

  /** Realized profit is the sum over the fill records, and a pass reports its orders as only submitted
      exactly when some leg was filled short by more than EPS. */
  lemma PassIsRecorded(input: Input)
    ensures var out := Reconcile(input);
            && out.realized == RealizedByFills(out.fills)
            && (out.status == Submitted <==>
                  Trades(input)
                  && exists leg <- BuildLegs(Normalize(input.current), input.targetSide, TargetQuantity(input)) ::
                       Portion(leg.quantity, Fraction(input)) + EPS < leg.quantity)
  {
    hide Portion, TargetQuantity, UnrealizedPnl, Settle;
    var legs := BuildLegs(Normalize(input.current), input.targetSide, TargetQuantity(input));
    SettledIsRecorded(Normalize(input.current), legs, Fraction(input), Price(input));
  }
}
