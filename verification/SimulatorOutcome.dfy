/** A whole pass from its input alone: what it sends and at what price it is recorded, where the position ends, what
    is shown as profit, and what the pass reports. */
module SimulatorOutcome {
  import opened Numeric
  import opened Wrappers
  import opened Simulator
  import opened SimulatorPass

  // ---------- what a pass intends ----------

  /** What the pass takes to be held: a position of dust, or without a cost, counts as none. */
  function Held(input: Input): Position {
    var p := input.current;
    if p.side != Flat && p.quantity > EPS && p.avgPrice > EPS then p else Position(Flat, 0.0, 0.0)
  }

  /** The wanted number of shares. */
  function Aim(input: Input): real {
    if input.targetSide == Flat || input.marketPrice <= EPS || input.targetNotional <= 0.0 then 0.0
    else input.targetNotional / input.marketPrice
  }

  /** Shares to close: all of them when the side changes, else what exceeds the aim by more than EPS. */
  function ToClose(input: Input): real {
    var p := Held(input);
    if p.side == Flat then 0.0
    else if p.side != input.targetSide then p.quantity
    else if p.quantity - Aim(input) > EPS then p.quantity - Aim(input)
    else 0.0
  }

  /** Shares to open: all of the aim when the side changes, else what is short of it by more than EPS. */
  function ToOpen(input: Input): real {
    var p := Held(input);
    if input.targetSide == Flat then 0.0
    else if p.side != input.targetSide then Aim(input)
    else if Aim(input) - p.quantity > EPS then Aim(input) - p.quantity
    else 0.0
  }

  /** The fraction of every order that fills. */
  function Filling(input: Input): real {
    var f := input.config.fillFraction;
    if f < 0.0 then 0.0 else if f > 1.0 then 1.0 else f
  }

  function Closed(input: Input): real {
    Product(ToClose(input), Filling(input))
  }

  function Opened(input: Input): real {
    Product(ToOpen(input), Filling(input))
  }

  /** Profit per share of leaving a side at a price. */
  function Gain(side: Side, cost: real, price: real): real {
    match side
    case Long => price - cost
    case Short => cost - price
    case Flat => 0.0
  }

  // ---------- incidents ----------

  /** The broker's last snapshot is older than the allowed age, a negative one counting as zero. */
  predicate SnapshotTooOld(input: Input) {
    var seen, age := input.config.lastSeenAt, input.config.maxSnapshotAge;
    seen.Some? && input.now > seen.value && input.now > seen.value + age
  }

  /** Exactly when each incident is raised; without a price none is. */
  lemma IncidentIff(input: Input)
    ensures var raised, old_, fault := Reconcile(input).incident, SnapshotTooOld(input), input.config.fault;
            && (input.marketPrice <= EPS ==> raised.None?)
            && (input.marketPrice > EPS ==>
                  && (raised == Some(StaleBrokerData) <==> old_ || fault == StaleSnapshot)
                  && (raised == Some(OrderRejected) <==> !old_ && fault == Reject && input.config.priorRejects == 0)
                  && (raised == Some(RepeatedOrderReject)
                      <==> !old_ && fault == Reject && input.config.priorRejects > 0)
                  && (raised == Some(BrokerDisconnect) <==> !old_ && fault == Disconnect)
                  && (raised == Some(UnknownStatus) <==> !old_ && fault == UnknownOrderStatus))
  {
    hide Settle, BuildLegs, TargetQuantity, UnrealizedPnl;
  }

  /** The pass sends orders: there is a price, and no incident. */
  predicate Sends(input: Input) {
    input.marketPrice > EPS && Reconcile(input).incident.None?
  }

  // ---------- how the pass's own terms read ----------

  lemma HeldIs(input: Input)
    ensures Normalize(input.current) == Held(input)
  {
  }

  lemma AimIs(input: Input)
    ensures TargetQuantity(input) == Aim(input) >= 0.0
  {
  }

  lemma SendsIs(input: Input)
    ensures Sends(input) <==> Trades(input)
  {
    hide Settle, BuildLegs, TargetQuantity, UnrealizedPnl;
  }

  lemma PortionIs(quantity: real, input: Input)
    ensures Portion(quantity, Fraction(input)) == Product(quantity, Filling(input))
  {
  }

  lemma ProductOfZero(a: real)
    ensures Product(0.0, a) == 0.0
  {
  }

  lemma GainIs(side: Side, quantity: real, cost: real, price: real)
    ensures RealizedPnl(side, quantity, cost, price) == Product(Gain(side, cost, price), quantity)
  {
  }

  lemma ClosedWithin(input: Input)
    ensures 0.0 <= Closed(input) <= Held(input).quantity
  {
    hide ToClose, Product;
    ToCloseWithin(input);
    PartOf(ToClose(input), Filling(input));
  }

  lemma ToCloseWithin(input: Input)
    ensures 0.0 <= ToClose(input) <= Held(input).quantity
  {
    hide Aim;
    AimIs(input);
  }

  lemma PartOf(a: real, f: real)
    requires a >= 0.0 && 0.0 <= f <= 1.0
    ensures 0.0 <= Product(a, f) <= a
  {
    MulMonotone(f, 1.0, a);
  }

  /** The legs, from what is held and wanted. */
  lemma LegsAre(input: Input)
    ensures var p := Held(input);
            BuildLegs(p, input.targetSide, Aim(input))
              == (if p.side == Flat then []
                  else if p.side != input.targetSide then [Leg(p.side, p.quantity, Exit)]
                  else if ToClose(input) > EPS then [Leg(p.side, ToClose(input), Reduce)] else [])
               + (if input.targetSide == Flat then []
                  else if p.side != input.targetSide then [Leg(input.targetSide, Aim(input), Enter)]
                  else if ToOpen(input) > EPS then [Leg(p.side, ToOpen(input), Increase)] else [])
  {
    hide Aim;
    AimIs(input);
  }

  // ---------- the records ----------

  /** The record of the closing fill: at the market price, realizing the gain over cost. */
  function ClosingRecord(input: Input): Fill {
    var p, q, price := Held(input), Closed(input), input.marketPrice;
    Fill(p.side, q, price, Product(q, price), Product(Gain(p.side, p.avgPrice, price), q),
         if p.side != input.targetSide then Exit else Reduce)
  }

  /** The record of the opening fill: at the market price, realizing nothing. */
  function OpeningRecord(input: Input): Fill {
    var q, price := Opened(input), input.marketPrice;
    Fill(input.targetSide, q, price, Product(q, price), 0.0,
         if Held(input).side != input.targetSide then Enter else Increase)
  }

  /** Where the closing fill leaves the position: less by what it closes, flat at dust. */
  function AfterClosing(input: Input): Position {
    var p, q := Held(input), Closed(input);
    if q <= EPS then p
    else if p.quantity - q <= EPS then Position(Flat, 0.0, 0.0)
    else Position(p.side, p.quantity - q, p.avgPrice)
  }

  lemma ClosingFill(input: Input, leg: Leg)
    requires Held(input).side != Flat && leg.side == Held(input).side && leg.quantity == ToClose(input)
    requires leg.kind == if leg.side != input.targetSide then Exit else Reduce
    requires input.marketPrice > EPS
    ensures var s := FillLeg(Start(Held(input)), leg, Fraction(input), Price(input));
            && s.position == AfterClosing(input)
            && s.fills == (if Closed(input) > EPS then [ClosingRecord(input)] else [])
            && s.realized == (if Closed(input) > EPS then ClosingRecord(input).realized else 0.0)
  {
    hide RealizedPnl, Gain, Portion, Fraction, Filling, ToClose, Product, FillFor;
    var p, q := Held(input), Closed(input);
    PortionIs(leg.quantity, input);
    ClosedWithin(input);
    GainIs(p.side, q, p.avgPrice, input.marketPrice);
    RecordOf(p, leg, q, input.marketPrice);
  }

  lemma RecordOf(p: Position, leg: Leg, quantity: real, price: real)
    requires quantity >= 0.0
    ensures FillFor(p, leg, quantity, price)
         == Fill(leg.side, quantity, price, Product(quantity, price),
                 if (leg.kind == Reduce || leg.kind == Exit) && p.side == leg.side
                 then RealizedPnl(p.side, Min(quantity, p.quantity), p.avgPrice, price) else 0.0,
                 leg.kind)
  {
    hide RealizedPnl;
  }

  lemma OpeningFill(input: Input, s: Settlement, leg: Leg)
    requires leg.side == input.targetSide != Flat && leg.quantity == ToOpen(input) && input.marketPrice > EPS
    requires leg.kind == if Held(input).side != input.targetSide then Enter else Increase
    requires leg.kind == Increase ==> s.position.side == leg.side
    ensures var next := FillLeg(s, leg, Fraction(input), Price(input));
            && next.fills == s.fills + (if Opened(input) > EPS then [OpeningRecord(input)] else [])
            && next.realized == s.realized
            && (Opened(input) <= EPS ==> next.position == s.position)
            && (Opened(input) > EPS && leg.kind == Enter ==>
                  next.position == Position(leg.side, Opened(input), input.marketPrice))
            && (Opened(input) > EPS && leg.kind == Increase ==>
                  next.position == Position(leg.side, s.position.quantity + Opened(input),
                                            AverageCost(s.position, Opened(input), input.marketPrice)))
  {
    hide AverageCost, RealizedPnl, Portion, Fraction, Filling, ToOpen, Product, FillFor;
    PortionIs(leg.quantity, input);
    if Opened(input) > EPS {
      RecordOf(s.position, leg, Opened(input), input.marketPrice);
    }
  }

  /** Everything the pass does once it sends: the two records, and the position after both. */
  ghost predicate Does(input: Input, final: Position, fills: seq<Fill>, realized: real) {
    var p, closes, opens := Held(input), Closed(input) > EPS, Opened(input) > EPS;
    && fills == (if closes then [ClosingRecord(input)] else []) + (if opens then [OpeningRecord(input)] else [])
    && realized == (if closes then ClosingRecord(input).realized else 0.0)
    && (!opens ==> final == AfterClosing(input))
    && (opens && p.side != input.targetSide ==>
          final == Position(input.targetSide, Opened(input), input.marketPrice))
    && (opens && p.side == input.targetSide ==>
          final == Position(p.side, p.quantity + Opened(input), AverageCost(p, Opened(input), input.marketPrice)))
  }

  lemma FlipDoes(input: Input)
    requires Trades(input) && Held(input).side != Flat && input.targetSide !in {Flat, Held(input).side}
    ensures var out := Reconcile(input); Does(input, out.final, out.fills, out.realized)
  {
    hide Reconcile, FillLeg, AfterClosing, ClosingRecord, OpeningRecord, Opened, Closed, AverageCost, TargetQuantity,
      Aim;
    HeldIs(input);
    AimIs(input);
    FlipPass(input);
    var p := Held(input);
    var exit, enter := Leg(p.side, p.quantity, Exit), Leg(input.targetSide, Aim(input), Enter);
    ClosingFill(input, exit);
    OpeningFill(input, FillLeg(Start(p), exit, Fraction(input), Price(input)), enter);
  }

  lemma OneSidedDoes(input: Input)
    requires Trades(input) && (Held(input).side == Flat || input.targetSide in {Flat, Held(input).side})
    ensures var out := Reconcile(input); Does(input, out.final, out.fills, out.realized)
  {
    hide FillLeg, ClosingRecord, OpeningRecord, AverageCost, TargetQuantity, Aim, Settle, Product, UnrealizedPnl;
    HeldIs(input);
    AimIs(input);
    LegsAre(input);
    ProductOfZero(Filling(input));
    var p, legs := Held(input), BuildLegs(Held(input), input.targetSide, Aim(input));
    if legs != [] {
      var leg := legs[0];
      OneLegPass(input, leg);
      if leg.kind == Exit || leg.kind == Reduce {
        ClosingFill(input, leg);
      } else {
        OpeningFill(input, Start(p), leg);
      }
    }
  }

  lemma PassDoes(input: Input)
    requires Sends(input)
    ensures var out := Reconcile(input); Does(input, out.final, out.fills, out.realized)
  {
    hide Does, Reconcile;
    SendsIs(input);
    if Held(input).side == Flat || input.targetSide in {Flat, Held(input).side} {
      OneSidedDoes(input);
    } else {
      FlipDoes(input);
    }
  }

  lemma SilentPass(input: Input)
    requires !Sends(input)
    ensures var out := Reconcile(input); out.fills == [] && out.realized == 0.0 && out.final == Held(input)
  {
    hide Settle, BuildLegs, TargetQuantity, UnrealizedPnl;
  }

  /** The records of every pass: the part of the closing order that fills and then the part of the opening order, each
      if more than EPS, both at the market price, for its quantity times that price. */
  lemma PassFills(input: Input)
    ensures var out, p, price := Reconcile(input), Held(input), input.marketPrice;
            var closing, opening := ToClose(input) * Filling(input), ToOpen(input) * Filling(input);
            && (forall fill <- out.fills ::
                  price > EPS && fill.price == price && fill.notional == fill.quantity * price && fill.quantity > EPS)
            && out.fills
               == (if Sends(input) && closing > EPS
                   then [Fill(p.side, closing, price, closing * price, Gain(p.side, p.avgPrice, price) * closing,
                              if p.side != input.targetSide then Exit else Reduce)]
                   else [])
                + (if Sends(input) && opening > EPS
                   then [Fill(input.targetSide, opening, price, opening * price, 0.0,
                              if p.side != input.targetSide then Enter else Increase)]
                   else [])
  {
    hide Reconcile, AfterClosing, AverageCost, Filling, ToClose, ToOpen, Gain, Held, Sends, ClosingRecord,
      OpeningRecord;
    if Sends(input) {
      PassDoes(input);
      SendsPriced(input);
      RecordsRead(input);
    } else {
      SilentPass(input);
    }
  }

  lemma RecordsRead(input: Input)
    ensures var p, price := Held(input), input.marketPrice;
            var closing, opening := ToClose(input) * Filling(input), ToOpen(input) * Filling(input);
            && Closed(input) == closing && Opened(input) == opening
            && ClosingRecord(input)
               == Fill(p.side, closing, price, closing * price, Gain(p.side, p.avgPrice, price) * closing,
                       if p.side != input.targetSide then Exit else Reduce)
            && OpeningRecord(input)
               == Fill(input.targetSide, opening, price, opening * price, 0.0,
                       if p.side != input.targetSide then Enter else Increase)
  {
    hide Filling, ToClose, ToOpen, Gain, Held;
  }

  lemma SendsPriced(input: Input)
    ensures Sends(input) ==> input.marketPrice > EPS
  {
  }

  lemma AverageCostIs(p: Position, added: real, price: real)
    requires p.quantity > 0.0 && added > EPS
    ensures AverageCost(p, added, price) * (p.quantity + added) == p.quantity * p.avgPrice + added * price
  {
    DivCancels(p.quantity * p.avgPrice + added * price, p.quantity + added);
  }

  /** Where every pass ends: the old position less what was closed, flat at dust; then the opening fill alone at the
      market price when the side changes, or added at a cost that keeps the money spent. */
  lemma PassEnds(input: Input)
    ensures var out, p, price := Reconcile(input), Held(input), input.marketPrice;
            var closing, opening := ToClose(input) * Filling(input), ToOpen(input) * Filling(input);
            if !Sends(input) || (closing <= EPS && opening <= EPS) then out.final == p
            else if opening <= EPS then
              out.final == if p.quantity - closing <= EPS then Position(Flat, 0.0, 0.0)
                           else Position(p.side, p.quantity - closing, p.avgPrice)
            else if p.side != input.targetSide then out.final == Position(input.targetSide, opening, price)
            else out.final.side == p.side && out.final.quantity == p.quantity + opening
                 && out.final.avgPrice * out.final.quantity == p.quantity * p.avgPrice + opening * price
  {
    hide Reconcile, ClosingRecord, OpeningRecord, AverageCost, Filling, ToClose, ToOpen;
    if Sends(input) {
      PassDoes(input);
      if Opened(input) > EPS && Held(input).side == input.targetSide {
        OpeningNeedsSide(input);
        AverageCostIs(Held(input), Opened(input), input.marketPrice);
      }
    } else {
      SilentPass(input);
    }
  }

  lemma OpeningNeedsSide(input: Input)
    requires Opened(input) > EPS && Held(input).side == input.targetSide
    ensures Held(input).quantity > EPS
  {
    hide Aim, Filling;
    ProductOfZero(Filling(input));
  }

  /** The open profit shown is the final position's gain over its cost, and nothing without a price. */
  lemma PassShows(input: Input)
    ensures var out := Reconcile(input);
            out.unrealized
              == if input.marketPrice > EPS
                 then Gain(out.final.side, out.final.avgPrice, input.marketPrice) * out.final.quantity else 0.0
  {
    hide Settle, BuildLegs, TargetQuantity;
  }

  /** Exactly when a pass reports each status. */
  lemma StatusIff(input: Input)
    ensures var out, p, sends := Reconcile(input), Held(input), Sends(input);
            var idle := if input.targetSide == Flat then p.side == Flat
                        else p.side == input.targetSide && Abs(p.quantity - Aim(input)) <= EPS;
            var short := ToClose(input) - Closed(input) > EPS || ToOpen(input) - Opened(input) > EPS;
            && (out.status == Blocked <==> input.marketPrice <= EPS)
            && (out.status == IncidentRaised <==> out.incident.Some?)
            && (out.status == Noop <==> sends && idle)
            && (out.status == Submitted <==> sends && !idle && short)
            && (out.status == Reconciled <==> sends && !idle && !short)
  {
    hide Settle, Aim, TargetQuantity, UnrealizedPnl, Product, ToClose, ToOpen;
    HeldIs(input);
    AimIs(input);
    if Sends(input) {
      SendsIs(input);
      LegsAre(input);
      ShortIff(input);
    }
  }

  /** Some leg is filled short by more than EPS. */
  lemma ShortIff(input: Input)
    requires Trades(input)
    ensures var legs := BuildLegs(Held(input), input.targetSide, Aim(input));
            Settle(Held(input), legs, Fraction(input), Price(input)).partial
            <==> ToClose(input) - Closed(input) > EPS || ToOpen(input) - Opened(input) > EPS
  {
    hide Aim, Settle, Filling, Portion, Product, FillFor, Applied, Fraction;
    AimIs(input);
    LegsAre(input);
    ProductOfZero(Filling(input));
    var p, f, price := Held(input), Fraction(input), Price(input);
    var legs := BuildLegs(p, input.targetSide, Aim(input));
    PortionIs(ToClose(input), input);
    PortionIs(ToOpen(input), input);
    if legs == [] {
      SettleNone(p, f, price);
    } else if |legs| == 1 {
      SettleOne(p, legs[0], f, price);
    } else {
      assert legs == [legs[0], legs[1]];
      SettleTwo(p, legs[0], legs[1], f, price);
    }
  }

  lemma SettleNone(p: Position, f: real, price: real)
    ensures !Settle(p, [], f, price).partial
  {
  }
}
