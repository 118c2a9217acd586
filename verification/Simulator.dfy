/** The digital broker: one reconciliation pass turns a target exposure into order legs,
    fills a fraction of each leg, and moves a weighted-average-cost position. */
module Simulator {
  import opened Numeric
  import opened Wrappers

  datatype Side = Flat | Long | Short

  datatype Position = Position(side: Side, quantity: real, avgPrice: real)

  datatype LegKind = Enter | Increase | Reduce | Exit

  datatype Leg = Leg(side: Side, quantity: real, kind: LegKind)

  datatype Fill = Fill(side: Side, quantity: real, price: real, notional: real, realized: real, kind: LegKind)

  datatype Fault = NoFault | Reject | Disconnect | StaleSnapshot | UnknownOrderStatus

  datatype Config = Config(
    fillFraction: real, fault: Fault, maxSnapshotAge: int, lastSeenAt: Option<int>, priorRejects: nat)

  datatype Input = Input(
    targetSide: Side, targetNotional: real, marketPrice: real, current: Position, now: int, config: Config)

  datatype Incident = StaleBrokerData | OrderRejected | RepeatedOrderReject | BrokerDisconnect | UnknownStatus

  datatype Status = Noop | Submitted | Reconciled | IncidentRaised | Blocked

  datatype Outcome = Outcome(
    status: Status, fills: seq<Fill>, final: Position, realized: real, unrealized: real, incident: Option<Incident>)

  const FLAT_POSITION := Position(Flat, 0.0, 0.0)

  /** Default simulation settings: every leg fills completely and nothing goes wrong. */
  const DEFAULT_CONFIG := Config(1.0, NoFault, 120, None, 0)

  predicate WellFormed(p: Position) {
    p == FLAT_POSITION || (p.side != Flat && p.quantity > EPS && p.avgPrice > EPS)
  }

  function Direction(side: Side): real {
    match side
    case Long => 1.0
    case Short => -1.0
    case Flat => 0.0
  }

  function SignedQuantity(p: Position): real {
    match p.side
    case Long => p.quantity
    case Short => -p.quantity
    case Flat => 0.0
  }

  function RealizedPnl(side: Side, quantity: real, avgPrice: real, fillPrice: real): real {
    match side
    case Long => (fillPrice - avgPrice) * quantity
    case Short => (avgPrice - fillPrice) * quantity
    case Flat => 0.0
  }

  function UnrealizedPnl(p: Position, price: real): real {
    match p.side
    case Long => (price - p.avgPrice) * p.quantity
    case Short => (p.avgPrice - price) * p.quantity
    case Flat => 0.0
  }

  function Normalize(p: Position): (r: Position)
    ensures WellFormed(r)
    ensures WellFormed(p) ==> r == p
  {
    if p.side == Flat || p.quantity <= EPS || p.avgPrice <= EPS then FLAT_POSITION else p
  }

  function Price(input: Input): real {
    Max(input.marketPrice, 0.0)
  }

  function TargetQuantity(input: Input): (q: real)
    ensures q >= 0.0
    ensures input.targetSide == Flat ==> q == 0.0
  {
    if input.targetSide == Flat || Price(input) <= EPS then 0.0
    else Max(input.targetNotional, 0.0) / Price(input)
  }

  function IncidentOf(input: Input): Option<Incident> {
    if input.config.lastSeenAt.Some?
       && input.now - input.config.lastSeenAt.value
          > (if input.config.maxSnapshotAge < 0 then 0 else input.config.maxSnapshotAge)
    then Some(StaleBrokerData)
    else match input.config.fault
      case NoFault => None
      case StaleSnapshot => Some(StaleBrokerData)
      case Reject => Some(if input.config.priorRejects > 0 then RepeatedOrderReject else OrderRejected)
      case Disconnect => Some(BrokerDisconnect)
      case UnknownOrderStatus => Some(UnknownStatus)
  }

  function BuildLegs(current: Position, targetSide: Side, targetQuantity: real): seq<Leg> {
    var target := Max(targetQuantity, 0.0);
    if targetSide == Flat then
      if current.side == Flat then [] else [Leg(current.side, current.quantity, Exit)]
    else if current.side == Flat then
      [Leg(targetSide, target, Enter)]
    else if current.side == targetSide then
      if Abs(current.quantity - target) <= EPS then []
      else if target > current.quantity then [Leg(targetSide, target - current.quantity, Increase)]
      else [Leg(targetSide, current.quantity - target, Reduce)]
    else
      [Leg(current.side, current.quantity, Exit), Leg(targetSide, target, Enter)]
  }

  /** Average cost per share after adding `filled` shares at `price`. */
  function AverageCost(p: Position, filled: real, price: real): real {
    var total := p.quantity + filled;
    if total <= EPS then 0.0 else (p.quantity * p.avgPrice + filled * price) / total
  }

  /** The position a leg leaves behind when `quantity` of it fills at `price`. */
  function Applied(p: Position, leg: Leg, quantity: real, price: real): Position {
    var filled := Max(quantity, 0.0);
    match leg.kind
    case Enter => Position(leg.side, filled, price)
    case Increase =>
      if p.side != leg.side then p
      else Position(p.side, p.quantity + filled, AverageCost(p, filled, price))
    case _ =>
      if p.side != leg.side then p
      else
        var remaining := Max(p.quantity - Min(filled, p.quantity), 0.0);
        if remaining <= EPS then FLAT_POSITION else p.(quantity := remaining)
  }

  /** The fill record of the same leg, with the profit the closing kinds realize. */
  function FillFor(p: Position, leg: Leg, quantity: real, price: real): Fill {
    var filled := Max(quantity, 0.0);
    var realized :=
      if (leg.kind == Reduce || leg.kind == Exit) && p.side == leg.side
      then RealizedPnl(p.side, Min(filled, p.quantity), p.avgPrice, price)
      else 0.0;
    Fill(leg.side, filled, price, filled * price, realized, leg.kind)
  }

  datatype Settlement = Settlement(position: Position, fills: seq<Fill>, realized: real, partial: bool)

  /** Filling `quantity` of one leg; a fill of at most EPS is not sent. */
  function FillAmount(s: Settlement, leg: Leg, quantity: real, price: real): Settlement {
    var partial := s.partial || quantity + EPS < leg.quantity;
    if quantity > EPS then
      var fill := FillFor(s.position, leg, quantity, price);
      Settlement(Applied(s.position, leg, quantity, price), s.fills + [fill], s.realized + fill.realized, partial)
    else
      s.(partial := partial)
  }

  /** The part of an order's quantity that a fill fraction covers. */
  function Portion(quantity: real, fraction: real): real {
    quantity * fraction
  }

  function FillLeg(s: Settlement, leg: Leg, fraction: real, price: real): Settlement {
    FillAmount(s, leg, Portion(leg.quantity, fraction), price)
  }

  /** What filling `fraction` of every leg, in order, does to a position. */
  function Settle(start: Position, legs: seq<Leg>, fraction: real, price: real): Settlement {
    if legs == [] then Settlement(start, [], 0.0, false)
    else FillLeg(Settle(start, legs[..|legs| - 1], fraction, price), legs[|legs| - 1], fraction, price)
  }

  /** One reconciliation pass as a function of its input. */
  function Reconcile(input: Input): Outcome {
    var price := Price(input);
    var current := Normalize(input.current);
    if price <= EPS then
      Outcome(Blocked, [], current, 0.0, 0.0, None)
    else if IncidentOf(input).Some? then
      Outcome(IncidentRaised, [], current, 0.0, UnrealizedPnl(current, input.marketPrice), IncidentOf(input))
    else
      var legs := BuildLegs(current, input.targetSide, TargetQuantity(input));
      if legs == [] then
        Outcome(Noop, [], current, 0.0, UnrealizedPnl(current, price), None)
      else
        var s := Settle(current, legs, Clamp(input.config.fillFraction, 0.0, 1.0), price);
        Outcome(if s.partial then Submitted else Reconciled, s.fills, s.position, s.realized,
                UnrealizedPnl(s.position, price), None)
  }

  /** The broker's mutable position and tallies while the legs of one pass are being filled. */
  class DigitalBroker {
    var position: Position
    var fills: seq<Fill>
    var realized: real
    var anyPartial: bool

    constructor (start: Position)
      ensures State() == Settlement(start, [], 0.0, false)
    {
      position, fills, realized, anyPartial := start, [], 0.0, false;
    }

    ghost function State(): Settlement
      reads this
    {
      Settlement(position, fills, realized, anyPartial)
    }

    method ApplyLeg(leg: Leg, quantity: real, price: real) returns (fill: Fill)
      modifies this`position
      ensures position == Applied(old(position), leg, quantity, price)
      ensures fill == FillFor(old(position), leg, quantity, price)
    {
      hide AverageCost, RealizedPnl;
      var filled := Max(quantity, 0.0);
      var realizedDelta := 0.0;
      match leg.kind {
        case Enter =>
          position := Position(leg.side, filled, price);
        case Increase =>
          if position.side == leg.side {
            var avg := AverageCost(position, filled, price);
            position := position.(quantity := position.quantity + filled, avgPrice := avg);
          }
        case Reduce | Exit =>
          if position.side == leg.side {
            var closed := Min(filled, position.quantity);
            realizedDelta := RealizedPnl(position.side, closed, position.avgPrice, price);
            var remaining := Max(position.quantity - closed, 0.0);
            if remaining <= EPS {
              position := FLAT_POSITION;
            } else {
              position := position.(quantity := remaining);
            }
          }
      }
      fill := Fill(leg.side, filled, price, filled * price, realizedDelta, leg.kind);
    }

    method FillOne(leg: Leg, fraction: real, price: real)
      modifies this
      ensures State() == FillLeg(old(State()), leg, fraction, price)
    {
      var quantity := Portion(leg.quantity, fraction);
      anyPartial := anyPartial || quantity + EPS < leg.quantity;
      if quantity > EPS {
        var fill := ApplyLeg(leg, quantity, price);
        realized := realized + fill.realized;
        fills := fills + [fill];
      }
    }

    method FillAll(legs: seq<Leg>, fraction: real, price: real)
      requires State() == Settlement(position, [], 0.0, false)
      modifies this
      ensures State() == Settle(old(position), legs, fraction, price)
    {
      for idx := 0 to |legs|
        invariant State() == Settle(old(position), legs[..idx], fraction, price)
      {
        SettleNext(old(position), legs, idx, fraction, price);
        FillOne(legs[idx], fraction, price);
      }
      assert legs[..|legs|] == legs;
    }
  }

  lemma SettleNext(start: Position, legs: seq<Leg>, idx: nat, fraction: real, price: real)
    requires idx < |legs|
    ensures Settle(start, legs[..idx + 1], fraction, price)
         == FillLeg(Settle(start, legs[..idx], fraction, price), legs[idx], fraction, price)
  {
    assert legs[..idx + 1][..idx] == legs[..idx];
  }

  method ReconcileSimulated(input: Input) returns (outcome: Outcome)
    ensures outcome == Reconcile(input)
  {
    var price := Max(input.marketPrice, 0.0);
    var current := Normalize(input.current);
    if price <= EPS {
      return Outcome(Blocked, [], current, 0.0, 0.0, None);
    }
    var incident := IncidentOf(input);
    if incident.Some? {
      return Outcome(IncidentRaised, [], current, 0.0, UnrealizedPnl(current, input.marketPrice), incident);
    }
    var legs := BuildLegs(current, input.targetSide, TargetQuantity(input));
    if legs == [] {
      return Outcome(Noop, [], current, 0.0, UnrealizedPnl(current, price), None);
    }
    var broker := new DigitalBroker(current);
    broker.FillAll(legs, Clamp(input.config.fillFraction, 0.0, 1.0), price);
    outcome := Outcome(if broker.anyPartial then Submitted else Reconciled, broker.fills, broker.position,
                       broker.realized, UnrealizedPnl(broker.position, price), None);
  }
}
