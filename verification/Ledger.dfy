/** The manual-fill ledger: entries, resizes and closing exits of positions, with the exposure and profit
    rules of the execution helpers. */
module Ledger {
  import opened Numeric
  import opened Wrappers

  // ---------- exposure and profit of one fill ----------

  datatype Exposure = Exposure(deltaNotional: real, premiumAtRisk: real, multiplier: real)

  function ContractMultiplier(instrument: string): (m: real)
    ensures m > 0.0
  {
    if instrument in {"leaps", "options"} then 100.0 else 1.0
  }

  predicate AllowedSide(side: string) {
    side in {"long", "short", "call", "put", "hedge"}
  }

  predicate AllowedInstrument(instrument: string) {
    instrument in {"equity", "leaps", "options"}
  }

  predicate OptionLike(side: string, instrument: string) {
    instrument in {"leaps", "options"} || side in {"call", "put", "hedge"}
  }

  function DefaultExposure(side: string, instrument: string, qty: real, price: real,
                           delta: Option<real>, premium: Option<real>): Exposure {
    var multiplier := ContractMultiplier(instrument);
    var gross := Abs(qty) * Abs(price) * multiplier;
    var optionLike := OptionLike(side, instrument);
    Exposure(GetOr(delta, if optionLike then 0.0 else gross), GetOr(premium, if optionLike then gross else 0.0),
             multiplier)
  }

  function RealizedPnl(side: string, qty: real, avgPrice: real, exitPrice: real, fees: real, multiplier: real): real {
    (if side == "short" then (avgPrice - exitPrice) * Abs(qty) * multiplier
     else (exitPrice - avgPrice) * Abs(qty) * multiplier)
    - Max(fees, 0.0)
  }

  // ---------- tables ----------

  datatype Action = Enter | Resize | Exit

  datatype ThesisState = Actionable | PositionOpen | Exiting | OtherState

  datatype PositionRow = PositionRow(
    thesis: int, side: string, instrument: string, qty: real, avgPrice: real, delta: real, premium: real,
    openedAt: int, realized: Option<real>)

  datatype FillRow = FillRow(position: int, action: Action, qty: real, price: real, fees: real, overridden: bool)

  datatype ManualFill = ManualFill(
    action: Action, thesis: int, thesisState: ThesisState, position: Option<int>, side: string, instrument: string,
    qty: real, price: real, fees: Option<real>, at: int, delta: Option<real>, premium: Option<real>)

  datatype Book = Book(positions: seq<PositionRow>, fills: seq<FillRow>)

  datatype Error = InvalidQty | InvalidPrice | InvalidFees | WrongState | InvalidSide | InvalidInstrument
                 | NoOpenPosition | Mismatch | PartialExit

  /** The machine epsilon of a 64-bit float, 2 to the power -52. */
  const FLOAT_EPSILON := 1.0 / 4503599627370496.0

  predicate IsOpen(p: PositionRow) {
    p.realized.None?
  }

  function Validate(f: ManualFill): Option<Error> {
    if f.qty <= 0.0 then Some(InvalidQty)
    else if f.price <= 0.0 then Some(InvalidPrice)
    else if GetOr(f.fees, 0.0) < 0.0 then Some(InvalidFees)
    else if !(match f.action
              case Enter => f.thesisState == Actionable
              case Resize => f.thesisState == PositionOpen
              case Exit => f.thesisState in {PositionOpen, Exiting}) then Some(WrongState)
    else if !AllowedSide(f.side) then Some(InvalidSide)
    else if !AllowedInstrument(f.instrument) then Some(InvalidInstrument)
    else None
  }

  predicate OpenFor(p: PositionRow, thesis: int) {
    p.thesis == thesis && IsOpen(p)
  }

  /** The thesis's most recently opened open position. */
  function LatestOpen(positions: seq<PositionRow>, thesis: int): (i: int)
    ensures -1 <= i < |positions|
    ensures i >= 0 ==> OpenFor(positions[i], thesis)
                       && forall k | 0 <= k < |positions| && OpenFor(positions[k], thesis) ::
                            positions[k].openedAt <= positions[i].openedAt
    ensures i == -1 ==> forall k | 0 <= k < |positions| :: !OpenFor(positions[k], thesis)
  {
    if positions == [] then -1
    else
      var last := |positions| - 1;
      var earlier := LatestOpen(positions[..last], thesis);
      if OpenFor(positions[last], thesis)
         && (earlier == -1 || positions[earlier].openedAt < positions[last].openedAt) then last
      else earlier
  }

  /** The position a resize or exit applies to. */
  function Selected(positions: seq<PositionRow>, f: ManualFill): (i: int)
    ensures -1 <= i < |positions|
    ensures i >= 0 ==> OpenFor(positions[i], f.thesis)
  {
    match f.position
    case Some(id) => if 0 <= id < |positions| && OpenFor(positions[id], f.thesis) then id else -1
    case None => LatestOpen(positions, f.thesis)
  }

  function ExposureOf(f: ManualFill): Exposure {
    DefaultExposure(f.side, f.instrument, f.qty, f.price, f.delta, f.premium)
  }

  function FillOf(f: ManualFill, position: int): FillRow {
    FillRow(position, f.action, f.qty, f.price, GetOr(f.fees, 0.0), f.delta.Some? || f.premium.Some?)
  }

  function Opened(f: ManualFill): PositionRow {
    var e := ExposureOf(f);
    PositionRow(f.thesis, f.side, f.instrument, f.qty, f.price, e.deltaNotional, e.premiumAtRisk, f.at, None)
  }

  function Resized(p: PositionRow, f: ManualFill): PositionRow
    requires p.qty + f.qty != 0.0
  {
    var e, qty := ExposureOf(f), p.qty + f.qty;
    p.(qty := qty, avgPrice := (p.qty * p.avgPrice + f.qty * f.price) / qty,
       delta := p.delta + e.deltaNotional, premium := p.premium + e.premiumAtRisk)
  }

  function ExitedFor(p: PositionRow, f: ManualFill): PositionRow {
    p.(realized := Some(RealizedPnl(p.side, p.qty, p.avgPrice, f.price, GetOr(f.fees, 0.0),
                                    ContractMultiplier(p.instrument))))
  }

  /** Recording one manual fill; a rejected one leaves the book alone. */
  function Record(b: Book, f: ManualFill): Result<Book, Error>
    requires forall p <- b.positions :: p.qty > 0.0
  {
    if Validate(f).Some? then Err(Validate(f).value)
    else if f.action == Enter then
      Ok(Book(b.positions + [Opened(f)], b.fills + [FillOf(f, |b.positions|)]))
    else
      var i := Selected(b.positions, f);
      if i == -1 then Err(NoOpenPosition)
      else
        var p := b.positions[i];
        if f.side != p.side || f.instrument != p.instrument then Err(Mismatch)
        else if f.action == Resize then
          Ok(Book(b.positions[i := Resized(p, f)], b.fills + [FillOf(f, i)]))
        else if f.qty + FLOAT_EPSILON < p.qty then Err(PartialExit)
        else Ok(Book(b.positions[i := ExitedFor(p, f)], b.fills + [FillOf(f, i)]))
  }

  class PositionLedger {
    var positions: seq<PositionRow>
    var fills: seq<FillRow>

    ghost function State(): Book
      reads this
    {
      Book(positions, fills)
    }

    constructor ()
      ensures State() == Book([], [])
    {
      positions, fills := [], [];
    }

    method RecordFill(f: ManualFill) returns (error: Option<Error>)
      requires forall p <- positions :: p.qty > 0.0
      modifies this
      ensures match Record(old(State()), f)
              case Ok(next) => error.None? && State() == next
              case Err(e) => error == Some(e) && State() == old(State())
    {
      error := Validate(f);
      if error.Some? {
        return;
      }
      var position := |positions|;
      if f.action == Enter {
        positions := positions + [Opened(f)];
      } else {
        position := Selected(positions, f);
        if position == -1 {
          return Some(NoOpenPosition);
        }
        var p := positions[position];
        if f.side != p.side || f.instrument != p.instrument {
          return Some(Mismatch);
        }
        if f.action == Resize {
          positions := positions[position := Resized(p, f)];
        } else {
          if f.qty + FLOAT_EPSILON < p.qty {
            return Some(PartialExit);
          }
          positions := positions[position := ExitedFor(p, f)];
        }
      }
      fills := fills + [FillOf(f, position)];
    }
  }
}
