/** What recording a manual fill does, from the fill's own fields and the position it applies to. */
module LedgerRules {
  import opened Numeric
  import opened Wrappers
  import opened Ledger

  // ---------- which fills are refused ----------

  predicate GoodNumbers(f: ManualFill) {
    f.qty > 0.0 && f.price > 0.0 && (f.fees.Some? ==> f.fees.value >= 0.0)
  }

  /** The thesis is in a state for the action. */
  predicate StateAllows(f: ManualFill) {
    || (f.action == Enter && f.thesisState == Actionable)
    || (f.action == Resize && f.thesisState == PositionOpen)
    || (f.action == Exit && (f.thesisState == PositionOpen || f.thesisState == Exiting))
  }

  predicate KnownSide(side: string) {
    side == "long" || side == "short" || side == "call" || side == "put" || side == "hedge"
  }

  predicate KnownInstrument(instrument: string) {
    instrument == "equity" || instrument == "leaps" || instrument == "options"
  }

  predicate Valid(f: ManualFill) {
    GoodNumbers(f) && StateAllows(f) && KnownSide(f.side) && KnownInstrument(f.instrument)
  }

  /** The open position of the fill's thesis that it applies to: the one it names, or else one opened last. */
  predicate Applies(positions: seq<PositionRow>, f: ManualFill, i: int) {
    && 0 <= i < |positions| && positions[i].thesis == f.thesis && positions[i].realized.None?
    && match f.position
       case Some(id) => i == id
       case None =>
         forall k | 0 <= k < |positions| && positions[k].thesis == f.thesis && positions[k].realized.None? ::
           positions[k].openedAt <= positions[i].openedAt
  }

  lemma SelectedApplies(positions: seq<PositionRow>, f: ManualFill)
    ensures var i := Selected(positions, f);
            if i >= 0 then Applies(positions, f, i) else forall k :: !Applies(positions, f, k)
  {
    forall k ensures Applies(positions, f, k) ==> OpenFor(positions[k], f.thesis) {}
  }

  /** Exactly when a fill is refused for its own fields, and with which error: the first that is wrong. */
  lemma InvalidIff(b: Book, f: ManualFill)
    requires forall p <- b.positions :: p.qty > 0.0
    ensures var r := Record(b, f);
            && (r == Err(InvalidQty) <==> f.qty <= 0.0)
            && (r == Err(InvalidPrice) <==> f.qty > 0.0 && f.price <= 0.0)
            && (r == Err(InvalidFees) <==> f.qty > 0.0 && f.price > 0.0 && !GoodNumbers(f))
            && (r == Err(WrongState) <==> GoodNumbers(f) && !StateAllows(f))
            && (r == Err(InvalidSide) <==> GoodNumbers(f) && StateAllows(f) && !KnownSide(f.side))
            && (r == Err(InvalidInstrument)
                <==> GoodNumbers(f) && StateAllows(f) && KnownSide(f.side) && !KnownInstrument(f.instrument))
  {
    hide Opened, Resized, ExitedFor, FillOf, LatestOpen;
  }

  /** Exactly when a valid resize or exit is refused for the position it applies to; an exit may fall short of it by the
      rounding of a float. */
  lemma RefusedIff(b: Book, f: ManualFill)
    requires (forall p <- b.positions :: p.qty > 0.0) && Valid(f)
    ensures var r, i := Record(b, f), Selected(b.positions, f);
            && (r == Err(NoOpenPosition) <==> f.action != Enter && forall k :: !Applies(b.positions, f, k))
            && (r == Err(Mismatch) <==>
                  f.action != Enter && Applies(b.positions, f, i)
                  && (b.positions[i].side != f.side || b.positions[i].instrument != f.instrument))
            && (r == Err(PartialExit) <==>
                  f.action == Exit && Applies(b.positions, f, i)
                  && b.positions[i].side == f.side && b.positions[i].instrument == f.instrument
                  && b.positions[i].qty - f.qty > 1.0 / 4503599627370496.0)
  {
    hide Opened, Resized, ExitedFor, FillOf, LatestOpen, Applies;
    SelectedApplies(b.positions, f);
  }

  // ---------- exposure ----------

  /** An option contract is for a hundred shares. */
  function PerContract(instrument: string): real {
    if instrument == "leaps" || instrument == "options" then 100.0 else 1.0
  }

  /** What is at stake is a premium: the instrument is an option, or the side is one. */
  predicate PaysPremium(side: string, instrument: string) {
    instrument == "leaps" || instrument == "options" || side == "call" || side == "put" || side == "hedge"
  }

  /** Directional exposure of a fill: as stated, or its whole worth unless a premium is paid. */
  function DirectionalOf(f: ManualFill): real {
    if f.delta.Some? then f.delta.value
    else if PaysPremium(f.side, f.instrument) then 0.0
    else f.qty * f.price * PerContract(f.instrument)
  }

  /** Premium at risk of a fill: as stated, or its whole worth when a premium is paid. */
  function PremiumOf(f: ManualFill): real {
    if f.premium.Some? then f.premium.value
    else if PaysPremium(f.side, f.instrument) then f.qty * f.price * PerContract(f.instrument)
    else 0.0
  }

  lemma ExposureIs(f: ManualFill)
    requires f.qty > 0.0 && f.price > 0.0
    ensures ExposureOf(f).deltaNotional == DirectionalOf(f) && ExposureOf(f).premiumAtRisk == PremiumOf(f)
  {
    assert Abs(f.qty) == f.qty && Abs(f.price) == f.price;
    assert ContractMultiplier(f.instrument) == PerContract(f.instrument);
  }

  /** The record of a fill, for the position at an index. */
  function RecordOf(f: ManualFill, i: int): FillRow {
    FillRow(i, f.action, f.qty, f.price, if f.fees.Some? then f.fees.value else 0.0, f.delta.Some? || f.premium.Some?)
  }

  // ---------- accepted fills ----------

  /** A valid entry opens a position as stated, with its exposure, and records the fill. */
  lemma EnterRecords(b: Book, f: ManualFill)
    requires (forall p <- b.positions :: p.qty > 0.0) && Valid(f) && f.action == Enter
    ensures Record(b, f)
         == Ok(Book(b.positions + [PositionRow(f.thesis, f.side, f.instrument, f.qty, f.price, DirectionalOf(f),
                                               PremiumOf(f), f.at, None)],
                    b.fills + [RecordOf(f, |b.positions|)]))
  {
    hide ExposureOf, DirectionalOf, PremiumOf;
    InvalidIff(b, f);
    ExposureIs(f);
  }

  /** An accepted resize adds the fill's shares at what they cost, and its exposures, to the position it applies to,
      and changes nothing else of it. */
  lemma ResizeRecords(b: Book, f: ManualFill)
    requires (forall p <- b.positions :: p.qty > 0.0) && Valid(f) && f.action == Resize && Record(b, f).Ok?
    ensures var next, i := Record(b, f).value, Selected(b.positions, f);
            && Applies(b.positions, f, i)
            && next.fills == b.fills + [RecordOf(f, i)]
            && |next.positions| == |b.positions|
            && (forall k | 0 <= k < |b.positions| && k != i :: next.positions[k] == b.positions[k])
            && var p, q := b.positions[i], next.positions[i];
               && q.qty == p.qty + f.qty && q.avgPrice * q.qty == p.qty * p.avgPrice + f.qty * f.price
               && q.delta == p.delta + DirectionalOf(f) && q.premium == p.premium + PremiumOf(f)
               && q == p.(qty := q.qty, avgPrice := q.avgPrice, delta := q.delta, premium := q.premium)
  {
    hide ExposureOf, DirectionalOf, PremiumOf, Applies, LatestOpen;
    InvalidIff(b, f);
    RefusedIff(b, f);
    SelectedApplies(b.positions, f);
    ExposureIs(f);
    var p := b.positions[Selected(b.positions, f)];
    assert p in b.positions;
    DivCancels(p.qty * p.avgPrice + f.qty * f.price, p.qty + f.qty);
  }

  /** An accepted exit realizes the gain over cost on everything held, for every contract's shares, less its fees, and
      changes nothing else of the position. */
  lemma ExitRecords(b: Book, f: ManualFill)
    requires (forall p <- b.positions :: p.qty > 0.0) && Valid(f) && f.action == Exit && Record(b, f).Ok?
    ensures var next, i := Record(b, f).value, Selected(b.positions, f);
            && Applies(b.positions, f, i)
            && next.fills == b.fills + [RecordOf(f, i)]
            && |next.positions| == |b.positions|
            && (forall k | 0 <= k < |b.positions| && k != i :: next.positions[k] == b.positions[k])
            && var p, q := b.positions[i], next.positions[i];
               && q.realized.Some?
               && q == p.(realized := q.realized)
               && q.realized.value
                  == (if p.side == "short" then (p.avgPrice - f.price) * p.qty * PerContract(p.instrument)
                      else (f.price - p.avgPrice) * p.qty * PerContract(p.instrument))
                     - if f.fees.Some? then f.fees.value else 0.0
  {
    hide Applies, LatestOpen;
    InvalidIff(b, f);
    RefusedIff(b, f);
    SelectedApplies(b.positions, f);
    var p := b.positions[Selected(b.positions, f)];
    assert p in b.positions && Abs(p.qty) == p.qty;
    assert ContractMultiplier(p.instrument) == PerContract(p.instrument);
  }
}
