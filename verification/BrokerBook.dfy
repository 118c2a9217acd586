/** The digital broker's own position table: one open row per symbol and side, shared by every sleeve that trades
    there, and what the fills of one reconciliation do to it. */
module BrokerBook {
  import opened Numeric
  import opened Simulator
  import opened SimulatorPass
  import opened SimulatorRuns
  import opened Sleeve

  /** Open quantity by symbol and side, and how many fills found no open row to close. */
  datatype Book = Book(rows: map<(string, Side), real>, missing: nat)

  const EMPTY_BOOK := Book(map[], 0)

  predicate IsEntry(fill: Fill) {
    fill.kind == Enter || fill.kind == Increase
  }

  function RowQty(b: Book, symbol: string, side: Side): real {
    if (symbol, side) in b.rows then b.rows[(symbol, side)] else 0.0
  }

  /** An entry adds to the row, opening it; a close takes from it, and closes it when dust is left. */
  function BookFill(b: Book, symbol: string, fill: Fill): Book {
    var key := (symbol, fill.side);
    if IsEntry(fill) then b.(rows := b.rows[key := RowQty(b, symbol, fill.side) + fill.quantity])
    else if key !in b.rows then b.(missing := b.missing + 1)
    else
      var remaining := Max(b.rows[key] - fill.quantity, 0.0);
      b.(rows := if remaining > EPS then b.rows[key := remaining] else b.rows - {key})
  }

  function BookFills(b: Book, symbol: string, fills: seq<Fill>): Book {
    if fills == [] then b else BookFill(BookFills(b, symbol, fills[..|fills| - 1]), symbol, fills[|fills| - 1])
  }

  lemma BookNone(b: Book, symbol: string)
    ensures BookFills(b, symbol, []) == b
  {
  }

  lemma BookNext(b: Book, symbol: string, fills: seq<Fill>, fill: Fill)
    ensures BookFills(b, symbol, fills + [fill]) == BookFill(BookFills(b, symbol, fills), symbol, fill)
  {
    assert (fills + [fill])[..|fills|] == fills;
  }

  /** No row is open with dust. */
  predicate RowsOpen(b: Book) {
    forall key <- b.rows :: b.rows[key] > EPS
  }

  /** Shares a position has on one side. */
  function OnSide(p: Position, side: Side): real {
    if p.side == side && side != Flat then p.quantity else 0.0
  }

  predicate SoundTotal(total: real) {
    total == 0.0 || total > EPS
  }

  /** What one fill does to the row of one side: it moves with the filled sleeve's own shares, `others` being those
      of the other sleeves there. Dust the sleeve drops stays in the row until the row itself closes. */
  predicate Tracks(b: Book, next: Book, symbol: string, side: Side, others: real, p: Position, after: Position,
                   shed: real) {
    && RowQty(next, symbol, side) >= others + OnSide(after, side)
    && RowQty(next, symbol, side) - others - OnSide(after, side)
       <= RowQty(b, symbol, side) - others - OnSide(p, side) + shed
  }

  lemma EntryTracks(b: Book, symbol: string, fill: Fill, side: Side, others: real, p: Position, after: Position)
    requires RowsOpen(b) && IsEntry(fill) && fill.quantity > EPS && others >= 0.0
    requires RowQty(b, symbol, side) >= others + OnSide(p, side)
    requires OnSide(after, side) == OnSide(p, side) + if fill.side == side && side != Flat then fill.quantity else 0.0
    requires fill.side != Flat
    ensures var next := BookFill(b, symbol, fill);
            RowsOpen(next) && next.missing == b.missing && Tracks(b, next, symbol, side, others, p, after, 0.0)
  {
  }

  lemma CloseTracks(b: Book, symbol: string, fill: Fill, side: Side, others: real, p: Position, after: Position)
    requires RowsOpen(b) && !IsEntry(fill) && fill.side == p.side && p.side != Flat
    requires EPS < fill.quantity <= p.quantity && SoundTotal(others)
    requires RowQty(b, symbol, p.side) >= p.quantity
    requires RowQty(b, symbol, side) >= others + OnSide(p, side)
    requires after == if p.quantity - fill.quantity <= EPS then FLAT_POSITION
                      else p.(quantity := p.quantity - fill.quantity)
    ensures var next := BookFill(b, symbol, fill);
            RowsOpen(next) && next.missing == b.missing && Tracks(b, next, symbol, side, others, p, after, EPS)
  {
  }

  /** Rows of other symbols are not touched. */
  lemma {:induction false} OtherSymbolsKept(b: Book, symbol: string, fills: seq<Fill>, other: string, side: Side)
    requires other != symbol
    ensures RowQty(BookFills(b, symbol, fills), other, side) == RowQty(b, other, side)
  {
    if fills != [] {
      OtherSymbolsKept(b, symbol, fills[..|fills| - 1], other, side);
    }
  }

  // ---------- one reconciliation with the store's settings ----------

  /** What a pass sends: nothing, one leg, or an exit and then an enter. */
  lemma OneLegFills(c: Position, o: Order, leg: Leg)
    requires WellFormed(c) && o.config == DEFAULT_CONFIG && o.marketPrice > EPS
    requires BuildLegs(c, o.targetSide, Wanted(c, o)) == [leg]
    ensures var out := Reconcile(PassInput(c, o));
            if leg.quantity > EPS
            then out.fills == [FillFor(c, leg, leg.quantity, Mark(o))]
                 && out.final == Applied(c, leg, leg.quantity, Mark(o))
            else out.fills == [] && out.final == c
  {
    hide TargetQuantity, Reconcile, Applied, FillFor;
    OneLegPass(PassInput(c, o), leg);
    WholePortion(leg.quantity);
    PricedIsTrading(c, o);
  }

  lemma FlipFills(c: Position, o: Order)
    requires WellFormed(c) && o.config == DEFAULT_CONFIG && o.marketPrice > EPS && Flips(PassInput(c, o))
    ensures var exit, enter := Leg(c.side, c.quantity, Exit), Leg(o.targetSide, Wanted(c, o), Enter);
            var out := Reconcile(PassInput(c, o));
            if enter.quantity > EPS
            then out.fills
                 == [FillFor(c, exit, c.quantity, Mark(o)), FillFor(FLAT_POSITION, enter, enter.quantity, Mark(o))]
                 && out.final == Position(o.targetSide, Wanted(c, o), Mark(o))
            else out.fills == [FillFor(c, exit, c.quantity, Mark(o))] && out.final == FLAT_POSITION
  {
    hide TargetQuantity, Reconcile;
    FlipPass(PassInput(c, o));
    WholePortion(c.quantity);
    WholePortion(Wanted(c, o));
    PricedIsTrading(c, o);
  }

  lemma LegTracks(b: Book, symbol: string, c: Position, leg: Leg, price: real, side: Side, others: real)
    requires RowsOpen(b) && WellFormed(c) && SoundTotal(others) && leg.quantity > EPS && leg.side != Flat
    requires leg.kind == Enter ==> c.side == Flat
    requires leg.kind != Enter ==> leg.side == c.side
    requires leg.kind == Reduce || leg.kind == Exit ==> leg.quantity <= c.quantity
    requires RowQty(b, symbol, c.side) >= OnSide(c, c.side) && RowQty(b, symbol, side) >= others + OnSide(c, side)
    ensures var next := BookFill(b, symbol, FillFor(c, leg, leg.quantity, price));
            && RowsOpen(next) && next.missing == b.missing
            && Tracks(b, next, symbol, side, others, c, Applied(c, leg, leg.quantity, price), EPS)
  {
    hide RealizedPnl, AverageCost, BookFill, Tracks;
    var fill, after := FillFor(c, leg, leg.quantity, price), Applied(c, leg, leg.quantity, price);
    if IsEntry(fill) {
      EntryTracks(b, symbol, fill, side, others, c, after);
      MoreShed(b, BookFill(b, symbol, fill), symbol, side, others, c, after);
    } else {
      CloseTracks(b, symbol, fill, side, others, c, after);
    }
  }

  lemma MoreShed(b: Book, next: Book, symbol: string, side: Side, others: real, p: Position, after: Position)
    requires Tracks(b, next, symbol, side, others, p, after, 0.0)
    ensures Tracks(b, next, symbol, side, others, p, after, EPS)
  {
  }

  lemma FlipTracks(b: Book, symbol: string, c: Position, enter: Leg, price: real, side: Side, others: real)
    requires RowsOpen(b) && WellFormed(c) && c.side != Flat && SoundTotal(others)
    requires enter.kind == Enter && enter.side != Flat && enter.side != c.side && enter.quantity > EPS
    requires RowQty(b, symbol, c.side) >= c.quantity && RowQty(b, symbol, side) >= others + OnSide(c, side)
    ensures var exited := BookFill(b, symbol, FillFor(c, Leg(c.side, c.quantity, Exit), c.quantity, price));
            var next := BookFill(exited, symbol, FillFor(FLAT_POSITION, enter, enter.quantity, price));
            && RowsOpen(next) && next.missing == b.missing
            && Tracks(b, next, symbol, side, others, c, Position(enter.side, enter.quantity, price), EPS)
  {
    hide RealizedPnl, BookFill, RowsOpen;
    var exit := FillFor(c, Leg(c.side, c.quantity, Exit), c.quantity, price);
    var exited := BookFill(b, symbol, exit);
    CloseTracks(b, symbol, exit, side, others, c, FLAT_POSITION);
    EntryTracks(exited, symbol, FillFor(FLAT_POSITION, enter, enter.quantity, price), side, others, FLAT_POSITION,
                Position(enter.side, enter.quantity, price));
  }

  /** One reconciliation with the store's settings, from a row that covers its sleeves: the row still covers them,
      exceeds them by at most EPS more than before, and no fill finds its row missing. */
  lemma PassTracks(b: Book, symbol: string, c: Position, o: Order, side: Side, others: real)
    requires WellFormed(c) && o.config == DEFAULT_CONFIG && RowsOpen(b) && SoundTotal(others)
    requires RowQty(b, symbol, c.side) >= OnSide(c, c.side) && RowQty(b, symbol, side) >= others + OnSide(c, side)
    ensures var out := Reconcile(PassInput(c, o));
            var next := BookFills(b, symbol, out.fills);
            && RowsOpen(next) && next.missing == b.missing
            && Tracks(b, next, symbol, side, others, c, out.final, EPS)
  {
    hide Reconcile, BookFill, BookFills, FillFor, Applied, TargetQuantity, RowsOpen;
    BookNone(b, symbol);
    var input, legs := PassInput(c, o), BuildLegs(c, o.targetSide, Wanted(c, o));
    if o.marketPrice <= EPS || legs == [] {
      QuietPassFillsNothing(c, o);
    } else if Flips(input) {
      FlipFills(c, o);
      var enter := Leg(o.targetSide, Wanted(c, o), Enter);
      var exit := FillFor(c, Leg(c.side, c.quantity, Exit), c.quantity, Mark(o));
      BookNext(b, symbol, [], exit);
      assert [] + [exit] == [exit];
      if enter.quantity > EPS {
        var entry := FillFor(FLAT_POSITION, enter, enter.quantity, Mark(o));
        BookNext(b, symbol, [exit], entry);
        assert [exit] + [entry] == [exit, entry];
        FlipTracks(b, symbol, c, enter, Mark(o), side, others);
      } else {
        LegTracks(b, symbol, c, Leg(c.side, c.quantity, Exit), Mark(o), side, others);
        ExitEmpties(c, Mark(o));
      }
    } else {
      var leg := legs[0];
      OneLegFills(c, o, leg);
      if leg.quantity > EPS {
        var fill := FillFor(c, leg, leg.quantity, Mark(o));
        BookNext(b, symbol, [], fill);
        assert [] + [fill] == [fill];
        LegTracks(b, symbol, c, leg, Mark(o), side, others);
      }
    }
  }

  lemma ExitEmpties(c: Position, price: real)
    requires WellFormed(c) && c.side != Flat
    ensures Applied(c, Leg(c.side, c.quantity, Exit), c.quantity, price) == FLAT_POSITION
  {
  }

  lemma QuietPassFillsNothing(c: Position, o: Order)
    requires WellFormed(c) && (o.marketPrice <= EPS || BuildLegs(c, o.targetSide, Wanted(c, o)) == [])
    ensures Reconcile(PassInput(c, o)).fills == [] && Reconcile(PassInput(c, o)).final == c
  {
  }
}
