/** The position table and the fill table agree after every history of manual fills: quantities, costs,
    exposures and realized profit are all sums over the recorded fills. */
module LedgerConservation {
  import opened Numeric
  import opened Wrappers
  import opened Ledger

  predicate EntersInto(f: FillRow, i: int) {
    f.position == i && f.action != Exit
  }

  /** Quantity bought into a position. */
  function BoughtQty(fills: seq<FillRow>, i: int): real {
    if fills == [] then 0.0
    else
      var f := fills[|fills| - 1];
      BoughtQty(fills[..|fills| - 1], i) + if EntersInto(f, i) then f.qty else 0.0
  }

  /** What it cost, at the fill prices. */
  function BoughtCost(fills: seq<FillRow>, i: int): real {
    if fills == [] then 0.0
    else
      var f := fills[|fills| - 1];
      BoughtCost(fills[..|fills| - 1], i) + if EntersInto(f, i) then f.qty * f.price else 0.0
  }

  function Sign(side: string): real {
    if side == "short" then -1.0 else 1.0
  }

  /** Profit of one entering fill on its own, were it closed at `exitPrice`. */
  function FillProfit(f: FillRow, side: string, exitPrice: real, multiplier: real): real {
    Sign(side) * (exitPrice - f.price) * f.qty * multiplier
  }

  /** Profit of a quantity bought at a total cost. */
  function PooledProfit(qty: real, cost: real, side: string, exitPrice: real, multiplier: real): real {
    Sign(side) * (exitPrice * qty - cost) * multiplier
  }

  /** The entering fills' own profits, summed. */
  function ProfitPerFill(fills: seq<FillRow>, i: int, side: string, exitPrice: real, multiplier: real): real {
    if fills == [] then 0.0
    else
      var f := fills[|fills| - 1];
      ProfitPerFill(fills[..|fills| - 1], i, side, exitPrice, multiplier)
      + if EntersInto(f, i) then FillProfit(f, side, exitPrice, multiplier) else 0.0
  }

  predicate Overridden(fills: seq<FillRow>, i: int) {
    exists f <- fills :: EntersInto(f, i) && f.overridden
  }

  /** The exits recorded for a position, in order. */
  function Exits(fills: seq<FillRow>, i: int): seq<FillRow> {
    if fills == [] then []
    else
      var f := fills[|fills| - 1];
      Exits(fills[..|fills| - 1], i) + if f.position == i && f.action == Exit then [f] else []
  }

  /** One position against the fills recorded for it. */
  ghost predicate RowBalances(fills: seq<FillRow>, i: int, p: PositionRow) {
    && p.qty > 0.0
    && BoughtQty(fills, i) == p.qty
    && BoughtCost(fills, i) == p.qty * p.avgPrice
    && (!Overridden(fills, i) ==> p.delta + p.premium == p.qty * p.avgPrice * ContractMultiplier(p.instrument))
    && match p.realized
       case None => Exits(fills, i) == []
       case Some(pnl) =>
         && |Exits(fills, i)| == 1
         && var exit := Exits(fills, i)[0];
            exit.fees >= 0.0
            && pnl == ProfitPerFill(fills, i, p.side, exit.price, ContractMultiplier(p.instrument)) - exit.fees
  }

  ghost predicate Balanced(b: Book) {
    && (forall i | 0 <= i < |b.positions| :: RowBalances(b.fills, i, b.positions[i]))
    && (forall f <- b.fills :: 0 <= f.position < |b.positions|)
  }

  // ---------- fills of other positions do not matter ----------

  lemma Appended(fills: seq<FillRow>, f: FillRow, i: int, side: string, exitPrice: real, multiplier: real)
    ensures BoughtQty(fills + [f], i) == BoughtQty(fills, i) + if EntersInto(f, i) then f.qty else 0.0
    ensures BoughtCost(fills + [f], i) == BoughtCost(fills, i) + if EntersInto(f, i) then f.qty * f.price else 0.0
    ensures ProfitPerFill(fills + [f], i, side, exitPrice, multiplier)
         == ProfitPerFill(fills, i, side, exitPrice, multiplier)
            + if EntersInto(f, i) then FillProfit(f, side, exitPrice, multiplier) else 0.0
    ensures Exits(fills + [f], i) == Exits(fills, i) + if f.position == i && f.action == Exit then [f] else []
    ensures Overridden(fills + [f], i) <==> Overridden(fills, i) || (EntersInto(f, i) && f.overridden)
  {
    assert (fills + [f])[..|fills|] == fills;
    assert f in fills + [f];
  }

  lemma OtherFillKeeps(fills: seq<FillRow>, f: FillRow, i: int, p: PositionRow)
    requires RowBalances(fills, i, p) && f.position != i
    ensures RowBalances(fills + [f], i, p)
  {
    hide BoughtQty, BoughtCost, ProfitPerFill, Exits, Overridden, FillProfit;
    var exitPrice := if p.realized.Some? then Exits(fills, i)[0].price else 0.0;
    Appended(fills, f, i, p.side, exitPrice, ContractMultiplier(p.instrument));
  }

  lemma {:induction false} NothingRecorded(fills: seq<FillRow>, i: int)
    requires forall f <- fills :: f.position < i
    ensures BoughtQty(fills, i) == 0.0 && BoughtCost(fills, i) == 0.0
    ensures Exits(fills, i) == [] && !Overridden(fills, i)
  {
    if fills != [] {
      assert fills[|fills| - 1] in fills;
      NothingRecorded(fills[..|fills| - 1], i);
    }
  }

  // ---------- each action ----------

  lemma EnterBalances(fills: seq<FillRow>, f: ManualFill, i: int)
    requires Validate(f).None? && f.action == Enter && forall g <- fills :: g.position < i
    ensures RowBalances(fills + [FillOf(f, i)], i, Opened(f))
  {
    hide BoughtQty, BoughtCost, ProfitPerFill, Exits, Overridden, FillProfit;
    NothingRecorded(fills, i);
    Appended(fills, FillOf(f, i), i, f.side, 0.0, 1.0);
    assert fills + [FillOf(f, i)] != [];
  }

  lemma ResizeBalances(fills: seq<FillRow>, f: ManualFill, i: int, p: PositionRow)
    requires Validate(f).None? && f.action == Resize && RowBalances(fills, i, p) && p.realized.None?
    requires f.side == p.side && f.instrument == p.instrument
    ensures RowBalances(fills + [FillOf(f, i)], i, Resized(p, f))
  {
    hide BoughtQty, BoughtCost, ProfitPerFill, Exits, Overridden, FillProfit;
    Appended(fills, FillOf(f, i), i, p.side, 0.0, 1.0);
    var qty, cost := p.qty + f.qty, p.qty * p.avgPrice + f.qty * f.price;
    DivCancels(cost, qty);
    var m := ContractMultiplier(p.instrument);
    assert cost * m == p.qty * p.avgPrice * m + f.qty * f.price * m;
  }

  /** The average-cost profit equals the sum of each fill's own profit. */
  lemma {:induction false} ProfitIsSum(fills: seq<FillRow>, i: int, side: string, exitPrice: real, multiplier: real)
    ensures ProfitPerFill(fills, i, side, exitPrice, multiplier)
         == PooledProfit(BoughtQty(fills, i), BoughtCost(fills, i), side, exitPrice, multiplier)
  {
    hide FillProfit, PooledProfit;
    if fills == [] {
      NothingPooled(side, exitPrice, multiplier);
    } else {
      var rest, f := fills[..|fills| - 1], fills[|fills| - 1];
      ProfitIsSum(rest, i, side, exitPrice, multiplier);
      AddFill(f, BoughtQty(rest, i), BoughtCost(rest, i), side, exitPrice, multiplier);
      if EntersInto(f, i) {
        assert BoughtQty(fills, i) == BoughtQty(rest, i) + f.qty;
        assert BoughtCost(fills, i) == BoughtCost(rest, i) + f.qty * f.price;
      } else {
        assert BoughtQty(fills, i) == BoughtQty(rest, i) && BoughtCost(fills, i) == BoughtCost(rest, i);
      }
    }
  }

  lemma NothingPooled(side: string, exitPrice: real, multiplier: real)
    ensures PooledProfit(0.0, 0.0, side, exitPrice, multiplier) == 0.0
  {
  }

  lemma AddFill(f: FillRow, qty: real, cost: real, side: string, exitPrice: real, m: real)
    ensures PooledProfit(qty, cost, side, exitPrice, m) + FillProfit(f, side, exitPrice, m)
         == PooledProfit(qty + f.qty, cost + f.qty * f.price, side, exitPrice, m)
  {
    assert exitPrice * (qty + f.qty) - (cost + f.qty * f.price)
        == (exitPrice * qty - cost) + (exitPrice - f.price) * f.qty;
  }

  lemma ExitBalances(fills: seq<FillRow>, f: ManualFill, i: int, p: PositionRow)
    requires Validate(f).None? && f.action == Exit && RowBalances(fills, i, p) && p.realized.None?
    ensures RowBalances(fills + [FillOf(f, i)], i, ExitedFor(p, f))
  {
    hide BoughtQty, BoughtCost, ProfitPerFill, Exits, Overridden, PooledProfit, RealizedPnl;
    var m := ContractMultiplier(p.instrument);
    Appended(fills, FillOf(f, i), i, p.side, f.price, m);
    ProfitIsSum(fills, i, p.side, f.price, m);
    assert BoughtQty(fills, i) == p.qty && BoughtCost(fills, i) == p.qty * p.avgPrice;
    AverageCostProfit(p, f.price, GetOr(f.fees, 0.0), m);
  }

  lemma AverageCostProfit(p: PositionRow, exitPrice: real, fees: real, m: real)
    requires p.qty > 0.0 && fees >= 0.0
    ensures RealizedPnl(p.side, p.qty, p.avgPrice, exitPrice, fees, m)
         == PooledProfit(p.qty, p.qty * p.avgPrice, p.side, exitPrice, m) - fees
  {
    assert (exitPrice - p.avgPrice) * p.qty == exitPrice * p.qty - p.qty * p.avgPrice;
  }

  // ---------- every history ----------

  lemma BalancedQuantities(b: Book)
    requires Balanced(b)
    ensures forall p <- b.positions :: p.qty > 0.0
  {
    hide BoughtQty, BoughtCost, ProfitPerFill, Exits, Overridden;
  }

  /** Recording a fill keeps both tables in agreement. */
  lemma RecordBalances(b: Book, f: ManualFill)
    requires Balanced(b)
    ensures forall p <- b.positions :: p.qty > 0.0
    ensures Record(b, f).Ok? ==> Balanced(Record(b, f).value)
  {
    BalancedQuantities(b);
    hide RowBalances, Opened, Resized, ExitedFor;
    if Record(b, f).Ok? {
      var next := Record(b, f).value;
      var at := next.fills[|b.fills|].position;
      var row := next.fills[|b.fills|];
      forall i | 0 <= i < |next.positions|
        ensures RowBalances(next.fills, i, next.positions[i])
      {
        if i != at {
          OtherFillKeeps(b.fills, row, i, b.positions[i]);
        } else if f.action == Enter {
          EnterBalances(b.fills, f, i);
        } else if f.action == Resize {
          ResizeBalances(b.fills, f, i, b.positions[i]);
        } else {
          ExitBalances(b.fills, f, i, b.positions[i]);
        }
      }
    }
  }

  /** Rejected fills are skipped. */
  ghost function RecordAll(b: Book, history: seq<ManualFill>): Book
    requires Balanced(b)
    decreases |history|
  {
    if history == [] then b
    else
      RecordBalances(b, history[0]);
      RecordAll(match Record(b, history[0]) case Ok(next) => next case Err(_) => b, history[1..])
  }

  /** After any history: every position holds what was bought into it at what it cost,
      every closed one's realized profit is the sum of its fills' own profits less its exit's fees, and
      exposures nobody overrode add up to the position's notional. */
  lemma {:induction false} EveryHistoryBalances(b: Book, history: seq<ManualFill>)
    requires Balanced(b)
    ensures Balanced(RecordAll(b, history))
    decreases |history|
  {
    hide Balanced, Record;
    if history != [] {
      RecordBalances(b, history[0]);
      EveryHistoryBalances(match Record(b, history[0]) case Ok(next) => next case Err(_) => b, history[1..]);
    }
  }

  lemma EmptyBookBalances()
    ensures Balanced(Book([], []))
  {
  }

  /** So every book that can be reached is balanced. */
  lemma EveryReachableBookBalances(history: seq<ManualFill>)
    ensures Balanced(Book([], []))
    ensures Balanced(RecordAll(Book([], []), history))
  {
    EmptyBookBalances();
    EveryHistoryBalances(Book([], []), history);
  }

  /** Closed rows never change again: only their own fills could, and they are no longer selected. */
  lemma ClosedIsFinal(b: Book, f: ManualFill, i: int)
    requires Balanced(b) && 0 <= i < |b.positions| && !IsOpen(b.positions[i])
    ensures forall p <- b.positions :: p.qty > 0.0
    ensures match Record(b, f)
            case Ok(next) => i < |next.positions| && next.positions[i] == b.positions[i]
            case Err(_) => true
  {
    hide RowBalances;
    BalancedQuantities(b);
    ClosedUntouched(b, f, i);
  }

  lemma ClosedUntouched(b: Book, f: ManualFill, i: int)
    requires 0 <= i < |b.positions| && !IsOpen(b.positions[i]) && forall p <- b.positions :: p.qty > 0.0
    ensures match Record(b, f)
            case Ok(next) => i < |next.positions| && next.positions[i] == b.positions[i]
            case Err(_) => true
  {
    hide Opened, FillOf, Resized, ExitedFor, Validate;
  }

  // ---------- what the fills of a closed position net to ----------

  /** Shares entered less shares exited, as recorded. */
  function NetQty(fills: seq<FillRow>, i: int): real {
    if fills == [] then 0.0
    else
      var f := fills[|fills| - 1];
      NetQty(fills[..|fills| - 1], i)
      + if f.position != i then 0.0 else if f.action == Exit then -f.qty else f.qty
  }

  lemma NetAppended(fills: seq<FillRow>, f: FillRow, i: int)
    ensures NetQty(fills + [f], i)
         == NetQty(fills, i) + if f.position != i then 0.0 else if f.action == Exit then -f.qty else f.qty
  {
    assert (fills + [f])[..|fills|] == fills;
  }

  lemma {:induction false} NetWithoutExits(fills: seq<FillRow>, i: int)
    requires Exits(fills, i) == []
    ensures NetQty(fills, i) == BoughtQty(fills, i)
  {
    if fills != [] {
      NetWithoutExits(fills[..|fills| - 1], i);
    }
  }

  lemma OpenRowNets(fills: seq<FillRow>, i: int, p: PositionRow)
    requires RowBalances(fills, i, p) && IsOpen(p)
    ensures NetQty(fills, i) == p.qty
  {
    hide BoughtQty, BoughtCost, ProfitPerFill, Overridden, Exits, NetQty;
    NetWithoutExits(fills, i);
  }

  /** An accepted exit closes the whole position whatever quantity it states, so the recorded fills net to zero
      exactly when it states the position's quantity; it may state more, and by the float tolerance less. */
  lemma ExitNetsToZeroIff(b: Book, f: ManualFill)
    requires Balanced(b) && f.action == Exit
    ensures forall p <- b.positions :: p.qty > 0.0
    ensures Record(b, f).Ok? ==>
              var i, next := Selected(b.positions, f), Record(b, f).value;
              && 0 <= i < |b.positions| && !IsOpen(next.positions[i])
              && f.qty + FLOAT_EPSILON >= b.positions[i].qty
              && NetQty(next.fills, i) == b.positions[i].qty - f.qty
              && (NetQty(next.fills, i) == 0.0 <==> f.qty == b.positions[i].qty)
  {
    hide RowBalances, NetQty;
    BalancedQuantities(b);
    if Record(b, f).Ok? {
      var i := Selected(b.positions, f);
      OpenRowNets(b.fills, i, b.positions[i]);
      NetAppended(b.fills, FillOf(f, i), i);
    }
  }

  const ENTER_EXAMPLE :=
    ManualFill(Enter, 1, Actionable, None, "long", "equity", 10.0, 100.0, None, 0, None, None)

  const EXIT_EXAMPLE :=
    ManualFill(Exit, 1, PositionOpen, None, "long", "equity", 25.0, 110.0, None, 1, None, None)

  function HeldExample(): Book {
    Book([Opened(ENTER_EXAMPLE)], [FillOf(ENTER_EXAMPLE, 0)])
  }

  lemma EnteringExample()
    ensures Record(Book([], []), ENTER_EXAMPLE) == Ok(HeldExample())
  {
    hide Opened, FillOf, Selected;
    assert Validate(ENTER_EXAMPLE).None?;
    assert [] + [Opened(ENTER_EXAMPLE)] == [Opened(ENTER_EXAMPLE)];
    assert [] + [FillOf(ENTER_EXAMPLE, 0)] == [FillOf(ENTER_EXAMPLE, 0)];
  }

  lemma ExitingExample()
    ensures forall p <- HeldExample().positions :: p.qty > 0.0
    ensures var after := Record(HeldExample(), EXIT_EXAMPLE);
            && after.Ok? && |after.value.positions| == 1 && after.value.positions[0].realized == Some(100.0)
            && after.value.fills == [FillOf(ENTER_EXAMPLE, 0), FillOf(EXIT_EXAMPLE, 0)]
  {
    hide DefaultExposure;
    var p := Opened(ENTER_EXAMPLE);
    assert OpenFor(p, 1);
    assert [p][..0] == [];
    assert LatestOpen([p], 1) == 0;
    assert ExitedFor(p, EXIT_EXAMPLE).realized == Some(100.0);
  }

  lemma NetExample()
    ensures NetQty([FillOf(ENTER_EXAMPLE, 0), FillOf(EXIT_EXAMPLE, 0)], 0) == -15.0
  {
    var enter, exit := FillOf(ENTER_EXAMPLE, 0), FillOf(EXIT_EXAMPLE, 0);
    assert [] + [enter] == [enter] && [enter] + [exit] == [enter, exit];
    NetAppended([], enter, 0);
    NetAppended([enter], exit, 0);
  }

  /** Enter 10 at 100, then exit 25 at 110: accepted, realizing 100 on the 10, with fills that net to 15 short. */
  lemma OverExitExample()
    ensures Record(Book([], []), ENTER_EXAMPLE) == Ok(HeldExample())
    ensures forall p <- HeldExample().positions :: p.qty > 0.0
    ensures var after := Record(HeldExample(), EXIT_EXAMPLE);
            && after.Ok? && |after.value.positions| == 1 && after.value.positions[0].realized == Some(100.0)
            && NetQty(after.value.fills, 0) == -15.0
  {
    hide Record, HeldExample, NetQty, FillOf;
    EnteringExample();
    ExitingExample();
    NetExample();
  }

  // ---------- fees ----------

  /** All fees recorded for a position. */
  function Fees(fills: seq<FillRow>, i: int): real {
    if fills == [] then 0.0
    else
      var f := fills[|fills| - 1];
      Fees(fills[..|fills| - 1], i) + if f.position == i then f.fees else 0.0
  }

  /** Those of its entering and resizing fills. */
  function EntryFees(fills: seq<FillRow>, i: int): real {
    if fills == [] then 0.0
    else
      var f := fills[|fills| - 1];
      EntryFees(fills[..|fills| - 1], i) + if EntersInto(f, i) then f.fees else 0.0
  }

  function ExitFees(exits: seq<FillRow>): real {
    if exits == [] then 0.0 else ExitFees(exits[..|exits| - 1]) + exits[|exits| - 1].fees
  }

  lemma {:induction false} FeesSplit(fills: seq<FillRow>, i: int)
    ensures Fees(fills, i) == EntryFees(fills, i) + ExitFees(Exits(fills, i))
  {
    if fills != [] {
      var rest, f := fills[..|fills| - 1], fills[|fills| - 1];
      FeesSplit(rest, i);
      if f.position == i && f.action == Exit {
        assert (Exits(rest, i) + [f])[..|Exits(rest, i)|] == Exits(rest, i);
      } else {
        assert Exits(fills, i) == Exits(rest, i);
      }
    }
  }

  /** The profit of a closed position is its fills' own profits less all its recorded fees exactly when its entering
      and resizing fills recorded no fees. */
  lemma FeesDeductedIff(b: Book, i: int)
    requires Balanced(b) && 0 <= i < |b.positions| && !IsOpen(b.positions[i])
    ensures |Exits(b.fills, i)| == 1
    ensures var p, exit := b.positions[i], Exits(b.fills, i)[0];
            p.realized.value
              == ProfitPerFill(b.fills, i, p.side, exit.price, ContractMultiplier(p.instrument)) - Fees(b.fills, i)
            <==> EntryFees(b.fills, i) == 0.0
  {
    hide BoughtQty, BoughtCost, ProfitPerFill, Overridden, Exits, Fees, EntryFees;
    assert RowBalances(b.fills, i, b.positions[i]);
    FeesSplit(b.fills, i);
    var exits := Exits(b.fills, i);
    assert exits[..0] == [];
  }

  const FEE_ENTER := ENTER_EXAMPLE.(fees := Some(5.0))
  const FEE_EXIT := EXIT_EXAMPLE.(qty := 10.0, fees := Some(1.0))

  /** Enter 10 at 100 paying 5, exit at 110 paying 1: recorded as 99, of the 94 that were made. */
  lemma FeesExample()
    ensures var held := Book([Opened(FEE_ENTER)], [FillOf(FEE_ENTER, 0)]);
            && (forall p <- held.positions :: p.qty > 0.0)
            && Record(Book([], []), FEE_ENTER) == Ok(held)
            && var after := Record(held, FEE_EXIT);
               && after.Ok? && |after.value.positions| == 1 && after.value.positions[0].realized == Some(99.0)
               && EntryFees(after.value.fills, 0) == 5.0 && Fees(after.value.fills, 0) == 6.0
  {
    hide Record;
    var enter, exit := FillOf(FEE_ENTER, 0), FillOf(FEE_EXIT, 0);
    FeeEnterRecorded();
    FeeExitRecorded();
    assert enter.position == 0 && enter.action == Enter && enter.fees == 5.0;
    assert exit.position == 0 && exit.action == Exit && exit.fees == 1.0;
    assert [] + [enter] == [enter] && [enter] + [exit] == [enter, exit];
    FeesAppended([], enter, 0);
    FeesAppended([enter], exit, 0);
  }

  lemma FeesAppended(fills: seq<FillRow>, f: FillRow, i: int)
    ensures Fees(fills + [f], i) == Fees(fills, i) + if f.position == i then f.fees else 0.0
    ensures EntryFees(fills + [f], i) == EntryFees(fills, i) + if EntersInto(f, i) then f.fees else 0.0
  {
    assert (fills + [f])[..|fills|] == fills;
  }

  lemma FeeEnterRecorded()
    ensures Record(Book([], []), FEE_ENTER) == Ok(Book([Opened(FEE_ENTER)], [FillOf(FEE_ENTER, 0)]))
  {
    hide Opened, FillOf, Selected;
    assert Validate(FEE_ENTER).None?;
    assert [] + [Opened(FEE_ENTER)] == [Opened(FEE_ENTER)];
    assert [] + [FillOf(FEE_ENTER, 0)] == [FillOf(FEE_ENTER, 0)];
  }

  lemma FeeExitRecorded()
    ensures forall p <- [Opened(FEE_ENTER)] :: p.qty > 0.0
    ensures var after := Record(Book([Opened(FEE_ENTER)], [FillOf(FEE_ENTER, 0)]), FEE_EXIT);
            && after.Ok? && |after.value.positions| == 1 && after.value.positions[0].realized == Some(99.0)
            && after.value.fills == [FillOf(FEE_ENTER, 0), FillOf(FEE_EXIT, 0)]
  {
    hide DefaultExposure;
    var p := Opened(FEE_ENTER);
    assert OpenFor(p, 1);
    assert [p][..0] == [];
    assert LatestOpen([p], 1) == 0;
    assert ExitedFor(p, FEE_EXIT).realized == Some(99.0);
  }
}
