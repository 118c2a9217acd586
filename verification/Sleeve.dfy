/** A strategy sleeve as the store keeps it between passes. Only side, quantity and marked notional are
    stored, so the next pass reads its cost basis back from the last mark. */
module Sleeve {
  import opened Numeric
  import opened Simulator
  import opened SimulatorPass
  import opened SimulatorRuns

  datatype Account = Account(side: Side, quantity: real, notional: real, realized: real, unrealized: real)

  const EMPTY_ACCOUNT := Account(Flat, 0.0, 0.0, 0.0, 0.0)

  /** The position a pass reads back from the store. */
  function Loaded(a: Account): Position {
    Position(a.side, a.quantity, if a.quantity > EPS then a.notional / a.quantity else 0.0)
  }

  function Stored(a: Account, out: Outcome, marketPrice: real): Account {
    Account(out.final.side, out.final.quantity, out.final.quantity * marketPrice,
            a.realized + out.realized, out.unrealized)
  }

  function ReconcileAccount(a: Account, o: Order): Account {
    Stored(a, Reconcile(PassInput(Loaded(a), o)), o.marketPrice)
  }

  function Opening(a: Account): Position {
    Normalize(Loaded(a))
  }

  lemma LoadedBack(quantity: real, mark: real)
    requires quantity > EPS
    ensures quantity * mark / quantity == mark
  {
    DivCancels(mark, quantity);
  }

  /** Reading back resets the cost basis to the mark, or forgets the position when the mark is missing. */
  lemma ReloadResetsCost(a: Account, o: Order)
    ensures var final := After(Loaded(a), o);
            Opening(ReconcileAccount(a, o))
              == if final.side != Flat && o.marketPrice > EPS then final.(avgPrice := o.marketPrice) else FLAT_POSITION
  {
    hide Reconcile;
    PassWellFormed(PassInput(Loaded(a), o));
    var final := After(Loaded(a), o);
    if final.side != Flat {
      LoadedBack(final.quantity, o.marketPrice);
      assert Loaded(ReconcileAccount(a, o)) == final.(avgPrice := o.marketPrice);
    } else {
      assert ReconcileAccount(a, o).side == Flat;
    }
  }

  /** The stored position keeps its side and quantity exactly when there was none or the price is present. */
  lemma ReloadKeepsQuantityIff(a: Account, o: Order)
    ensures var final, again := After(Loaded(a), o), Opening(ReconcileAccount(a, o));
            (again.side == final.side && again.quantity == final.quantity)
            <==> Opening(a).side == Flat || o.marketPrice > EPS
  {
    hide Reconcile, ReconcileAccount;
    PassWellFormed(PassInput(Loaded(a), o));
    ReloadResetsCost(a, o);
    if o.marketPrice <= EPS {
      BlockedPassKeeps(PassInput(Loaded(a), o));
    }
  }

  /** Ten shares bought at 100; a pass without a price keeps them, and the next pass opens with none. */
  lemma MissingPriceExample()
    ensures var a := Account(Long, 10.0, 1000.0, 0.0, 0.0);
            var o := Order(Long, 1000.0, 0.0, 0, DEFAULT_CONFIG);
            After(Loaded(a), o) == Position(Long, 10.0, 100.0) && Opening(ReconcileAccount(a, o)) == FLAT_POSITION
  {
    var a, o := Account(Long, 10.0, 1000.0, 0.0, 0.0), Order(Long, 1000.0, 0.0, 0, DEFAULT_CONFIG);
    BlockedPassKeeps(PassInput(Loaded(a), o));
    ReloadResetsCost(a, o);
  }

  // ---------- what a pass with the store's settings leaves, from its inputs ----------

  function Wanted(c: Position, o: Order): real {
    TargetQuantity(PassInput(c, o))
  }

  /** Where a complete fill leaves a position: unchanged within EPS of the target, else at the target, averaging
      in what is added; a target of dust is flat. */
  function FullyFilled(c: Position, o: Order): Position {
    var wanted, price := Wanted(c, o), Mark(o);
    if o.targetSide == Flat then FLAT_POSITION
    else if c.side != o.targetSide then
      if wanted <= EPS then FLAT_POSITION else Position(o.targetSide, wanted, price)
    else if Abs(c.quantity - wanted) <= EPS then c
    else if wanted > c.quantity then Position(c.side, wanted, AverageCost(c, wanted - c.quantity, price))
    else if wanted <= EPS then FLAT_POSITION else c.(quantity := wanted)
  }

  lemma WholePortion(quantity: real)
    ensures Portion(quantity, 1.0) == quantity
  {
  }

  lemma FullOneLeg(c: Position, o: Order, leg: Leg)
    requires o.marketPrice > EPS && o.config == DEFAULT_CONFIG && WellFormed(c)
    requires BuildLegs(c, o.targetSide, Wanted(c, o)) == [leg]
    ensures After(c, o) == FullyFilled(c, o)
  {
    hide TargetQuantity, AverageCost, RealizedPnl, UnrealizedPnl, Reconcile;
    OneLegPass(PassInput(c, o), leg);
    WholePortion(leg.quantity);
    assert c.quantity + (Wanted(c, o) - c.quantity) == Wanted(c, o);
  }

  lemma FullPass(c: Position, o: Order)
    requires o.marketPrice > EPS && o.config == DEFAULT_CONFIG && WellFormed(c)
    ensures After(c, o) == FullyFilled(c, o)
  {
    hide TargetQuantity, AverageCost, RealizedPnl, UnrealizedPnl;
    var input := PassInput(c, o);
    var legs := BuildLegs(c, o.targetSide, Wanted(c, o));
    if Flips(input) {
      FullFlip(input);
    } else if |legs| == 1 {
      FullOneLeg(c, o, legs[0]);
    }
  }

  lemma SamePass(a: Account, o: Order)
    ensures Reconcile(PassInput(Loaded(a), o)) == Reconcile(PassInput(Opening(a), o))
  {
    SameFromNormalized(PassInput(Loaded(a), o));
  }

  lemma AverageIsPriceIff(c: Position, added: real, price: real)
    requires c.quantity > EPS && added > 0.0
    ensures AverageCost(c, added, price) == price <==> c.avgPrice == price
  {
    var total, cost := c.quantity + added, c.quantity * c.avgPrice + added * price;
    DivCancels(cost, total);
    assert price * total == c.quantity * price + added * price;
    if c.avgPrice < price {
      MulStrict(c.avgPrice, price, c.quantity);
    } else if c.avgPrice > price {
      MulStrict(price, c.avgPrice, c.quantity);
    } else {
      DivCancels(price, total);
    }
  }

  /** The order does not leave shares of the opening position standing at a cost other than its price. */
  predicate BasisSurvives(c: Position, o: Order) {
    c.side == Flat
    || (o.marketPrice > EPS
        && (c.side != o.targetSide || o.marketPrice == c.avgPrice
            || (Wanted(c, o) <= EPS && c.quantity - Wanted(c, o) > EPS)))
  }

  /** The store gives a position back unchanged exactly when none was open, or there is a price and the order
      flips it, empties it, or trades at its cost. */
  lemma ReloadFaithfulIff(a: Account, o: Order)
    requires o.config == DEFAULT_CONFIG
    ensures Opening(ReconcileAccount(a, o)) == After(Loaded(a), o) <==> BasisSurvives(Opening(a), o)
  {
    hide Reconcile, ReconcileAccount, AverageCost, TargetQuantity, Loaded;
    var c := Opening(a);
    PassWellFormed(PassInput(Loaded(a), o));
    ReloadResetsCost(a, o);
    if o.marketPrice <= EPS {
      BlockedPassKeeps(PassInput(Loaded(a), o));
    } else {
      SamePass(a, o);
      FullPass(c, o);
      if c.side == o.targetSide && c.side != Flat && Wanted(c, o) > c.quantity {
        AverageIsPriceIff(c, Wanted(c, o) - c.quantity, o.marketPrice);
      }
    }
  }

  /** The position the next pass opens with, from what this pass opened with. */
  function Followed(c: Position, o: Order): Position {
    var next := FullyFilled(c, o);
    if next.side == Flat || o.marketPrice <= EPS then FLAT_POSITION else next.(avgPrice := o.marketPrice)
  }

  lemma ReloadFollows(a: Account, o: Order)
    requires o.config == DEFAULT_CONFIG
    ensures Opening(ReconcileAccount(a, o)) == Followed(Opening(a), o)
  {
    hide Reconcile, ReconcileAccount, AverageCost, TargetQuantity, Loaded, FullyFilled;
    ReloadResetsCost(a, o);
    if o.marketPrice > EPS {
      SamePass(a, o);
      FullPass(Opening(a), o);
    }
  }

  /** Shares held through the pass: in the opening position and still there after it. */
  function Carried(c: Position, o: Order): real {
    var next := Followed(c, o);
    if c.side == next.side then Min(c.quantity, next.quantity) else 0.0
  }

  lemma FlatEarnsNothing(quantity: real, avgPrice: real, price: real)
    ensures RealizedPnl(Flat, quantity, avgPrice, price) == 0.0
  {
  }

  lemma OpenProfitIsCarried(c: Position, o: Order)
    requires WellFormed(c) && o.marketPrice > EPS
    ensures UnrealizedPnl(FullyFilled(c, o), o.marketPrice)
         == RealizedPnl(c.side, Carried(c, o), c.avgPrice, o.marketPrice)
  {
    hide RealizedPnl, UnrealizedPnl, TargetQuantity, AverageCost;
    var next, price := FullyFilled(c, o), o.marketPrice;
    SplitProfit(next, 0.0, price);
    SplitProfit(c, 0.0, price);
    FlatEarnsNothing(Carried(c, o), c.avgPrice, price);
    EnteredHasNoProfit(next);
    if c.side == o.targetSide && c.side != Flat && Wanted(c, o) > c.quantity + EPS {
      var leg := Leg(c.side, Wanted(c, o) - c.quantity, Increase);
      IncreaseKeepsValue(c, leg, leg.quantity, price);
      assert Applied(c, leg, leg.quantity, price) == next;
      assert Carried(c, o) == c.quantity;
    }
  }

  lemma NothingCarried(c: Position, mark: real, o: Order)
    requires WellFormed(c) && o.marketPrice <= EPS
    ensures RealizedPnl(c.side, Carried(c, o), mark, o.marketPrice) == 0.0
  {
    hide RealizedPnl, FullyFilled;
    FlatEarnsNothing(Carried(c, o), mark, o.marketPrice);
    SplitProfit(c.(avgPrice := mark), 0.0, o.marketPrice);
  }

  /** What a pass shows as open profit: the price move since the last mark, on the shares carried through. */
  lemma ShownIsCarried(a: Account, mark: real, o: Order)
    requires o.config == DEFAULT_CONFIG
    requires Opening(a).side == Flat || Opening(a).avgPrice == mark
    ensures ReconcileAccount(a, o).unrealized
         == RealizedPnl(Opening(a).side, Carried(Opening(a), o), mark, o.marketPrice)
  {
    hide Reconcile, RealizedPnl, UnrealizedPnl, AverageCost, TargetQuantity, Loaded, FullyFilled, Carried;
    var c := Opening(a);
    if o.marketPrice <= EPS {
      UnpricedPass(a, o);
      NothingCarried(c, mark, o);
      return;
    }
    SamePass(a, o);
    FullPass(c, o);
    ShownIsOpenProfit(PassInput(Loaded(a), o));
    OpenProfitIsCarried(c, o);
    FlatEarnsNothing(Carried(c, o), c.avgPrice, o.marketPrice);
    FlatEarnsNothing(Carried(c, o), mark, o.marketPrice);
  }

  // ---------- accounts over a run of stored passes ----------

  /** The price move a pass's holding went through since the last mark; without a price there is none to see. */
  function SeenGain(c: Position, mark: real, o: Order): real {
    if o.marketPrice > EPS then HoldingGain(c, mark, o.marketPrice) else 0.0
  }

  /** Orders as the store makes them: it always uses the default simulation settings. */
  predicate StoreSettings(orders: seq<Order>) {
    forall o <- orders :: o.config == DEFAULT_CONFIG
  }

  /** Price moves of the carried shares, summed over the passes of a run; a function of the opening position and
      the orders alone. */
  function CarriedGain(c: Position, mark: real, orders: seq<Order>): real
    decreases |orders|
  {
    if orders == [] then 0.0
    else RealizedPnl(c.side, Carried(c, orders[0]), mark, orders[0].marketPrice)
         + CarriedGain(Followed(c, orders[0]), orders[0].marketPrice, orders[1..])
  }

  function AfterAll(a: Account, orders: seq<Order>): Account
    decreases |orders|
  {
    if orders == [] then a else AfterAll(ReconcileAccount(a, orders[0]), orders[1..])
  }

  /** Open profit shown at the end of each pass of the run, summed. */
  function ShownProfit(a: Account, orders: seq<Order>): real
    decreases |orders|
  {
    if orders == [] then 0.0
    else var next := ReconcileAccount(a, orders[0]); next.unrealized + ShownProfit(next, orders[1..])
  }

  function StoredMarketGain(a: Account, mark: real, orders: seq<Order>): real
    decreases |orders|
  {
    if orders == [] then 0.0
    else SeenGain(Opening(a), mark, orders[0])
         + StoredMarketGain(ReconcileAccount(a, orders[0]), orders[0].marketPrice, orders[1..])
  }

  function StoredLoss(a: Account, orders: seq<Order>): real
    decreases |orders|
  {
    if orders == [] then 0.0
    else LostProfit(Opening(a), orders[0]) + StoredLoss(ReconcileAccount(a, orders[0]), orders[1..])
  }

  lemma PassOnOpening(a: Account, o: Order)
    requires o.marketPrice > EPS
    ensures var out := Reconcile(PassInput(Loaded(a), o));
            out.realized + out.unrealized == UnrealizedPnl(Opening(a), o.marketPrice) - LostProfit(Opening(a), o)
  {
    hide Reconcile, Lost, UnrealizedPnl, RealizedPnl, Loaded;
    var input := PassInput(Loaded(a), o);
    PassBalances(input);
    SameLoss(input);
    ShownIsOpenProfit(input);
  }

  /** Without a price nothing is traded, shown or lost, and the next pass opens flat. */
  lemma UnpricedPass(a: Account, o: Order)
    requires o.marketPrice <= EPS
    ensures var next := ReconcileAccount(a, o);
            && next.realized == a.realized && next.unrealized == 0.0
            && Opening(next) == FLAT_POSITION && LostProfit(Opening(a), o) == 0.0
  {
    hide Loaded, Normalize, RealizedPnl, UnrealizedPnl;
    ReloadResetsCost(a, o);
    SplitProfit(Opening(a), 0.0, Mark(o));
  }

  lemma StoredPass(a: Account, mark: real, o: Order)
    requires Opening(a).side == Flat || Opening(a).avgPrice == mark
    ensures var next := ReconcileAccount(a, o);
            && next.realized - a.realized + next.unrealized
               == SeenGain(Opening(a), mark, o) - LostProfit(Opening(a), o)
            && (Opening(next).side == Flat || Opening(next).avgPrice == o.marketPrice)
  {
    hide Reconcile, LostProfit, UnrealizedPnl, HoldingGain, Loaded, Normalize;
    if o.marketPrice > EPS {
      PassOnOpening(a, o);
      ReloadResetsCost(a, o);
      AtCost(Opening(a), mark, o.marketPrice);
    } else {
      UnpricedPass(a, o);
    }
  }

  lemma SameLoss(input: Input)
    ensures Lost(input) == Lost(input.(current := Normalize(input.current)))
  {
    SameTarget(input, Normalize(input.current));
  }

  lemma ShownIsOpenProfit(input: Input)
    requires Price(input) > EPS
    ensures Reconcile(input).unrealized == UnrealizedPnl(Reconcile(input).final, Price(input))
  {
    hide UnrealizedPnl;
  }

  lemma AtCost(p: Position, mark: real, price: real)
    requires p.side == Flat || p.avgPrice == mark
    ensures UnrealizedPnl(p, price) == HoldingGain(p, mark, price)
  {
    HoldingIsProfit(p, mark, price);
    FlatEarnsNothing(p.quantity, mark, price);
  }

  /** Over every run of passes, priced or not, recorded realized profit plus all the open profit shown along the
      way, not only the last, accounts for the market gain seen. */
  lemma {:induction false} StoredRun(a: Account, mark: real, orders: seq<Order>)
    requires Opening(a).side == Flat || Opening(a).avgPrice == mark
    ensures AfterAll(a, orders).realized - a.realized + ShownProfit(a, orders)
         == StoredMarketGain(a, mark, orders) - StoredLoss(a, orders)
    decreases |orders|
  {
    hide ReconcileAccount, LostProfit, SeenGain, Loaded;
    if orders != [] {
      StoredPass(a, mark, orders[0]);
      StoredRun(ReconcileAccount(a, orders[0]), orders[0].marketPrice, orders[1..]);
    }
  }

  lemma {:induction false} ShownRunIsCarried(a: Account, mark: real, orders: seq<Order>)
    requires StoreSettings(orders)
    requires Opening(a).side == Flat || Opening(a).avgPrice == mark
    ensures ShownProfit(a, orders) == CarriedGain(Opening(a), mark, orders)
    decreases |orders|
  {
    hide ReconcileAccount, Loaded, Carried, FullyFilled, RealizedPnl, Normalize;
    if orders != [] {
      var o := orders[0];
      assert o in orders;
      ShownIsCarried(a, mark, o);
      ReloadFollows(a, o);
      ShownRunIsCarried(ReconcileAccount(a, o), o.marketPrice, orders[1..]);
    }
  }

  /** So the sleeve's books (realized total plus the last open profit) balance exactly when the price moves of the
      shares carried through all earlier passes cancel: that much is forgotten by resetting the cost basis. */
  lemma StoredBooksBalanceIff(a: Account, mark: real, orders: seq<Order>)
    requires StoreSettings(orders) && orders != []
    requires Opening(a).side == Flat || Opening(a).avgPrice == mark
    ensures var end := AfterAll(a, orders);
            end.realized - a.realized + end.unrealized
              == StoredMarketGain(a, mark, orders) - StoredLoss(a, orders)
            <==> CarriedGain(Opening(a), mark, orders[..|orders| - 1]) == 0.0
  {
    hide ReconcileAccount, StoredMarketGain, StoredLoss, CarriedGain, ShownProfit, AfterAll, Opening;
    StoredRun(a, mark, orders);
    ShownSplitsLast(a, orders);
    ShownRunIsCarried(a, mark, orders[..|orders| - 1]);
  }

  /** Buy 10 at 100, resize to 15 at 120, hold: the market gave 200, and the books end with nothing. */
  lemma BooksExample()
    ensures var orders := [Order(Long, 1000.0, 100.0, 0, DEFAULT_CONFIG), Order(Long, 1800.0, 120.0, 1, DEFAULT_CONFIG),
                           Order(Long, 1800.0, 120.0, 2, DEFAULT_CONFIG)];
            var end := AfterAll(EMPTY_ACCOUNT, orders);
            && end.realized == 0.0 && end.unrealized == 0.0
            && StoredMarketGain(EMPTY_ACCOUNT, 100.0, orders) == 200.0
  {
    hide ReconcileAccount, TargetQuantity, AverageCost;
    var buy := Order(Long, 1000.0, 100.0, 0, DEFAULT_CONFIG);
    var resize := Order(Long, 1800.0, 120.0, 1, DEFAULT_CONFIG);
    var hold := resize.(now := 2);
    var first := ReconcileAccount(EMPTY_ACCOUNT, buy);
    var second := ReconcileAccount(first, resize);
    var third := ReconcileAccount(second, hold);
    ReloadFollows(EMPTY_ACCOUNT, buy);
    ExampleTarget(FLAT_POSITION, buy, 10.0);
    assert Opening(first) == Position(Long, 10.0, 100.0);
    ReloadFollows(first, resize);
    ExampleTarget(Opening(first), resize, 15.0);
    assert Opening(second) == Position(Long, 15.0, 120.0);
    ExampleTarget(Opening(second), hold, 15.0);
    BuyAndHoldRealizesNothing(EMPTY_ACCOUNT, buy);
    BuyAndHoldRealizesNothing(first, resize);
    BuyAndHoldRealizesNothing(second, hold);
    ShownIsCarried(second, 120.0, hold);
    var orders := [buy, resize, hold];
    assert orders[1..] == [resize, hold] && [resize, hold][1..] == [hold] && [hold][1..] == [];
    assert AfterAll(second, [hold]) == third && AfterAll(first, [resize, hold]) == AfterAll(second, [hold]);
    assert StoredMarketGain(second, 120.0, [hold]) == 0.0;
    assert StoredMarketGain(first, 100.0, [resize, hold]) == 200.0;
  }

  lemma ExampleTarget(c: Position, o: Order, quantity: real)
    requires o.targetSide == Long && o.marketPrice > EPS && o.targetNotional == quantity * o.marketPrice
    requires quantity >= 0.0
    ensures Wanted(c, o) == quantity
  {
    MulMonotone(0.0, quantity, o.marketPrice);
    DivCancels(quantity, o.marketPrice);
  }

  /** A long sleeve that is not reduced realizes nothing. */
  lemma BuyAndHoldRealizesNothing(a: Account, o: Order)
    requires o.targetSide == Long && Opening(a).side != Short && Opening(a).quantity <= Wanted(Opening(a), o)
    requires o.marketPrice > EPS
    ensures ReconcileAccount(a, o).realized == a.realized
  {
    hide TargetQuantity, AverageCost, UnrealizedPnl, Portion;
    SamePass(a, o);
    var c, input := Opening(a), PassInput(Opening(a), o);
    var legs := BuildLegs(c, Long, Wanted(c, o));
    if Trades(input) && legs != [] {
      assert legs == [legs[0]];
      OneLegPass(input, legs[0]);
    }
  }

  lemma {:induction false} ShownSplitsLast(a: Account, orders: seq<Order>)
    requires orders != []
    ensures ShownProfit(a, orders) == ShownProfit(a, orders[..|orders| - 1]) + AfterAll(a, orders).unrealized
    decreases |orders|
  {
    hide ReconcileAccount;
    if |orders| > 1 {
      ShownSplitsLast(ReconcileAccount(a, orders[0]), orders[1..]);
      assert orders[..|orders| - 1][1..] == orders[1..][..|orders| - 2];
    }
  }

  // ---------- capital ----------

  lemma StoredNotional(a: Account, o: Order)
    ensures ReconcileAccount(a, o).notional == After(Loaded(a), o).quantity * o.marketPrice
  {
  }

  lemma PricedNotional(a: Account, o: Order)
    requires o.config == DEFAULT_CONFIG && o.marketPrice > EPS
    ensures ReconcileAccount(a, o).notional <= Max(o.targetNotional, 0.0) + EPS * o.marketPrice
  {
    hide Reconcile, ReconcileAccount, TargetQuantity, Loaded, Max;
    var input := PassInput(Loaded(a), o);
    StoredNotional(a, o);
    PricedIsTrading(Loaded(a), o);
    PassWellFormed(input);
    FullFillReaches(input);
    TargetCost(input);
    ScaledBound(After(Loaded(a), o).quantity, TargetQuantity(input), o.marketPrice, Max(o.targetNotional, 0.0));
  }

  lemma PricedIsTrading(c: Position, o: Order)
    requires o.config == DEFAULT_CONFIG && o.marketPrice > EPS
    ensures Trades(PassInput(c, o)) && Price(PassInput(c, o)) == o.marketPrice
  {
  }

  lemma UnpricedNotional(a: Account, o: Order)
    requires o.marketPrice <= EPS
    ensures ReconcileAccount(a, o).notional <= Max(a.notional, 0.0)
  {
    hide Reconcile, ReconcileAccount;
    BlockedPassKeeps(PassInput(Loaded(a), o));
    StoredNotional(a, o);
    if Opening(a).side != Flat {
      CheaperMark(a.notional, a.quantity, o.marketPrice);
    }
  }

  /** With default settings a pass leaves at most the target marked notional, within EPS shares, or no
      more than the sleeve carried before. */
  lemma NotionalBound(a: Account, o: Order)
    requires o.config == DEFAULT_CONFIG
    ensures ReconcileAccount(a, o).notional
         <= Max(a.notional, Max(o.targetNotional, 0.0) + EPS * Max(o.marketPrice, 0.0))
  {
    hide ReconcileAccount;
    if o.marketPrice > EPS {
      PricedNotional(a, o);
    } else {
      UnpricedNotional(a, o);
    }
  }

  lemma CheaperMark(notional: real, quantity: real, price: real)
    requires quantity > 0.0 && price <= notional / quantity
    ensures quantity * price <= notional
  {
    DivCancels(notional, quantity);
    MulMonotone(price, notional / quantity, quantity);
  }

  lemma TargetCost(input: Input)
    ensures TargetQuantity(input) * Price(input) <= Max(input.targetNotional, 0.0)
  {
    var price := Price(input);
    if input.targetSide != Flat && price > EPS {
      DivCancels(Max(input.targetNotional, 0.0), price);
    }
  }

  lemma ScaledBound(quantity: real, target: real, price: real, notional: real)
    requires 0.0 <= quantity && Abs(quantity - target) <= EPS && price > 0.0 && target * price <= notional
    ensures 0.0 <= quantity * price <= notional + EPS * price
  {
    MulMonotone(quantity, target + EPS, price);
  }

  lemma BlockedPassKeeps(input: Input)
    requires Price(input) <= EPS
    ensures Reconcile(input).final == Normalize(input.current)
  {
  }
}
