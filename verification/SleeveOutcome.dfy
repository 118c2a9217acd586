/** What one stored pass does to a sleeve's account, from the account's own columns and the order. */
module SleeveOutcome {
  import opened Numeric
  import opened Simulator
  import opened SimulatorRuns
  import opened SimulatorOutcome
  import opened Sleeve

  /** Cost per share, as the columns give it. */
  function CostOf(a: Account): real {
    if a.quantity > EPS then a.notional / a.quantity else 0.0
  }

  /** The account is taken to hold something: more than dust, at a cost above it. */
  predicate Holds(a: Account) {
    a.side != Flat && a.quantity > EPS && CostOf(a) > EPS
  }

  function HeldShares(a: Account): real {
    if Holds(a) then a.quantity else 0.0
  }

  function HeldSide(a: Account): Side {
    if Holds(a) then a.side else Flat
  }

  /** The wanted number of shares. */
  function Shares(o: Order): real {
    if o.targetSide == Flat || o.marketPrice <= EPS || o.targetNotional <= 0.0 then 0.0
    else o.targetNotional / o.marketPrice
  }

  /** Shares the pass closes: all when the side changes, else what exceeds the wanted number by more than EPS. */
  function ClosedShares(a: Account, o: Order): real {
    if o.marketPrice <= EPS then 0.0
    else if HeldSide(a) != o.targetSide then HeldShares(a)
    else if HeldShares(a) - Shares(o) > EPS then HeldShares(a) - Shares(o) else 0.0
  }

  /** The order already stands: the side matches and the shares are within EPS. */
  predicate Stands(a: Account, o: Order) {
    HeldSide(a) == o.targetSide && Abs(HeldShares(a) - Shares(o)) <= EPS
  }

  lemma HeldIsOpening(a: Account, o: Order)
    ensures var p := Held(PassInput(Loaded(a), o));
            p.side == HeldSide(a) && p.quantity == HeldShares(a) && (Holds(a) ==> p.avgPrice == CostOf(a))
  {
  }

  lemma DefaultFills(a: Account, o: Order)
    requires o.config == DEFAULT_CONFIG
    ensures var input := PassInput(Loaded(a), o);
            && Filling(input) == 1.0 && (Sends(input) <==> o.marketPrice > EPS) && Aim(input) == Shares(o)
  {
    IncidentIff(PassInput(Loaded(a), o));
  }

  lemma ByOne(x: real)
    ensures x * 1.0 == x
  {
  }

  /** With the store's settings a pass leaves the wanted side and number of shares, or what stands within EPS of them,
      or nothing when only dust is wanted; without a price it leaves what was held. Their worth at the market is the
      stored notional. */
  lemma StoredHolding(a: Account, o: Order)
    requires o.config == DEFAULT_CONFIG
    ensures var next := ReconcileAccount(a, o);
            && next.notional == next.quantity * o.marketPrice
            && if o.marketPrice <= EPS || Stands(a, o) then
                 next.side == HeldSide(a) && next.quantity == HeldShares(a)
               else if Shares(o) <= EPS then next.side == Flat && next.quantity == 0.0
               else next.side == o.targetSide && next.quantity == Shares(o)
  {
    hide Reconcile, Held, Aim, CostOf, Filling, Sends, Loaded, Shares;
    var input := PassInput(Loaded(a), o);
    DefaultFills(a, o);
    HeldIsOpening(a, o);
    PassEnds(input);
    ByOne(ToClose(input));
    ByOne(ToOpen(input));
    SharesWanted(o);
  }

  lemma SharesWanted(o: Order)
    ensures Shares(o) >= 0.0 && (o.targetSide == Flat ==> Shares(o) == 0.0)
  {
    if o.targetNotional > 0.0 && o.marketPrice > EPS {
      DivCancels(o.targetNotional, o.marketPrice);
    }
  }

  /** Realized profit grows by the gain over cost on exactly the shares closed. */
  lemma StoredProfit(a: Account, o: Order)
    requires o.config == DEFAULT_CONFIG
    ensures ReconcileAccount(a, o).realized
         == a.realized + if ClosedShares(a, o) > EPS
                         then Gain(a.side, CostOf(a), o.marketPrice) * ClosedShares(a, o) else 0.0
  {
    hide Reconcile, Held, Aim, CostOf, Filling, Sends, Loaded, Shares, Gain;
    var input := PassInput(Loaded(a), o);
    DefaultFills(a, o);
    HeldIsOpening(a, o);
    ByOne(ToClose(input));
    ClosedIs(input);
    SharesWanted(o);
    if Sends(input) {
      PassDoes(input);
    } else {
      SilentPass(input);
    }
  }

  lemma ClosedIs(input: Input)
    ensures Closed(input) == ToClose(input) * Filling(input)
    ensures var p := Held(input);
            ClosingRecord(input).realized == Gain(p.side, p.avgPrice, input.marketPrice) * Closed(input)
  {
    hide ToClose, Filling, Gain, Held;
  }
}
