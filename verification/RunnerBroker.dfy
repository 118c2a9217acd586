/** The digital broker's rows and the sleeves that share them: every row covers its sleeves, so no closing fill ever
    finds its row missing, and while every pass has a price a row exceeds its sleeves by dust alone. */
module RunnerBroker {
  import opened Numeric
  import opened Wrappers
  import opened Permutations
  import opened Simulator
  import opened SimulatorPass
  import opened SimulatorRuns
  import opened Sleeve
  import opened BrokerBook
  import opened Strategy
  import opened Runner
  import opened RunnerSafety

  // ---------- the shares sleeves hold ----------

  /** A sleeve's stored shares of one symbol on one side. */
  function Share(s: StrategySleeve, symbol: string, side: Side): real {
    if s.symbol == symbol && s.account.side == side && side != Flat then s.account.quantity else 0.0
  }

  function Held(sleeves: seq<StrategySleeve>, symbol: string, side: Side): real {
    if sleeves == [] then 0.0 else Share(sleeves[0], symbol, side) + Held(sleeves[1..], symbol, side)
  }

  /** A stored account is flat and empty, or holds more than dust. */
  predicate AccountFormed(a: Account) {
    if a.side == Flat then a.quantity == 0.0 else a.quantity > EPS
  }

  predicate AccountsFormed(sleeves: seq<StrategySleeve>) {
    forall s <- sleeves :: AccountFormed(s.account)
  }

  lemma {:induction false} HeldSplits(sleeves: seq<StrategySleeve>, i: nat, symbol: string, side: Side)
    requires i < |sleeves|
    ensures Held(sleeves, symbol, side) == Share(sleeves[i], symbol, side) + Held(Without(sleeves, i), symbol, side)
  {
    if i == 0 {
      assert Without(sleeves, 0) == sleeves[1..];
    } else {
      HeldSplits(sleeves[1..], i - 1, symbol, side);
      assert Without(sleeves, i) == [sleeves[0]] + Without(sleeves[1..], i - 1);
    }
  }

  lemma HeldAfterUpdate(sleeves: seq<StrategySleeve>, i: nat, row: StrategySleeve, symbol: string, side: Side)
    requires i < |sleeves|
    ensures Held(sleeves[i := row], symbol, side) == Share(row, symbol, side) + Held(Without(sleeves, i), symbol, side)
  {
    HeldSplits(sleeves[i := row], i, symbol, side);
    assert Without(sleeves[i := row], i) == Without(sleeves, i);
  }

  lemma HeldAfterInsert(sleeves: seq<StrategySleeve>, row: StrategySleeve, symbol: string, side: Side)
    ensures Held(sleeves + [row], symbol, side) == Share(row, symbol, side) + Held(sleeves, symbol, side)
  {
    HeldSplits(sleeves + [row], |sleeves|, symbol, side);
    assert Without(sleeves + [row], |sleeves|) == sleeves;
  }

  /** Sleeves hold nothing or more than dust, so together they do too. */
  lemma {:induction false} HeldIsSound(sleeves: seq<StrategySleeve>, symbol: string, side: Side)
    requires AccountsFormed(sleeves)
    ensures SoundTotal(Held(sleeves, symbol, side))
  {
    if sleeves != [] {
      assert AccountFormed(sleeves[0].account);
      HeldIsSound(sleeves[1..], symbol, side);
    }
  }

  // ---------- the invariant ----------

  /** Every open row covers the sleeves that share it. */
  ghost predicate RowsCover(store: Store) {
    && RowsOpen(store.broker) && AccountsFormed(store.sleeves)
    && forall symbol: string, side: Side ::
         RowQty(store.broker, symbol, side) >= Held(store.sleeves, symbol, side)
  }

  function Excess(store: Store, symbol: string, side: Side): real {
    RowQty(store.broker, symbol, side) - Held(store.sleeves, symbol, side)
  }

  /** The next pass of this sleeve opens with what is stored. */
  predicate Remembered(s: StrategySleeve) {
    Opening(s.account).side == s.account.side && Opening(s.account).quantity == s.account.quantity
  }

  predicate AllRemembered(sleeves: seq<StrategySleeve>) {
    forall s <- sleeves :: Remembered(s)
  }

  /** Shares the next pass of a sleeve no longer knows of. */
  function Forgotten(s: StrategySleeve, symbol: string, side: Side): real {
    Share(s, symbol, side) - if s.symbol == symbol then OnSide(Opening(s.account), side) else 0.0
  }

  // ---------- writing a desired position ----------

  lemma WriteKeepsHeld(store: Store, c: Candidate, decision: StrategyDecision, ob: Observation, symbol: string,
                       side: Side)
    requires decision.targetSide.Some?
    ensures Held(WriteDesired(store, c, decision, ob).sleeves, symbol, side) == Held(store.sleeves, symbol, side)
  {
    var next := WriteDesired(store, c, decision, ob).sleeves;
    var id := OpenSleeve(store.sleeves, c.permission.permissionId);
    if id.Some? {
      HeldSplits(store.sleeves, id.value, symbol, side);
      HeldAfterUpdate(store.sleeves, id.value, next[id.value], symbol, side);
    } else {
      HeldAfterInsert(store.sleeves, next[|store.sleeves|], symbol, side);
    }
  }

  lemma WriteKeepsSleeves(store: Store, c: Candidate, decision: StrategyDecision, ob: Observation)
    requires decision.targetSide.Some? && AccountsFormed(store.sleeves)
    ensures AccountsFormed(WriteDesired(store, c, decision, ob).sleeves)
    ensures AllRemembered(store.sleeves) ==> AllRemembered(WriteDesired(store, c, decision, ob).sleeves)
  {
    hide Opening;
    var next := WriteDesired(store, c, decision, ob).sleeves;
    EmptyIsRemembered();
    forall s | s in next
      ensures AccountFormed(s.account) && (AllRemembered(store.sleeves) ==> Remembered(s))
    {
      var k :| 0 <= k < |next| && next[k] == s;
      if k < |store.sleeves| {
        assert store.sleeves[k] in store.sleeves && s.account == store.sleeves[k].account;
      }
    }
  }

  lemma EmptyIsRemembered()
    ensures Opening(EMPTY_ACCOUNT) == FLAT_POSITION && AccountFormed(EMPTY_ACCOUNT)
  {
  }

  lemma WriteKeepsCover(store: Store, c: Candidate, decision: StrategyDecision, ob: Observation)
    requires decision.targetSide.Some? && RowsCover(store)
    ensures RowsCover(WriteDesired(store, c, decision, ob))
  {
    var next := WriteDesired(store, c, decision, ob);
    WriteKeepsSleeves(store, c, decision, ob);
    forall symbol: string, side: Side
      ensures RowQty(next.broker, symbol, side) >= Held(next.sleeves, symbol, side)
    {
      WriteKeepsHeld(store, c, decision, ob, symbol, side);
    }
  }

  // ---------- reconciling one sleeve ----------

  /** The store after the sleeve at `at` is reconciled by an order. */
  function SleeveReconciled(store: Store, at: nat, o: Order): Store
    requires at < |store.sleeves|
  {
    var s := store.sleeves[at];
    store.(sleeves := store.sleeves[at := s.(account := ReconcileAccount(s.account, o))],
           broker := BookFills(store.broker, s.symbol, Reconcile(PassInput(Loaded(s.account), o)).fills))
  }

  lemma OpeningWithinShare(s: StrategySleeve, side: Side)
    requires AccountFormed(s.account)
    ensures WellFormed(Opening(s.account))
    ensures 0.0 <= OnSide(Opening(s.account), side) <= Share(s, s.symbol, side)
  {
  }

  lemma StoredShare(s: StrategySleeve, o: Order, side: Side)
    ensures var final := Reconcile(PassInput(Loaded(s.account), o)).final;
            Share(s.(account := ReconcileAccount(s.account, o)), s.symbol, side) == OnSide(final, side)
    ensures AccountFormed(ReconcileAccount(s.account, o))
  {
    hide Reconcile;
    PassWellFormed(PassInput(Loaded(s.account), o));
  }

  /** On the sleeve's own symbol. */
  lemma OwnRowCovers(store: Store, at: nat, o: Order, side: Side)
    requires RowsCover(store) && at < |store.sleeves| && o.config == DEFAULT_CONFIG
    ensures var next, s := SleeveReconciled(store, at, o), store.sleeves[at];
            && RowsOpen(next.broker) && next.broker.missing == store.broker.missing
            && 0.0 <= Excess(next, s.symbol, side)
                   <= Excess(store, s.symbol, side) + Forgotten(s, s.symbol, side) + EPS
  {
    hide RowQty, RowsOpen, Held, Share, Reconcile, ReconcileAccount, BookFills, OnSide, Opening, AccountFormed, Loaded;
    var s, next := store.sleeves[at], SleeveReconciled(store, at, o);
    var c, others := Opening(s.account), Held(Without(store.sleeves, at), s.symbol, side);
    assert s in store.sleeves;
    OpeningWithinShare(s, side);
    OpeningWithinShare(s, c.side);
    HeldSplits(store.sleeves, at, s.symbol, side);
    HeldSplits(store.sleeves, at, s.symbol, c.side);
    OthersSound(store, at, s.symbol, side);
    OthersSound(store, at, s.symbol, c.side);
    SamePass(s.account, o);
    PassTracks(store.broker, s.symbol, c, o, side, others);
    StoredShare(s, o, side);
    HeldAfterUpdate(store.sleeves, at, next.sleeves[at], s.symbol, side);
  }

  lemma OthersSound(store: Store, at: nat, symbol: string, side: Side)
    requires AccountsFormed(store.sleeves) && at < |store.sleeves|
    ensures SoundTotal(Held(Without(store.sleeves, at), symbol, side))
    ensures Held(Without(store.sleeves, at), symbol, side) >= 0.0
  {
    hide AccountFormed;
    var rest := Without(store.sleeves, at);
    forall s | s in rest ensures AccountFormed(s.account) {
      assert s in store.sleeves;
    }
    HeldIsSound(rest, symbol, side);
  }

  lemma OtherRowKept(store: Store, at: nat, o: Order, symbol: string, side: Side)
    requires at < |store.sleeves| && symbol != store.sleeves[at].symbol
    ensures Excess(SleeveReconciled(store, at, o), symbol, side) == Excess(store, symbol, side)
  {
    hide RowQty, Reconcile, ReconcileAccount, BookFills, Held, Loaded;
    var s, next := store.sleeves[at], SleeveReconciled(store, at, o);
    OtherSymbolsKept(store.broker, s.symbol, Reconcile(PassInput(Loaded(s.account), o)).fills, symbol, side);
    HeldSplits(store.sleeves, at, symbol, side);
    HeldAfterUpdate(store.sleeves, at, next.sleeves[at], symbol, side);
  }

  lemma ReconciledSleeves(store: Store, at: nat, o: Order)
    requires at < |store.sleeves| && AccountsFormed(store.sleeves)
    ensures var next := SleeveReconciled(store, at, o).sleeves;
            AccountsFormed(next) && (AllRemembered(store.sleeves) && o.marketPrice > EPS ==> AllRemembered(next))
  {
    hide AccountFormed, Remembered, ReconcileAccount, Reconcile, BookFills, Loaded;
    var s, next := store.sleeves[at], SleeveReconciled(store, at, o).sleeves;
    StoredShare(s, o, Long);
    if o.marketPrice > EPS {
      PricedIsRemembered(s, o);
    }
    forall t | t in next
      ensures AccountFormed(t.account) && (AllRemembered(store.sleeves) && o.marketPrice > EPS ==> Remembered(t))
    {
      var k :| 0 <= k < |next| && next[k] == t;
      assert k != at ==> t in store.sleeves;
    }
  }

  lemma PricedIsRemembered(s: StrategySleeve, o: Order)
    requires o.marketPrice > EPS
    ensures Remembered(s.(account := ReconcileAccount(s.account, o)))
  {
    hide Reconcile, Opening;
    ReloadResetsCost(s.account, o);
    PassWellFormed(PassInput(Loaded(s.account), o));
  }

  /** Reconciling any sleeve, priced or not: rows still cover, and no fill finds its row missing. */
  lemma ReconcileKeepsCover(store: Store, at: nat, o: Order)
    requires RowsCover(store) && at < |store.sleeves| && o.config == DEFAULT_CONFIG
    ensures var next := SleeveReconciled(store, at, o);
            RowsCover(next) && next.broker.missing == store.broker.missing
  {
    hide RowQty, Held, RowsOpen, AccountsFormed, SleeveReconciled, Forgotten;
    var next := SleeveReconciled(store, at, o);
    ReconciledSleeves(store, at, o);
    OwnRowCovers(store, at, o, Long);
    forall symbol: string, side: Side
      ensures RowQty(next.broker, symbol, side) >= Held(next.sleeves, symbol, side)
    {
      if symbol == store.sleeves[at].symbol {
        OwnRowCovers(store, at, o, side);
      } else {
        OtherRowKept(store, at, o, symbol, side);
      }
    }
  }

  lemma ReconcileSheds(store: Store, at: nat, o: Order, symbol: string, side: Side)
    requires RowsCover(store) && at < |store.sleeves| && o.config == DEFAULT_CONFIG && AllRemembered(store.sleeves)
    ensures Excess(SleeveReconciled(store, at, o), symbol, side) <= Excess(store, symbol, side) + EPS
  {
    hide RowQty, Held, RowsOpen, AccountsFormed, SleeveReconciled, Excess;
    if symbol == store.sleeves[at].symbol {
      OwnRowCovers(store, at, o, side);
      assert store.sleeves[at] in store.sleeves;
    } else {
      OtherRowKept(store, at, o, symbol, side);
    }
  }

  // ---------- steps, passes and runs ----------

  lemma EmissionIsReconciliation(store: Store, registry: map<int, string>, c: Candidate, decision: StrategyDecision,
                                 ob: Observation)
    requires StoreInvariant(store, registry) && decision.targetSide.Some?
    ensures var written := WriteDesired(store, c, decision, ob);
            var at := OpenSleeve(written.sleeves, c.permission.permissionId);
            && at.Some? && 0 <= at.value < |written.sleeves|
            && Emitted(store, c, decision, ob, Uninterrupted)
               == SleeveReconciled(written, at.value, OrderOf(decision, ob))
                  .(reconciled := store.reconciled + {|store.desired|})
  {
    hide OpenSleeve, Reconcile, ReconcileAccount, BookFills, NoRepeats, SleevesOwned, TargetNotional, Worth;
    WorthIs(decision, ob);
    OpenSleeveAfterWrite(store, registry, c, decision, ob);
    NewestIsOpen(store, registry);
  }

  lemma EmissionKeepsCover(store: Store, registry: map<int, string>, c: Candidate, decision: StrategyDecision,
                           ob: Observation, i: Interruption)
    requires StoreInvariant(store, registry) && decision.targetSide.Some? && RowsCover(store)
    ensures var next := Emitted(store, c, decision, ob, i);
            RowsCover(next) && next.broker.missing == store.broker.missing
  {
    hide StoreInvariant, SleeveReconciled, ReconcileNewest, OpenSleeve, Held, RowQty;
    var written := WriteDesired(store, c, decision, ob);
    WriteKeepsCover(store, c, decision, ob);
    if i != AfterWriting {
      EmissionIsReconciliation(store, registry, c, decision, ob);
      var at := OpenSleeve(written.sleeves, c.permission.permissionId).value;
      ReconcileKeepsCover(written, at, OrderOf(decision, ob));
    }
  }

  lemma EmissionSheds(store: Store, registry: map<int, string>, c: Candidate, decision: StrategyDecision,
                      ob: Observation, i: Interruption, symbol: string, side: Side)
    requires StoreInvariant(store, registry) && decision.targetSide.Some? && RowsCover(store)
    requires AllRemembered(store.sleeves) && ob.price > EPS
    ensures var next := Emitted(store, c, decision, ob, i);
            AllRemembered(next.sleeves) && Excess(next, symbol, side) <= Excess(store, symbol, side) + EPS
  {
    hide StoreInvariant, ReconcileNewest, OpenSleeve, Held, RowQty, ReconcileAccount, BookFills, AllRemembered,
      AccountsFormed;
    var written := WriteDesired(store, c, decision, ob);
    WriteKeepsCover(store, c, decision, ob);
    WriteKeepsSleeves(store, c, decision, ob);
    WriteKeepsHeld(store, c, decision, ob, symbol, side);
    if i != AfterWriting {
      EmissionIsReconciliation(store, registry, c, decision, ob);
      var at := OpenSleeve(written.sleeves, c.permission.permissionId).value;
      ReconcileSheds(written, at, OrderOf(decision, ob), symbol, side);
      ReconciledSleeves(written, at, OrderOf(decision, ob));
    }
  }

  lemma StepKeepsCover(store: Store, registry: map<int, string>, latest: Option<Latest>, c: Candidate, ob: Observation,
                       i: Interruption)
    requires StoreInvariant(store, registry) && RowsCover(store)
    ensures var next := Stepped(store, latest, c, ob, i).0;
            RowsCover(next) && next.broker.missing == store.broker.missing
  {
    hide StoreInvariant, Stepped, DecisionFor, Appends, Emitted, RowsCover, GateOpen;
    StepEffect(store, registry, latest, c, ob, i);
    if Appends(store, latest, c, ob, i) {
      EmissionKeepsCover(store, registry, c, DecisionFor(latest, c, ob), ob, i);
    }
  }

  lemma StepSheds(store: Store, registry: map<int, string>, latest: Option<Latest>, c: Candidate, ob: Observation,
                  i: Interruption, symbol: string, side: Side)
    requires StoreInvariant(store, registry) && RowsCover(store) && AllRemembered(store.sleeves) && ob.price > EPS
    ensures var next := Stepped(store, latest, c, ob, i).0;
            && AllRemembered(next.sleeves)
            && Excess(next, symbol, side)
               <= Excess(store, symbol, side) + if Appends(store, latest, c, ob, i) then EPS else 0.0
  {
    hide StoreInvariant, Stepped, DecisionFor, Appends, Emitted, RowsCover, GateOpen, Excess, AllRemembered;
    StepEffect(store, registry, latest, c, ob, i);
    if Appends(store, latest, c, ob, i) {
      EmissionSheds(store, registry, c, DecisionFor(latest, c, ob), ob, i, symbol, side);
    }
  }

  lemma {:induction false} PassKeepsCover(store: Store, registry: map<int, string>, work: seq<Work>, k: nat)
    requires StoreInvariant(store, registry) && ValidPass(work, registry) && k <= |work| && RowsCover(store)
    ensures var next := Reached(store, work, k);
            RowsCover(next) && next.broker.missing == store.broker.missing
    decreases k
  {
    hide StoreInvariant, Stepped, StepPass, PassAt, DistinctPermissions, AllRegistered, RowsCover, LatestOf;
    if k == 0 {
      PassAtStart(store, work);
    } else {
      var p, w := PassAt(store, work, k - 1), work[k - 1];
      PassKeepsCover(store, registry, work, k - 1);
      PassKeepsInvariant(store, registry, work, k - 1);
      PassAtNext(store, work, k - 1);
      StepPassIs(p, store.desired, w);
      StepKeepsCover(p.store, registry, LatestOf(store.desired, w.candidate.permission.permissionId), w.candidate,
                     w.observation, w.interruption);
    }
  }

  /** Over any number of passes, some cut short and with or without prices, every row of the digital broker covers the
      sleeves that share it, so a closing fill never finds its row missing. */
  lemma {:induction false} RunsKeepCover(store: Store, registry: map<int, string>, passes: seq<seq<Work>>)
    requires StoreInvariant(store, registry) && RowsCover(store)
    requires forall work <- passes :: ValidPass(work, registry)
    ensures var end := AfterPasses(store, passes);
            RowsCover(end) && end.broker.missing == store.broker.missing
    decreases |passes|
  {
    hide StoreInvariant, PassAt, ValidPass, RowsCover;
    if passes != [] {
      var work := passes[0];
      assert work in passes;
      AfterPassKeeps(store, registry, work);
      PassKeepsCover(store, registry, work, |work|);
      RunsKeepCover(AfterPass(store, work), registry, passes[1..]);
    }
  }

  lemma EmptyCovers()
    ensures RowsCover(EMPTY_STORE) && AllRemembered(EMPTY_STORE.sleeves)
  {
  }

  /** So from an empty store no run ever reports a missing broker position. */
  lemma NeverMissing(registry: map<int, string>, passes: seq<seq<Work>>)
    requires forall work <- passes :: ValidPass(work, registry)
    ensures AfterPasses(EMPTY_STORE, passes).broker.missing == 0
  {
    hide ValidPass, AfterPasses;
    EmptyCovers();
    RunsKeepCover(EMPTY_STORE, registry, passes);
  }

  predicate PricedWork(work: seq<Work>) {
    forall w <- work :: w.observation.price > EPS
  }

  /** Dust the first k candidates may shed: EPS for every row they append. */
  function DustSlack(store: Store, work: seq<Work>, k: nat): real
    requires k <= |work|
  {
    if k == 0 then 0.0 else DustSlack(store, work, k - 1) + if AppendsAt(store, work, k - 1) then EPS else 0.0
  }

  lemma {:induction false} PassSheds(store: Store, registry: map<int, string>, work: seq<Work>, k: nat, symbol: string,
                                     side: Side)
    requires StoreInvariant(store, registry) && ValidPass(work, registry) && k <= |work| && RowsCover(store)
    requires AllRemembered(store.sleeves) && PricedWork(work)
    ensures var next := Reached(store, work, k);
            && AllRemembered(next.sleeves)
            && Excess(next, symbol, side) <= Excess(store, symbol, side) + DustSlack(store, work, k)
    decreases k
  {
    hide StoreInvariant, Stepped, StepPass, PassAt, DistinctPermissions, AllRegistered, RowsCover, LatestOf, Excess,
      AllRemembered, Appends;
    if k == 0 {
      PassAtStart(store, work);
    } else {
      var p, w := PassAt(store, work, k - 1), work[k - 1];
      PassSheds(store, registry, work, k - 1, symbol, side);
      PassKeepsInvariant(store, registry, work, k - 1);
      PassKeepsCover(store, registry, work, k - 1);
      PassAtNext(store, work, k - 1);
      StepPassIs(p, store.desired, w);
      assert w in work;
      StepSheds(p.store, registry, LatestOf(store.desired, w.candidate.permission.permissionId), w.candidate,
                w.observation, w.interruption, symbol, side);
    }
  }

  function RunDustSlack(store: Store, passes: seq<seq<Work>>): real
    decreases |passes|
  {
    if passes == [] then 0.0
    else DustSlack(store, passes[0], |passes[0]|) + RunDustSlack(AfterPass(store, passes[0]), passes[1..])
  }

  lemma CoverIsExcess(store: Store, symbol: string, side: Side)
    requires RowsCover(store)
    ensures Excess(store, symbol, side) >= 0.0
  {
  }

  /** While every pass has a price, a row equals the sum of its sleeves up to the dust dropped: it exceeds them by at
      most EPS for every emission. */
  lemma {:induction false} RowsEqualSleevesUpToDust(store: Store, registry: map<int, string>, passes: seq<seq<Work>>,
                                                    symbol: string, side: Side)
    requires StoreInvariant(store, registry) && RowsCover(store) && AllRemembered(store.sleeves)
    requires forall work <- passes :: ValidPass(work, registry) && PricedWork(work)
    ensures 0.0 <= Excess(AfterPasses(store, passes), symbol, side)
                <= Excess(store, symbol, side) + RunDustSlack(store, passes)
    decreases |passes|
  {
    hide StoreInvariant, PassAt, ValidPass, RowsCover, AllRemembered, PricedWork, Excess, DustSlack;
    if passes == [] {
      CoverIsExcess(store, symbol, side);
    } else {
      var work := passes[0];
      assert work in passes;
      AfterPassKeeps(store, registry, work);
      PassKeepsCover(store, registry, work, |work|);
      PassSheds(store, registry, work, |work|, symbol, side);
      RowsEqualSleevesUpToDust(AfterPass(store, work), registry, passes[1..], symbol, side);
    }
  }

  // ---------- a row that exceeds its sleeve ----------

  const PHANTOM_SLEEVE := StrategySleeve(Some(1), "ACME", "active", 1000.0, EMPTY_ACCOUNT)
  const BUY := Order(Long, 1000.0, 100.0, 0, DEFAULT_CONFIG)
  const UNPRICED := BUY.(marketPrice := 0.0)

  /** The table has one sleeve, with so many long shares. */
  predicate OneSleeve(store: Store, quantity: real) {
    && |store.sleeves| == 1 && store.sleeves[0].symbol == "ACME"
    && store.sleeves[0].account.side == (if quantity == 0.0 then Flat else Long)
    && store.sleeves[0].account.quantity == quantity
  }

  lemma BuysTen(store: Store, quantity: real)
    requires OneSleeve(store, quantity) && Opening(store.sleeves[0].account) == FLAT_POSITION
    ensures var next := SleeveReconciled(store, 0, BUY);
            && OneSleeve(next, 10.0) && Remembered(next.sleeves[0])
            && RowQty(next.broker, "ACME", Long) == RowQty(store.broker, "ACME", Long) + 10.0
  {
    hide Reconcile, TargetQuantity, AverageCost, Opening, Loaded;
    var leg := Leg(Long, 10.0, Enter);
    ExampleTarget(FLAT_POSITION, BUY, 10.0);
    OneLegFills(FLAT_POSITION, BUY, leg);
    SamePass(store.sleeves[0].account, BUY);
    PricedIsRemembered(store.sleeves[0], BUY);
    var fill := FillFor(FLAT_POSITION, leg, 10.0, 100.0);
    BookNext(store.broker, "ACME", [], fill);
    BookNone(store.broker, "ACME");
    assert [] + [fill] == [fill];
  }

  lemma UnpricedForgets(store: Store)
    requires OneSleeve(store, 10.0) && Remembered(store.sleeves[0])
    ensures var next := SleeveReconciled(store, 0, UNPRICED);
            OneSleeve(next, 10.0) && next.broker == store.broker
            && Opening(next.sleeves[0].account) == FLAT_POSITION
  {
    hide Reconcile;
    var a := store.sleeves[0].account;
    UnpricedPass(a, UNPRICED);
    SamePass(a, UNPRICED);
    OpeningWithinShare(store.sleeves[0], Long);
    QuietPassFillsNothing(Opening(a), UNPRICED);
    BlockedPassKeeps(PassInput(Loaded(a), UNPRICED));
    BookNone(store.broker, "ACME");
  }

  lemma HeldByOne(store: Store, quantity: real)
    requires OneSleeve(store, quantity)
    ensures Held(store.sleeves, "ACME", Long) == quantity
  {
    assert Held(store.sleeves[1..], "ACME", Long) == 0.0;
  }

  /** Buy ten at 100, see no price, buy ten at 100: the sleeve has ten shares, and the broker's row twenty. */
  lemma PhantomExample()
    ensures var store := EMPTY_STORE.(sleeves := [PHANTOM_SLEEVE]);
            var bought := SleeveReconciled(store, 0, BUY);
            OneSleeve(bought, 10.0) && Excess(bought, "ACME", Long) == 0.0
            && var unpriced := SleeveReconciled(bought, 0, UNPRICED);
               OneSleeve(unpriced, 10.0) && Excess(unpriced, "ACME", Long) == 0.0
               && var again := SleeveReconciled(unpriced, 0, BUY);
                  OneSleeve(again, 10.0) && RowQty(again.broker, "ACME", Long) == 20.0
                  && Excess(again, "ACME", Long) == 10.0
  {
    hide SleeveReconciled, Opening, Held;
    var store := EMPTY_STORE.(sleeves := [PHANTOM_SLEEVE]);
    EmptyIsRemembered();
    assert OneSleeve(store, 0.0) by { StartsEmpty(); }
    BuysTen(store, 0.0);
    var bought := SleeveReconciled(store, 0, BUY);
    UnpricedForgets(bought);
    var unpriced := SleeveReconciled(bought, 0, UNPRICED);
    BuysTen(unpriced, 10.0);
    HeldByOne(bought, 10.0);
    HeldByOne(unpriced, 10.0);
    HeldByOne(SleeveReconciled(unpriced, 0, BUY), 10.0);
  }

  lemma StartsEmpty()
    ensures OneSleeve(EMPTY_STORE.(sleeves := [PHANTOM_SLEEVE]), 0.0)
  {
  }
}
