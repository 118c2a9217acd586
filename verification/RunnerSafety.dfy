/** What every runner pass keeps, wherever an error ends it: desired rows passed every gate, totals stay within
    caps up to the tolerances of the allocator and the broker, counters add up, and nothing is emitted twice. */
module RunnerSafety {
  import opened Numeric
  import opened Wrappers
  import opened Simulator
  import opened SimulatorRuns
  import opened Sleeve
  import opened Reasons
  import opened Allocator
  import opened AllocatorRuns
  import opened Strategy
  import opened StrategyRules
  import opened Text
  import opened Policy
  import opened Runner

  // ---------- the store invariant ----------

  /** Each permission has at most one open sleeve, carrying the symbol the permission was granted for. */
  predicate SleevesOwned(sleeves: seq<StrategySleeve>, registry: map<int, string>) {
    && (forall i | 0 <= i < |sleeves| && sleeves[i].owner.Some? ::
          sleeves[i].owner.value in registry && registry[sleeves[i].owner.value] == sleeves[i].symbol)
    && (forall i, j | 0 <= i < j < |sleeves| && sleeves[i].owner.Some? :: sleeves[i].owner != sleeves[j].owner)
  }

  /** No desired row repeats the side and weight of the row before it for the same permission. */
  predicate NoRepeats(desired: seq<DesiredRow>) {
    forall k | 0 <= k < |desired| ::
      !MatchesTarget(LatestOf(desired[..k], desired[k].permissionId), desired[k].side, desired[k].weight)
  }

  predicate StoreInvariant(store: Store, registry: map<int, string>) {
    && SleevesOwned(store.sleeves, registry)
    && NoRepeats(store.desired)
    && (forall id <- store.reconciled :: 0 <= id < |store.desired|)
  }

  predicate Registered(c: Candidate, registry: map<int, string>) {
    c.permission.permissionId in registry && registry[c.permission.permissionId] == c.permission.symbol
  }

  // ---------- one desired position ----------

  /** What a weight of the portfolio is worth. */
  function Worth(weight: Option<real>, portfolioValue: real): Option<real> {
    if weight.Some? then Some(Product(weight.value, portfolioValue)) else None
  }

  lemma WorthIs(decision: StrategyDecision, ob: Observation)
    ensures TargetNotional(decision, ob) == Worth(decision.targetWeight, ob.portfolioValue)
  {
    hide Product;
  }

  /** The store after a decision was emitted: written and reconciled, or only written when an error came between. */
  function Emitted(store: Store, c: Candidate, decision: StrategyDecision, ob: Observation, i: Interruption): Store
    requires decision.targetSide.Some?
  {
    var written := WriteDesired(store, c, decision, ob);
    if i == AfterWriting then written else ReconcileNewest(written, ob).0
  }

  /** The row an emission appends. */
  function EmittedRow(c: Candidate, decision: StrategyDecision, ob: Observation): DesiredRow
    requires decision.targetSide.Some?
  {
    DesiredRow(c.permission.permissionId, decision.targetSide.value, decision.targetWeight,
               Worth(decision.targetWeight, ob.portfolioValue))
  }

  function OrderOf(decision: StrategyDecision, ob: Observation): Order
    requires decision.targetSide.Some?
  {
    Order(decision.targetSide.value, GetOr(Worth(decision.targetWeight, ob.portfolioValue), 0.0), ob.price, ob.now,
          DEFAULT_CONFIG)
  }

  lemma OpenSleeveAfterWrite(store: Store, registry: map<int, string>, c: Candidate, decision: StrategyDecision,
                             ob: Observation)
    requires StoreInvariant(store, registry) && decision.targetSide.Some?
    ensures var before := OpenSleeve(store.sleeves, c.permission.permissionId);
            OpenSleeve(WriteDesired(store, c, decision, ob).sleeves, c.permission.permissionId)
              == Some(if before.Some? then before.value else |store.sleeves|)
  {
    var before := OpenSleeve(store.sleeves, c.permission.permissionId);
    if before.Some? {
      var id := before.value;
      assert WriteDesired(store, c, decision, ob).sleeves[id].owner == Some(c.permission.permissionId);
      assert WriteDesired(store, c, decision, ob).sleeves[id] in WriteDesired(store, c, decision, ob).sleeves;
    }
  }

  /** A first reconciliation never finds its desired id already reconciled and, with the default
      simulation settings, never raises an incident. */
  lemma EmissionIsFresh(store: Store, registry: map<int, string>, c: Candidate, decision: StrategyDecision,
                        ob: Observation)
    requires StoreInvariant(store, registry) && decision.targetSide.Some?
    ensures ReconcileNewest(WriteDesired(store, c, decision, ob), ob).1 == Receipt(false, false)
    ensures ReconcileNewest(WriteDesired(store, c, decision, ob), ob).0.reconciled
         == store.reconciled + {|store.desired|}
  {
    hide OpenSleeve, NoRepeats, SleevesOwned, Reconcile, TargetNotional, Worth;
    WorthIs(decision, ob);
    OpenSleeveAfterWrite(store, registry, c, decision, ob);
    DefaultRaisesNothing(PassInput(Loaded(EMPTY_ACCOUNT), OrderOf(decision, ob)));
    var written := WriteDesired(store, c, decision, ob);
    var id := OpenSleeve(written.sleeves, c.permission.permissionId);
    DefaultRaisesNothing(PassInput(Loaded(written.sleeves[id.value].account), OrderOf(decision, ob)));
  }

  lemma DefaultRaisesNothing(input: Input)
    requires input.config == DEFAULT_CONFIG
    ensures Reconcile(input).incident.None?
  {
  }

  /** Reconciling a row again changes nothing and is reported as a duplicate. */
  lemma ReconciledOnce(store: Store, ob: Observation, later: Observation)
    requires store.desired != [] && OpenSleeve(store.sleeves, store.desired[|store.desired| - 1].permissionId).Some?
    ensures var next := ReconcileNewest(store, ob).0;
            next.desired == store.desired && ReconcileNewest(next, later) == (next, Receipt(true, false))
  {
    hide Reconcile, ReconcileAccount;
  }

  lemma EmissionAppends(store: Store, registry: map<int, string>, c: Candidate, decision: StrategyDecision,
                        ob: Observation, i: Interruption)
    requires StoreInvariant(store, registry) && decision.targetSide.Some?
    ensures var next := Emitted(store, c, decision, ob, i);
            && next.desired == store.desired + [EmittedRow(c, decision, ob)]
            && next.reconciled == store.reconciled + (if i == AfterWriting then {} else {|store.desired|})
            && next.retired == store.retired
  {
    hide OpenSleeve, Reconcile, NoRepeats, SleevesOwned, TargetNotional, Worth;
    WorthIs(decision, ob);
    EmissionIsFresh(store, registry, c, decision, ob);
  }

  /** An emission changes one sleeve, opening it if there was none, and no other: its allocation, and through the
      broker its account. */
  lemma EmissionResizesOneSleeve(store: Store, registry: map<int, string>, c: Candidate, decision: StrategyDecision,
                                 ob: Observation, i: Interruption)
    requires StoreInvariant(store, registry) && decision.targetSide.Some?
    ensures var before := OpenSleeve(store.sleeves, c.permission.permissionId);
            var at := if before.Some? then before.value else |store.sleeves|;
            var next := Emitted(store, c, decision, ob, i).sleeves;
            var notional := GetOr(Worth(decision.targetWeight, ob.portfolioValue), 0.0);
            var resized := if before.Some? then store.sleeves[at].(allocatedUsd := notional)
                          else StrategySleeve(Some(c.permission.permissionId), c.permission.symbol, "active",
                                              notional, EMPTY_ACCOUNT);
            && |next| == (if before.Some? then |store.sleeves| else |store.sleeves| + 1)
            && next[at] == resized.(account := if i == AfterWriting then resized.account
                                               else ReconcileAccount(resized.account, OrderOf(decision, ob)))
            && forall k | 0 <= k < |store.sleeves| && k != at :: next[k] == store.sleeves[k]
  {
    hide OpenSleeve, ReconcileAccount, Reconcile, NoRepeats, SleevesOwned, TargetNotional, Worth;
    WorthIs(decision, ob);
    OpenSleeveAfterWrite(store, registry, c, decision, ob);
    NewestIsOpen(store, registry);
  }

  lemma NewestIsOpen(store: Store, registry: map<int, string>)
    requires StoreInvariant(store, registry)
    ensures |store.desired| !in store.reconciled
  {
    hide NoRepeats, SleevesOwned;
    assert |store.desired| in store.reconciled ==> 0 <= |store.desired| < |store.desired|;
  }

  // ---------- emissions as grants ----------

  /** The allocator's record of an emission: the broker may overshoot the target by EPS shares. */
  function GrantOf(store: Store, c: Candidate, decision: StrategyDecision, ob: Observation, i: Interruption): Grant
    requires decision.targetSide.Some?
  {
    var id := OpenSleeve(store.sleeves, c.permission.permissionId);
    var next := Emitted(store, c, decision, ob, i);
    var at := if id.Some? then id.value else |store.sleeves|;
    Grant(RequestFor(store, c, decision, ob), ob.limits,
          if at < |next.sleeves| then next.sleeves[at].account.notional else 0.0,
          EPS * Max(ob.price, 0.0), |store.sleeves|)
  }

  /** An emission is, to the allocator, the grant of the request it approved. */
  lemma EmissionIsGrant(store: Store, registry: map<int, string>, c: Candidate, decision: StrategyDecision,
                        ob: Observation, i: Interruption)
    requires StoreInvariant(store, registry) && decision.targetSide.Some?
    ensures RowsOf(Emitted(store, c, decision, ob, i).sleeves)
         == Granted(RowsOf(store.sleeves), GrantOf(store, c, decision, ob, i))
  {
    hide Emitted, ReconcileAccount, Evaluate, StoreInvariant, OpenSleeve, RowsOf, OrderOf, TargetNotional, Worth;
    WorthIs(decision, ob);
    EmissionResizesOneSleeve(store, registry, c, decision, ob, i);
    FindById(store.sleeves, OpenSleeve(store.sleeves, c.permission.permissionId));
    var next := Emitted(store, c, decision, ob, i).sleeves;
    var granted := Granted(RowsOf(store.sleeves), GrantOf(store, c, decision, ob, i));
    assert |granted| == |next|;
    assert forall k | 0 <= k < |next| :: RowsOf(next)[k] == granted[k];
  }

  lemma {:induction false} FindInRange(rows: seq<SleeveRow>, base: int, id: Option<int>)
    requires forall i | 0 <= i < |rows| :: rows[i].id == Some(base + i)
    ensures Find(rows, id) == if id.Some? && base <= id.value < base + |rows| then id.value - base else -1
  {
    if rows != [] {
      FindInRange(rows[1..], base + 1, id);
    }
  }

  lemma FindById(sleeves: seq<StrategySleeve>, id: Option<int>)
    requires id.Some? ==> 0 <= id.value < |sleeves|
    ensures Find(RowsOf(sleeves), id) == if id.Some? then id.value else -1
  {
    FindInRange(RowsOf(sleeves), 0, id);
  }

  lemma SleeveSymbol(store: Store, registry: map<int, string>, c: Candidate)
    requires StoreInvariant(store, registry) && Registered(c, registry)
    ensures var id := OpenSleeve(store.sleeves, c.permission.permissionId);
            id.Some? ==> store.sleeves[id.value].symbol == c.permission.symbol
  {
    hide NoRepeats;
  }

  /** The grant is one the allocator's run theorem accepts: the broker's fills stay within its slack. */
  lemma EmissionIsAcceptable(store: Store, registry: map<int, string>, c: Candidate, decision: StrategyDecision,
                             ob: Observation, i: Interruption)
    requires StoreInvariant(store, registry) && Registered(c, registry) && decision.targetSide.Some?
    requires Evaluate(RequestFor(store, c, decision, ob), RowsOf(store.sleeves), ob.limits).allowed
    ensures Acceptable(RowsOf(store.sleeves), GrantOf(store, c, decision, ob, i))
  {
    hide Emitted, ReconcileAccount, Evaluate, StoreInvariant, TargetNotional, Worth;
    WorthIs(decision, ob);
    var id := OpenSleeve(store.sleeves, c.permission.permissionId);
    FindById(store.sleeves, id);
    SleeveSymbol(store, registry, c);
    EmissionResizesOneSleeve(store, registry, c, decision, ob, i);
    NotionalBound(if id.Some? then store.sleeves[id.value].account else EMPTY_ACCOUNT, OrderOf(decision, ob));
  }

  // ---------- the gate of one step ----------

  /** The sleeve whose status counts, the permission's open one or else its last retired one, has this status. */
  predicate SleeveIs(store: Store, permissionId: int, status: string) {
    var id, last := OpenSleeve(store.sleeves, permissionId), LastRetired(store.retired, permissionId);
    if id.Some? then store.sleeves[id.value].status == status else last.Some? && last.value.status == status
  }

  /** Everything a decision must clear before it becomes a desired position, in the source's own terms. */
  predicate GateOpen(store: Store, c: Candidate, ob: Observation, decision: StrategyDecision) {
    && !ob.killSwitch
    && PermissionInForce(c.permission, c.definition, ob.now)
    && c.definition.status == "shadow" && c.permission.environmentScope == "shadow"
    && !AllSpace(c.definition.configHash)
    && MarketReady(ob.market, ob.features.technical, c.definition, ob.now)
    && (ob.risk.veto ==> ob.risk.reasons == [])
    && (var notional := Worth(decision.targetWeight, ob.portfolioValue);
        var request := Request(OpenSleeve(store.sleeves, c.permission.permissionId), c.permission.symbol,
                               GetOr(notional, 0.0), ob.portfolioValue);
        && !Over(decision.targetWeight, c.permission.maxAllocation)
        && !Over(notional, c.permission.maxNotional)
        && Evaluate(request, RowsOf(store.sleeves), ob.limits).allowed)
    && !SleeveIs(store, c.permission.permissionId, "frozen") && !SleeveIs(store, c.permission.permissionId, "closed")
    && !ob.broker.mismatch && ob.broker.status != "mismatch"
  }

  lemma NoCommonBlockers(input: StrategyInput)
    requires Evaluated(input).kind != DecisionBlocked
    ensures input.permission.Some? && input.definition.status == "shadow"
    ensures input.permission.value.environmentScope == "shadow"
    ensures input.features.technical.Some?
  {
    hide When;
    assert |CommonBlockers(input)| == 0;
  }

  /** After an unblocked proof the decision is never the blocked one; and what the strategy did not block, the proof
      lets through exactly when the whole gate is open. */
  lemma UnblockedStep(store: Store, latest: Option<Latest>, c: Candidate, ob: Observation)
    ensures var decision, proof := DecisionFor(latest, c, ob), ProofFor(store, latest, c, ob);
            && (proof.result != ProofBlocked ==> decision.kind != DecisionBlocked)
            && (decision.kind != DecisionBlocked ==>
                  decision.targetSide.Some? && (proof.result != ProofBlocked <==> GateOpen(store, c, ob, decision)))
  {
    hide Evaluated, Proven, Evaluate, MarketReady, PermissionInForce, Aged, OpenSleeve, LastRetired, AllSpace, RowsOf,
      ReadinessBlockers, Over, TargetNotional, Worth;
    var input := StrategyInputFor(c, latest, ob);
    var decision := Evaluated(input);
    WorthIs(decision, ob);
    UnblockedIff(ProofInputFor(store, c, decision, ob));
    FreshnessIs(ob.market, ob.features.technical, c.definition, ob.now);
    MarketReadyIff(ob.market, ob.features.technical, c.definition, ob.now);
    BlockedIffReasons(input);
    if decision.kind != DecisionBlocked {
      NoCommonBlockers(input);
      if MarketReady(ob.market, ob.features.technical, c.definition, ob.now) {
        ReadyIsFresh(ob.market, ob.features.technical, c.definition, ob.now);
      }
    }
    AllowedIffNoReasons(RequestFor(store, c, decision, ob), RowsOf(store.sleeves), ob.limits);
  }

  lemma ReadyIsFresh(market: Market, technical: Option<Technical>, definition: Definition, now: int)
    requires MarketReady(market, technical, definition, now)
    ensures technical.Some? && !Aged(technical.value.asOf, definition, now) && market.sessionOpen
  {
  }

  lemma AllowedIffNoReasons(request: Request, rows: seq<SleeveRow>, limits: Limits)
    ensures Evaluate(request, rows, limits).allowed <==> Evaluate(request, rows, limits).blockedReasons == []
  {
  }

  // ---------- one step ----------

  lemma {:induction false} PrefixLatest(desired: seq<DesiredRow>, row: DesiredRow, permissionId: int)
    ensures LatestOf(desired + [row], permissionId)
         == if row.permissionId == permissionId then Some(Latest(row.side, row.weight))
            else LatestOf(desired, permissionId)
  {
    assert (desired + [row])[..|desired|] == desired;
  }

  lemma NoRepeatsExtends(desired: seq<DesiredRow>, row: DesiredRow)
    requires NoRepeats(desired) && !MatchesTarget(LatestOf(desired, row.permissionId), row.side, row.weight)
    ensures NoRepeats(desired + [row])
  {
    hide MatchesTarget;
    forall k | 0 <= k < |desired + [row]|
      ensures var d := desired + [row];
              !MatchesTarget(LatestOf(d[..k], d[k].permissionId), d[k].side, d[k].weight)
    {
      if k < |desired| {
        assert (desired + [row])[..k] == desired[..k];
      } else {
        assert (desired + [row])[..k] == desired;
      }
    }
  }

  /** The step appends a desired row: it emits, and no error came before writing. */
  predicate Appends(store: Store, latest: Option<Latest>, c: Candidate, ob: Observation, i: Interruption) {
    i != BeforeWriting && Emits(store, latest, c, ob)
  }

  /** A step either changes nothing, or clears the gate and performs one emission: fresh when reconciled. */
  lemma StepEffect(store: Store, registry: map<int, string>, latest: Option<Latest>, c: Candidate, ob: Observation,
                   i: Interruption)
    requires StoreInvariant(store, registry)
    ensures var decision := DecisionFor(latest, c, ob);
            var (next, effect) := Stepped(store, latest, c, ob, i);
            if Appends(store, latest, c, ob, i)
            then decision.kind == EmitDesired && decision.targetSide.Some? && GateOpen(store, c, ob, decision)
                 && next == Emitted(store, c, decision, ob, i)
                 && effect == (if i == AfterWriting then None else Some(WasEmitted(Receipt(false, false))))
            else next == store && (effect.Some? ==> !effect.value.WasEmitted?)
  {
    hide Evaluated, DecisionFor, ProofFor, GateOpen, StoreInvariant, WriteDesired, ReconcileNewest;
    var decision := DecisionFor(latest, c, ob);
    UnblockedStep(store, latest, c, ob);
    if Appends(store, latest, c, ob, i) {
      EmissionIsFresh(store, registry, c, decision, ob);
    }
  }

  lemma EmissionKeepsOwners(store: Store, registry: map<int, string>, c: Candidate, decision: StrategyDecision,
                            ob: Observation, i: Interruption)
    requires StoreInvariant(store, registry) && Registered(c, registry) && decision.targetSide.Some?
    ensures SleevesOwned(Emitted(store, c, decision, ob, i).sleeves, registry)
  {
    hide Emitted, ReconcileAccount, NoRepeats;
    EmissionResizesOneSleeve(store, registry, c, decision, ob, i);
    var next := Emitted(store, c, decision, ob, i).sleeves;
    assert forall k | 0 <= k < |store.sleeves| :: next[k].owner == store.sleeves[k].owner;
    assert forall k | 0 <= k < |store.sleeves| :: store.sleeves[k] in store.sleeves;
  }

  lemma DecidedNotLatest(latest: Option<Latest>, c: Candidate, ob: Observation)
    requires DecisionFor(latest, c, ob).kind == EmitDesired
    ensures var d := DecisionFor(latest, c, ob);
            d.targetSide.Some? && !MatchesTarget(latest, d.targetSide.value, d.targetWeight)
  {
    hide CommonBlockers, TargetIntent, MatchesTarget;
  }

  /** Every step, interrupted or not, keeps the store invariant and appends at most one row, for its own
      permission. */
  lemma StepKeepsInvariant(store: Store, registry: map<int, string>, c: Candidate, ob: Observation, i: Interruption)
    requires StoreInvariant(store, registry) && Registered(c, registry)
    ensures var latest := LatestOf(store.desired, c.permission.permissionId);
            StoreInvariant(Stepped(store, latest, c, ob, i).0, registry)
  {
    hide DecisionFor, ProofFor, Emitted, GateOpen, MatchesTarget, SleevesOwned, Stepped, NoRepeats, Appends;
    var latest := LatestOf(store.desired, c.permission.permissionId);
    var decision := DecisionFor(latest, c, ob);
    StepEffect(store, registry, latest, c, ob, i);
    if Appends(store, latest, c, ob, i) {
      EmissionAppends(store, registry, c, decision, ob, i);
      EmissionKeepsOwners(store, registry, c, decision, ob, i);
      DecidedNotLatest(latest, c, ob);
      NoRepeatsExtends(store.desired, EmittedRow(c, decision, ob));
    }
  }

  /** What a step does to the desired rows and the reconciled ids. */
  lemma StepRows(store: Store, registry: map<int, string>, latest: Option<Latest>, c: Candidate, ob: Observation,
                 i: Interruption)
    requires StoreInvariant(store, registry)
    ensures var decision := DecisionFor(latest, c, ob);
            var next := Stepped(store, latest, c, ob, i).0;
            if Appends(store, latest, c, ob, i)
            then decision.targetSide.Some? && next.desired == store.desired + [EmittedRow(c, decision, ob)]
                 && next.reconciled == store.reconciled + (if i == AfterWriting then {} else {|store.desired|})
            else next.desired == store.desired && next.reconciled == store.reconciled
  {
    hide DecisionFor, ProofFor, Emitted, GateOpen, Stepped, StoreInvariant, Appends, EmittedRow;
    StepEffect(store, registry, latest, c, ob, i);
    if Appends(store, latest, c, ob, i) {
      EmissionAppends(store, registry, c, DecisionFor(latest, c, ob), ob, i);
    }
  }

  /** This observation limits a scope, to at most `cap`. */
  predicate CapAtMost(ob: Observation, scope: Option<string>, cap: real) {
    LimitAtMost(ScopePct(ob.limits, scope), ob.portfolioValue, cap)
  }

  /** Tolerance of one emission: EPS of notional and EPS of a share. */
  function Slack(ob: Observation): (s: real)
    ensures s >= 0.0
  {
    EPS + EPS * Max(ob.price, 0.0)
  }

  /** One step moves a scope's total at most to max(total, cap) plus the tolerances of one emission. */
  lemma StepKeepsCaps(store: Store, registry: map<int, string>, latest: Option<Latest>, c: Candidate, ob: Observation,
                      i: Interruption, scope: Option<string>, cap: real)
    requires StoreInvariant(store, registry) && Registered(c, registry)
    requires CapAtMost(ob, scope, cap)
    ensures Total(RowsOf(Stepped(store, latest, c, ob, i).0.sleeves), scope)
         <= if Appends(store, latest, c, ob, i) then Max(Total(RowsOf(store.sleeves), scope), cap) + Slack(ob)
            else Total(RowsOf(store.sleeves), scope)
  {
    hide DecisionFor, Emitted, Stepped, Total, RowsOf, Evaluate, Acceptable, StoreInvariant, Appends;
    StepEffect(store, registry, latest, c, ob, i);
    if Appends(store, latest, c, ob, i) {
      var decision := DecisionFor(latest, c, ob);
      WorthIs(decision, ob);
      EmissionIsAcceptable(store, registry, c, decision, ob, i);
      EmissionIsGrant(store, registry, c, decision, ob, i);
      GrantKeepsCaps(RowsOf(store.sleeves), GrantOf(store, c, decision, ob, i), scope);
    }
  }

  // ---------- one pass ----------

  /** The candidate query returns each permission once. */
  predicate DistinctPermissions(work: seq<Work>) {
    forall i, j | 0 <= i < j < |work| ::
      work[i].candidate.permission.permissionId != work[j].candidate.permission.permissionId
  }

  predicate AllRegistered(work: seq<Work>, registry: map<int, string>) {
    forall w <- work :: Registered(w.candidate, registry)
  }

  predicate Mentions(work: seq<Work>, permissionId: int) {
    exists w <- work :: w.candidate.permission.permissionId == permissionId
  }

  /** The pass after its first k candidates. */
  function PassAt(store: Store, work: seq<Work>, k: nat): Pass
    requires k <= |work|
  {
    RunPass(Started(store), store.desired, work[..k])
  }

  /** The state in which a pass reaches its k-th candidate. */
  function Reached(store: Store, work: seq<Work>, k: nat): Store
    requires k <= |work|
  {
    PassAt(store, work, k).store
  }

  lemma PassAtNext(store: Store, work: seq<Work>, k: nat)
    requires k < |work|
    ensures PassAt(store, work, k + 1) == StepPass(PassAt(store, work, k), store.desired, work[k])
  {
    hide StepPass;
    RunPassNext(Started(store), store.desired, work, k);
  }

  lemma PassAtStart(store: Store, work: seq<Work>)
    ensures PassAt(store, work, 0) == Started(store)
  {
    RunPassNone(Started(store), store.desired);
  }

  lemma NotYetMentioned(work: seq<Work>, k: nat)
    requires DistinctPermissions(work) && k < |work|
    ensures !Mentions(work[..k], work[k].candidate.permission.permissionId)
    ensures forall id | !Mentions(work[..k + 1], id) ::
              !Mentions(work[..k], id) && id != work[k].candidate.permission.permissionId
  {
    assert work[..k + 1] == work[..k] + [work[k]];
  }

  /** What a pass keeps at every point: the invariant, every row it started with, and the latest rows of the
      permissions it has not reached. */
  ghost predicate PassKeeps(store: Store, registry: map<int, string>, work: seq<Work>, next: Store) {
    && StoreInvariant(next, registry)
    && store.desired <= next.desired
    && forall id | !Mentions(work, id) :: LatestOf(next.desired, id) == LatestOf(store.desired, id)
  }

  lemma StepLeavesOthers(store: Store, registry: map<int, string>, latest: Option<Latest>, c: Candidate,
                         ob: Observation, i: Interruption)
    requires StoreInvariant(store, registry)
    ensures var next := Stepped(store, latest, c, ob, i).0;
            store.desired <= next.desired
            && forall id | id != c.permission.permissionId :: LatestOf(next.desired, id) == LatestOf(store.desired, id)
  {
    hide StoreInvariant, Stepped, DecisionFor, Appends;
    StepRows(store, registry, latest, c, ob, i);
    if Appends(store, latest, c, ob, i) {
      forall id | id != c.permission.permissionId
        ensures LatestOf(Stepped(store, latest, c, ob, i).0.desired, id) == LatestOf(store.desired, id)
      {
        PrefixLatest(store.desired, EmittedRow(c, DecisionFor(latest, c, ob), ob), id);
      }
    }
  }

  /** The next candidate's step, when the pass has not aborted. */
  lemma StepPassIs(p: Pass, start: seq<DesiredRow>, w: Work)
    ensures var latest := LatestOf(start, w.candidate.permission.permissionId);
            StepPass(p, start, w).store
              == if p.aborted then p.store else Stepped(p.store, latest, w.candidate, w.observation, w.interruption).0
  {
    hide Stepped, Counted;
  }

  lemma {:induction false} PassKeepsInvariant(store: Store, registry: map<int, string>, work: seq<Work>, k: nat)
    requires StoreInvariant(store, registry) && DistinctPermissions(work) && AllRegistered(work, registry)
    requires k <= |work|
    ensures PassKeeps(store, registry, work[..k], Reached(store, work, k))
    decreases k
  {
    hide StoreInvariant, Stepped, StepPass, LatestOf, Mentions, DistinctPermissions, PassAt, Registered;
    if k == 0 {
      PassAtStart(store, work);
    } else {
      var p, w := PassAt(store, work, k - 1), work[k - 1];
      var latest := LatestOf(store.desired, w.candidate.permission.permissionId);
      PassKeepsInvariant(store, registry, work, k - 1);
      PassAtNext(store, work, k - 1);
      NotYetMentioned(work, k - 1);
      assert w in work;
      StepPassIs(p, store.desired, w);
      StepKeepsInvariant(p.store, registry, w.candidate, w.observation, w.interruption);
      StepLeavesOthers(p.store, registry, latest, w.candidate, w.observation, w.interruption);
    }
  }

  /** Counters of a pass that has processed `steps` candidates and appended `rows` desired rows. */
  predicate Adds(s: Summary, steps: nat, rows: int) {
    && s.evaluated == steps && s.evaluated == s.emitted + s.steady + s.blocked
    && s.emitted == s.reconciled && s.duplicates == 0 && s.incidents == 0
    && s.emitted == rows
  }

  lemma StepAdds(p: Pass, registry: map<int, string>, start: seq<DesiredRow>, w: Work, steps: nat, rows: int)
    requires StoreInvariant(p.store, registry) && !p.aborted && Adds(p.summary, steps, rows)
    ensures var next := StepPass(p, start, w);
            !next.aborted ==> Adds(next.summary, steps + 1, rows + |next.store.desired| - |p.store.desired|)
  {
    hide StoreInvariant, Stepped, DecisionFor, Appends, Emitted, EmittedRow, GateOpen, LatestOf;
    var latest := LatestOf(start, w.candidate.permission.permissionId);
    StepEffect(p.store, registry, latest, w.candidate, w.observation, w.interruption);
    StepRows(p.store, registry, latest, w.candidate, w.observation, w.interruption);
  }

  /** The counters of a pass that ran to its end add up: every candidate was emitted, unchanged or blocked, every
      emission appended one row and reconciled it, and none was a duplicate or an incident. */
  lemma {:induction false} PassAdds(store: Store, registry: map<int, string>, work: seq<Work>, k: nat)
    requires StoreInvariant(store, registry) && DistinctPermissions(work) && AllRegistered(work, registry)
    requires k <= |work|
    ensures var p := PassAt(store, work, k);
            !p.aborted ==> Adds(p.summary, k, |p.store.desired| - |store.desired|)
    decreases k
  {
    hide StoreInvariant, StepPass, Stepped, Adds, PassAt, DistinctPermissions, AllRegistered;
    if k == 0 {
      PassAtStart(store, work);
      NothingAdds();
    } else {
      var p := PassAt(store, work, k - 1);
      PassAdds(store, registry, work, k - 1);
      PassAtNext(store, work, k - 1);
      PassKeepsInvariant(store, registry, work, k - 1);
      AbortPersists(p, store.desired, work[k - 1]);
      if !p.aborted {
        StepAdds(p, registry, store.desired, work[k - 1], k - 1, |p.store.desired| - |store.desired|);
      }
    }
  }

  lemma NothingAdds()
    ensures Adds(NO_WORK, 0, 0)
  {
  }

  lemma AbortPersists(p: Pass, start: seq<DesiredRow>, w: Work)
    ensures p.aborted ==> StepPass(p, start, w) == p
  {
    hide Stepped;
  }

  /** The k-th candidate of a pass appends a desired row. */
  predicate AppendsAt(store: Store, work: seq<Work>, k: nat)
    requires k < |work|
  {
    var p, w := PassAt(store, work, k), work[k];
    !p.aborted && Appends(p.store, LatestOf(store.desired, w.candidate.permission.permissionId), w.candidate,
                          w.observation, w.interruption)
  }

  /** Every desired row any pass writes cleared the whole gate in the state it was reached in, and the latest row
      it was compared with, read when the pass began, was still the permission's latest. */
  lemma EveryEmissionCleared(store: Store, registry: map<int, string>, work: seq<Work>, k: nat)
    requires StoreInvariant(store, registry) && DistinctPermissions(work) && AllRegistered(work, registry)
    requires k < |work|
    ensures var before, after, w := Reached(store, work, k), Reached(store, work, k + 1), work[k];
            var latest := LatestOf(store.desired, w.candidate.permission.permissionId);
            var decision := DecisionFor(latest, w.candidate, w.observation);
            && latest == LatestOf(before.desired, w.candidate.permission.permissionId)
            && if AppendsAt(store, work, k)
               then decision.kind == EmitDesired && decision.targetSide.Some?
                    && GateOpen(before, w.candidate, w.observation, decision)
                    && after.desired == before.desired + [EmittedRow(w.candidate, decision, w.observation)]
               else after == before
  {
    hide StoreInvariant, Stepped, DecisionFor, GateOpen, Emitted, EmittedRow, LatestOf, PassAt, Appends,
      DistinctPermissions, AllRegistered, Mentions;
    var p, w := PassAt(store, work, k), work[k];
    var latest := LatestOf(store.desired, w.candidate.permission.permissionId);
    PassAtNext(store, work, k);
    PassKeepsInvariant(store, registry, work, k);
    NotYetMentioned(work, k);
    StepPassIs(p, store.desired, w);
    StepEffect(p.store, registry, latest, w.candidate, w.observation, w.interruption);
    StepRows(p.store, registry, latest, w.candidate, w.observation, w.interruption);
  }

  /** Tolerance the first k candidates may use up: that of one emission for every row they append. */
  function PassSlack(store: Store, work: seq<Work>, k: nat): (s: real)
    requires k <= |work|
    ensures s >= 0.0
  {
    if k == 0 then 0.0
    else PassSlack(store, work, k - 1) + if AppendsAt(store, work, k - 1) then Slack(work[k - 1].observation) else 0.0
  }

  predicate CappedWork(work: seq<Work>, scope: Option<string>, cap: real) {
    forall w <- work :: CapAtMost(w.observation, scope, cap)
  }

  lemma PassStepCaps(store: Store, registry: map<int, string>, work: seq<Work>, scope: Option<string>, cap: real,
                     k: nat)
    requires StoreInvariant(store, registry) && DistinctPermissions(work) && AllRegistered(work, registry)
    requires CappedWork(work, scope, cap) && k < |work|
    ensures Total(RowsOf(Reached(store, work, k + 1).sleeves), scope)
         <= Max(Total(RowsOf(Reached(store, work, k).sleeves), scope), cap)
            + if AppendsAt(store, work, k) then Slack(work[k].observation) else 0.0
  {
    hide StoreInvariant, Stepped, Total, RowsOf, CapAtMost, LatestOf, PassAt, Appends, Slack, DistinctPermissions,
      Registered, Mentions;
    var p, w := PassAt(store, work, k), work[k];
    assert w in work;
    PassAtNext(store, work, k);
    PassKeepsInvariant(store, registry, work, k);
    StepPassIs(p, store.desired, w);
    StepKeepsCaps(p.store, registry, LatestOf(store.desired, w.candidate.permission.permissionId), w.candidate,
                  w.observation, w.interruption, scope, cap);
  }

  /** Cap safety of a pass through strategy, proof, allocator and broker, wherever it ends: every symbol's total
      and the portfolio's stay at most max(total before, cap) plus the tolerance of the emissions made. */
  lemma {:induction false} PassKeepsCaps(store: Store, registry: map<int, string>, work: seq<Work>,
                                         scope: Option<string>, cap: real, k: nat)
    requires StoreInvariant(store, registry) && DistinctPermissions(work) && AllRegistered(work, registry)
    requires CappedWork(work, scope, cap) && k <= |work|
    ensures Total(RowsOf(Reached(store, work, k).sleeves), scope)
         <= Max(Total(RowsOf(store.sleeves), scope), cap) + PassSlack(store, work, k)
    decreases k
  {
    hide StoreInvariant, Total, RowsOf, PassAt, AppendsAt, Slack, DistinctPermissions, AllRegistered, CappedWork;
    if k == 0 {
      PassAtStart(store, work);
    } else {
      PassKeepsCaps(store, registry, work, scope, cap, k - 1);
      PassStepCaps(store, registry, work, scope, cap, k - 1);
    }
  }

  // ---------- runs of passes ----------

  function AfterPass(store: Store, work: seq<Work>): Store {
    Reached(store, work, |work|)
  }

  function AfterPasses(store: Store, passes: seq<seq<Work>>): Store
    decreases |passes|
  {
    if passes == [] then store else AfterPasses(AfterPass(store, passes[0]), passes[1..])
  }

  function RunSlack(store: Store, passes: seq<seq<Work>>): real
    decreases |passes|
  {
    if passes == [] then 0.0
    else PassSlack(store, passes[0], |passes[0]|) + RunSlack(AfterPass(store, passes[0]), passes[1..])
  }

  predicate ValidPass(work: seq<Work>, registry: map<int, string>) {
    DistinctPermissions(work) && AllRegistered(work, registry)
  }

  /** Over any number of passes, some of them cut short, nothing is ever emitted twice in a row for one permission,
      and totals stay within caps up to the accumulated tolerance. */
  lemma {:induction false} RunsKeepInvariantAndCaps(store: Store, registry: map<int, string>, passes: seq<seq<Work>>,
                                                    scope: Option<string>, cap: real)
    requires StoreInvariant(store, registry)
    requires forall work <- passes :: ValidPass(work, registry) && CappedWork(work, scope, cap)
    ensures StoreInvariant(AfterPasses(store, passes), registry)
    ensures NoRepeats(AfterPasses(store, passes).desired)
    ensures Total(RowsOf(AfterPasses(store, passes).sleeves), scope)
         <= Max(Total(RowsOf(store.sleeves), scope), cap) + RunSlack(store, passes)
    decreases |passes|
  {
    hide Total, RowsOf, CappedWork, PassAt, DistinctPermissions, AllRegistered, NoRepeats, SleevesOwned, PassSlack;
    if passes != [] {
      var work := passes[0];
      assert work in passes;
      PassKeepsCaps(store, registry, work, scope, cap, |work|);
      PassKeepsInvariant(store, registry, work, |work|);
      RunsKeepInvariantAndCaps(AfterPass(store, work), registry, passes[1..], scope, cap);
    }
  }

  lemma AfterPassKeeps(store: Store, registry: map<int, string>, work: seq<Work>)
    requires StoreInvariant(store, registry) && ValidPass(work, registry)
    ensures StoreInvariant(AfterPass(store, work), registry)
  {
    hide StoreInvariant, PassAt;
    PassKeepsInvariant(store, registry, work, |work|);
  }

  /** From an empty store, every reachable total is within its cap up to the accumulated tolerance. */
  lemma EveryReachableCapped(registry: map<int, string>, passes: seq<seq<Work>>, scope: Option<string>, cap: real)
    requires cap >= 0.0
    requires forall work <- passes :: ValidPass(work, registry) && CappedWork(work, scope, cap)
    ensures Total(RowsOf(AfterPasses(EMPTY_STORE, passes).sleeves), scope) <= cap + RunSlack(EMPTY_STORE, passes)
  {
    hide AfterPasses, RunSlack, ValidPass, CappedWork;
    assert RowsOf([]) == [];
    RunsKeepInvariantAndCaps(EMPTY_STORE, registry, passes, scope, cap);
  }
}
