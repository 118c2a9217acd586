/** The strategy runner: one pass evaluates every candidate permission, proves it, and for each decision
    to emit writes a desired position, resizes its sleeve and reconciles it with the digital broker. */
module Runner {
  import opened Numeric
  import opened Wrappers
  import opened Simulator
  import opened SimulatorRuns
  import opened Sleeve
  import opened BrokerBook
  import opened Allocator
  import opened Strategy
  import opened Policy

  datatype Candidate = Candidate(definition: Definition, permission: Permission)

  /** Everything a step reads from outside the automation tables. */
  datatype Observation = Observation(
    features: Features, now: int, killSwitch: bool, market: Market, portfolioValue: real, limits: Limits,
    risk: Risk, broker: Broker, price: real)

  datatype DesiredRow = DesiredRow(permissionId: int, side: Side, weight: Option<real>, notional: Option<real>)

  /** An open sleeve; its id is its index. Sleeves of other kinds have no owning permission. */
  datatype StrategySleeve = StrategySleeve(
    owner: Option<int>, symbol: string, status: string, allocatedUsd: real, account: Account)

  /** A sleeve with a closing date. */
  datatype RetiredSleeve = RetiredSleeve(owner: Option<int>, status: string, updatedAt: int)

  /** Append-only desired positions (id = index), open sleeves, the reconciled desired ids, retired sleeves, and the
      digital broker's position rows. */
  datatype Store = Store(
    desired: seq<DesiredRow>, sleeves: seq<StrategySleeve>, reconciled: set<int>, retired: seq<RetiredSleeve>,
    broker: Book)

  const EMPTY_STORE := Store([], [], {}, [], EMPTY_BOOK)

  datatype Summary = Summary(
    evaluated: nat, emitted: nat, reconciled: nat, incidents: nat, duplicates: nat, steady: nat, blocked: nat,
    noFeatures: nat)

  datatype Receipt = Receipt(duplicate: bool, incident: bool)

  datatype Effect = WasBlocked | WasUnchanged | WasEmitted(receipt: Receipt)

  /** The permission's most recent desired position. */
  function LatestOf(desired: seq<DesiredRow>, permissionId: int): (latest: Option<Latest>)
    ensures latest.None? <==> forall row <- desired :: row.permissionId != permissionId
    ensures latest.Some? ==>
              exists k | 0 <= k < |desired| ::
                && desired[k].permissionId == permissionId && latest.value == Latest(desired[k].side, desired[k].weight)
                && forall j | k < j < |desired| :: desired[j].permissionId != permissionId
  {
    if desired == [] then None
    else
      var row := desired[|desired| - 1];
      if row.permissionId == permissionId then Some(Latest(row.side, row.weight))
      else LatestOf(desired[..|desired| - 1], permissionId)
  }

  function OpenSleeve(sleeves: seq<StrategySleeve>, permissionId: int): (id: Option<int>)
    ensures id.Some? ==> 0 <= id.value < |sleeves| && sleeves[id.value].owner == Some(permissionId)
                         && forall k | id.value < k < |sleeves| :: sleeves[k].owner != Some(permissionId)
    ensures id.None? ==> forall s <- sleeves :: s.owner != Some(permissionId)
  {
    if sleeves == [] then None
    else if sleeves[|sleeves| - 1].owner == Some(permissionId) then Some(|sleeves| - 1)
    else OpenSleeve(sleeves[..|sleeves| - 1], permissionId)
  }

  /** The permission's most recently updated retired sleeve. */
  function LastRetired(retired: seq<RetiredSleeve>, permissionId: int): (r: Option<RetiredSleeve>)
    ensures r.Some? ==> r.value in retired && r.value.owner == Some(permissionId)
                        && forall s <- retired | s.owner == Some(permissionId) :: s.updatedAt <= r.value.updatedAt
    ensures r.None? ==> forall s <- retired :: s.owner != Some(permissionId)
  {
    if retired == [] then None
    else
      var last, earlier := retired[|retired| - 1], LastRetired(retired[..|retired| - 1], permissionId);
      assert forall s <- retired :: s == last || s in retired[..|retired| - 1];
      if last.owner == Some(permissionId) && (earlier.None? || earlier.value.updatedAt < last.updatedAt) then Some(last)
      else earlier
  }

  function RowOf(id: int, s: StrategySleeve): SleeveRow {
    SleeveRow(Some(id), s.symbol, s.status, s.allocatedUsd, s.account.notional)
  }

  /** The allocator's view of the sleeves. */
  function RowsOf(sleeves: seq<StrategySleeve>): (r: seq<SleeveRow>)
    ensures |r| == |sleeves|
    ensures forall i | 0 <= i < |sleeves| ::
              r[i] == SleeveRow(Some(i), sleeves[i].symbol, sleeves[i].status, sleeves[i].allocatedUsd,
                                sleeves[i].account.notional)
  {
    seq(|sleeves|, i requires 0 <= i < |sleeves| => RowOf(i, sleeves[i]))
  }

  function StrategyInputFor(c: Candidate, latest: Option<Latest>, ob: Observation): StrategyInput {
    StrategyInput(c.definition, Some(c.permission), latest, ob.features, ob.now)
  }

  function TargetNotional(decision: StrategyDecision, ob: Observation): Option<real> {
    if decision.targetWeight.Some? then Some(Product(decision.targetWeight.value, ob.portfolioValue)) else None
  }

  function RequestFor(store: Store, c: Candidate, decision: StrategyDecision, ob: Observation): Request {
    Request(OpenSleeve(store.sleeves, c.permission.permissionId), c.permission.symbol,
            GetOr(TargetNotional(decision, ob), 0.0), ob.portfolioValue)
  }

  /** The status of the permission's open sleeve, or else of its latest retired one. */
  function SleeveStatus(store: Store, c: Candidate): string {
    var id, last := OpenSleeve(store.sleeves, c.permission.permissionId),
                    LastRetired(store.retired, c.permission.permissionId);
    if id.Some? then store.sleeves[id.value].status
    else if last.Some? then last.value.status
    else "missing"
  }

  function ProofInputFor(store: Store, c: Candidate, decision: StrategyDecision, ob: Observation): ProofInput {
    ProofInput(
      c.definition, Some(c.permission), decision, ob.killSwitch,
      FreshnessOf(ob.market, ob.features.technical, c.definition, ob.now), ob.market.sessionOpen, ob.risk,
      Capital(decision.targetWeight, c.permission.maxAllocation, TargetNotional(decision, ob), c.permission.maxNotional,
              Evaluate(RequestFor(store, c, decision, ob), RowsOf(store.sleeves), ob.limits).blockedReasons),
      SleeveStatus(store, c), ob.broker, ob.now)
  }

  /** Writes the desired row and the sleeve's new allocation, opening a sleeve when there is none. */
  function WriteDesired(store: Store, c: Candidate, decision: StrategyDecision, ob: Observation): Store
    requires decision.targetSide.Some?
  {
    var pid, notional := c.permission.permissionId, TargetNotional(decision, ob);
    var id := OpenSleeve(store.sleeves, pid);
    store.(
      desired := store.desired + [DesiredRow(pid, decision.targetSide.value, decision.targetWeight, notional)],
      sleeves :=
        if id.Some? then store.sleeves[id.value := store.sleeves[id.value].(allocatedUsd := GetOr(notional, 0.0))]
        else store.sleeves
             + [StrategySleeve(Some(pid), c.permission.symbol, "active", GetOr(notional, 0.0), EMPTY_ACCOUNT)])
  }

  function OrderFor(row: DesiredRow, ob: Observation): Order {
    Order(row.side, GetOr(row.notional, 0.0), ob.price, ob.now, DEFAULT_CONFIG)
  }

  /** Reconciles the newest desired row with the digital broker, once per desired id. */
  function ReconcileNewest(store: Store, ob: Observation): (Store, Receipt)
    requires store.desired != []
  {
    var desiredId := |store.desired| - 1;
    var row := store.desired[desiredId];
    var id := OpenSleeve(store.sleeves, row.permissionId);
    if desiredId in store.reconciled || id.None? then (store, Receipt(desiredId in store.reconciled, false))
    else
      var sleeve := store.sleeves[id.value];
      var order := OrderFor(row, ob);
      var outcome := Reconcile(PassInput(Loaded(sleeve.account), order));
      (store.(sleeves := store.sleeves[id.value := sleeve.(account := ReconcileAccount(sleeve.account, order))],
              reconciled := store.reconciled + {desiredId},
              broker := BookFills(store.broker, sleeve.symbol, outcome.fills)),
       Receipt(false, outcome.incident.Some?))
  }

  function DecisionFor(latest: Option<Latest>, c: Candidate, ob: Observation): StrategyDecision {
    Evaluated(StrategyInputFor(c, latest, ob))
  }

  function ProofFor(store: Store, latest: Option<Latest>, c: Candidate, ob: Observation): Proof {
    Proven(ProofInputFor(store, c, DecisionFor(latest, c, ob), ob))
  }

  /** The decision is to emit, and its proof lets it. */
  predicate Emits(store: Store, latest: Option<Latest>, c: Candidate, ob: Observation) {
    ProofFor(store, latest, c, ob).result != ProofBlocked && DecisionFor(latest, c, ob).kind == EmitDesired
  }

  /** Where a store error ends the pass, if it does: before the candidate wrote anything, or between the
      transaction that writes the desired position and the one that reconciles it. */
  datatype Interruption = Uninterrupted | BeforeWriting | AfterWriting

  /** One candidate's step: the new store, and the effect unless an error ends the pass. */
  function Stepped(store: Store, latest: Option<Latest>, c: Candidate, ob: Observation, i: Interruption)
    : (Store, Option<Effect>)
  {
    var decision := DecisionFor(latest, c, ob);
    if i == BeforeWriting then (store, None)
    else if ProofFor(store, latest, c, ob).result == ProofBlocked then (store, Some(WasBlocked))
    else match decision.kind
      case EmitDesired =>
        var written := WriteDesired(store, c, decision, ob);
        if i == AfterWriting then (written, None)
        else var (next, receipt) := ReconcileNewest(written, ob); (next, Some(WasEmitted(receipt)))
      case NoChange => (store, Some(WasUnchanged))
      case DecisionBlocked => (store, Some(WasBlocked))
  }

  function Counted(s: Summary, effect: Effect, features: Features): Summary {
    var seen := s.(evaluated := s.evaluated + 1,
                   noFeatures := s.noFeatures + if features.technical.None? then 1 else 0);
    match effect
    case WasBlocked => seen.(blocked := seen.blocked + 1)
    case WasUnchanged => seen.(steady := seen.steady + 1)
    case WasEmitted(receipt) =>
      var tallied :=
        if receipt.duplicate then seen.(duplicates := seen.duplicates + 1)
        else if receipt.incident then seen.(incidents := seen.incidents + 1)
        else seen.(reconciled := seen.reconciled + 1);
      tallied.(emitted := tallied.emitted + 1)
  }

  datatype Work = Work(candidate: Candidate, observation: Observation, interruption: Interruption)

  /** A pass in progress; an error ends it, and its summary is not reported. */
  datatype Pass = Pass(store: Store, summary: Summary, aborted: bool)

  /** One candidate of a pass; its latest desired position was read when the pass began. */
  function StepPass(p: Pass, start: seq<DesiredRow>, w: Work): Pass {
    if p.aborted then p
    else
      var latest := LatestOf(start, w.candidate.permission.permissionId);
      match Stepped(p.store, latest, w.candidate, w.observation, w.interruption)
      case (store, None) => Pass(store, p.summary, true)
      case (store, Some(effect)) => Pass(store, Counted(p.summary, effect, w.observation.features), false)
  }

  /** A whole pass over the candidates, in order. */
  function RunPass(p: Pass, start: seq<DesiredRow>, work: seq<Work>): Pass {
    if work == [] then p
    else StepPass(RunPass(p, start, work[..|work| - 1]), start, work[|work| - 1])
  }

  lemma RunPassNone(p: Pass, start: seq<DesiredRow>)
    ensures RunPass(p, start, []) == p
  {
  }

  lemma RunPassNext(p: Pass, start: seq<DesiredRow>, work: seq<Work>, k: nat)
    requires k < |work|
    ensures RunPass(p, start, work[..k + 1]) == StepPass(RunPass(p, start, work[..k]), start, work[k])
  {
    hide StepPass;
    assert work[..k + 1][..k] == work[..k];
  }

  /** Nothing follows an abort. */
  lemma {:induction false} AbortEnds(p: Pass, start: seq<DesiredRow>, work: seq<Work>, k: nat)
    requires k <= |work| && RunPass(p, start, work[..k]).aborted
    ensures RunPass(p, start, work) == RunPass(p, start, work[..k])
    decreases |work| - k
  {
    hide Stepped, Counted, LatestOf;
    if k == |work| {
      assert work[..k] == work;
    } else {
      RunPassNext(p, start, work, k);
      AbortEnds(p, start, work, k + 1);
    }
  }

  const NO_WORK := Summary(0, 0, 0, 0, 0, 0, 0, 0)

  function Started(store: Store): Pass {
    Pass(store, NO_WORK, false)
  }

  class AutomationRunner {
    var desired: seq<DesiredRow>
    var sleeves: seq<StrategySleeve>
    var reconciled: set<int>
    var retired: seq<RetiredSleeve>
    var broker: Book

    ghost function State(): Store
      reads this
    {
      Store(desired, sleeves, reconciled, retired, broker)
    }

    constructor ()
      ensures State() == EMPTY_STORE
    {
      desired, sleeves, reconciled, retired, broker := [], [], {}, [], EMPTY_BOOK;
    }

    method BookAll(symbol: string, fills: seq<Fill>)
      modifies this`broker
      ensures broker == BookFills(old(broker), symbol, fills)
    {
      hide BookFills, BookFill;
      BookNone(broker, symbol);
      for k := 0 to |fills|
        invariant broker == BookFills(old(broker), symbol, fills[..k])
      {
        BookNext(old(broker), symbol, fills[..k], fills[k]);
        assert fills[..k + 1] == fills[..k] + [fills[k]];
        broker := BookFill(broker, symbol, fills[k]);
      }
      assert fills[..|fills|] == fills;
    }

    method InsertDesired(c: Candidate, decision: StrategyDecision, ob: Observation)
      requires decision.targetSide.Some?
      modifies this
      ensures State() == WriteDesired(old(State()), c, decision, ob) && desired != []
    {
      var pid, notional := c.permission.permissionId, TargetNotional(decision, ob);
      var id := OpenSleeve(sleeves, pid);
      if id.None? {
        sleeves := sleeves + [StrategySleeve(Some(pid), c.permission.symbol, "active",
                                             GetOr(notional, 0.0), EMPTY_ACCOUNT)];
      } else {
        sleeves := sleeves[id.value := sleeves[id.value].(allocatedUsd := GetOr(notional, 0.0))];
      }
      desired := desired + [DesiredRow(pid, decision.targetSide.value, decision.targetWeight, notional)];
    }

    method SimulateNewest(ob: Observation) returns (receipt: Receipt)
      requires desired != []
      modifies this
      ensures (State(), receipt) == ReconcileNewest(old(State()), ob)
    {
      var desiredId := |desired| - 1;
      var row := desired[desiredId];
      var id := OpenSleeve(sleeves, row.permissionId);
      if desiredId in reconciled || id.None? {
        return Receipt(desiredId in reconciled, false);
      }
      var sleeve := sleeves[id.value];
      var order := OrderFor(row, ob);
      var outcome := ReconcileSimulated(PassInput(Loaded(sleeve.account), order));
      reconciled := reconciled + {desiredId};
      BookAll(sleeve.symbol, outcome.fills);
      sleeves := sleeves[id.value := sleeve.(account := Stored(sleeve.account, outcome, order.marketPrice))];
      receipt := Receipt(false, outcome.incident.Some?);
    }

    method StepCandidate(latest: Option<Latest>, c: Candidate, ob: Observation, i: Interruption)
      returns (effect: Option<Effect>)
      modifies this
      ensures (State(), effect) == Stepped(old(State()), latest, c, ob, i)
    {
      hide Evaluated, Proven, ProofInputFor, StrategyInputFor, WriteDesired, ReconcileNewest;
      if i == BeforeWriting {
        return None;
      }
      var decision := EvaluateStrategy(StrategyInputFor(c, latest, ob));
      var store := Store(desired, sleeves, reconciled, retired, broker);
      var proof := EvaluateProofPolicy(ProofInputFor(store, c, decision, ob));
      if proof.result == ProofBlocked {
        return Some(WasBlocked);
      }
      match decision.kind {
        case EmitDesired =>
          InsertDesired(c, decision, ob);
          if i == AfterWriting {
            return None;
          }
          var receipt := SimulateNewest(ob);
          effect := Some(WasEmitted(receipt));
        case NoChange =>
          effect := Some(WasUnchanged);
        case DecisionBlocked =>
          effect := Some(WasBlocked);
      }
    }

    /** A pass; an error part-way returns no summary and keeps what was written. */
    method RunOnce(work: seq<Work>) returns (summary: Option<Summary>)
      modifies this
      ensures var p := RunPass(Started(old(State())), old(desired), work);
              State() == p.store && summary == if p.aborted then None else Some(p.summary)
    {
      hide Stepped, Counted, RunPass, LatestOf;
      var start := desired;
      var counts := NO_WORK;
      RunPassNone(Started(State()), start);
      for k := 0 to |work|
        invariant Pass(State(), counts, false) == RunPass(Started(old(State())), start, work[..k])
      {
        RunPassNext(Started(old(State())), start, work, k);
        var w := work[k];
        var effect := StepCandidate(LatestOf(start, w.candidate.permission.permissionId), w.candidate, w.observation,
                                    w.interruption);
        if effect.None? {
          AbortEnds(Started(old(State())), start, work, k + 1);
          return None;
        }
        counts := Counted(counts, effect.value, w.observation.features);
      }
      assert work[..|work|] == work;
      summary := Some(counts);
    }
  }
}
