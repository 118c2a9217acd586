/** What the counters of a pass count, candidate by candidate. */
module RunnerCounts {
  import opened Strategy
  import opened Runner
  import opened RunnerSafety

  /** The decision about the k-th candidate, against the rows read when the pass began. */
  function DecisionAt(store: Store, work: seq<Work>, k: nat): StrategyDecision
    requires k < |work|
  {
    var w := work[k];
    DecisionFor(LatestOf(store.desired, w.candidate.permission.permissionId), w.candidate, w.observation)
  }

  /** The k-th candidate wants nothing new and, in the state it is reached in, clears the gate. */
  predicate SteadyAt(store: Store, work: seq<Work>, k: nat)
    requires k < |work|
  {
    DecisionAt(store, work, k).kind == NoChange
    && GateOpen(Reached(store, work, k), work[k].candidate, work[k].observation, DecisionAt(store, work, k))
  }

  /** The k-th candidate wants a new position and, in the state it is reached in, clears the gate. */
  predicate EmittingAt(store: Store, work: seq<Work>, k: nat)
    requires k < |work|
  {
    DecisionAt(store, work, k).kind == EmitDesired
    && GateOpen(Reached(store, work, k), work[k].candidate, work[k].observation, DecisionAt(store, work, k))
  }

  function Steadies(store: Store, work: seq<Work>, k: nat): nat
    requires k <= |work|
  {
    if k == 0 then 0 else Steadies(store, work, k - 1) + if SteadyAt(store, work, k - 1) then 1 else 0
  }

  function Emissions(store: Store, work: seq<Work>, k: nat): nat
    requires k <= |work|
  {
    if k == 0 then 0 else Emissions(store, work, k - 1) + if EmittingAt(store, work, k - 1) then 1 else 0
  }

  function Featureless(work: seq<Work>, k: nat): nat
    requires k <= |work|
  {
    if k == 0 then 0
    else Featureless(work, k - 1) + if work[k - 1].observation.features.technical.None? then 1 else 0
  }

  /** Counters of k candidates: how many emitted, how many were unchanged, and how many lacked technical data. */
  predicate Counts(s: Summary, k: nat, emissions: nat, steadies: nat, featureless: nat) {
    && s.evaluated == k && s.emitted == s.reconciled == emissions && s.steady == steadies
    && s.blocked == k - emissions - steadies && s.noFeatures == featureless && s.duplicates == s.incidents == 0
  }

  lemma StepCounts(p: Pass, registry: map<int, string>, start: seq<DesiredRow>, w: Work, k: nat, emissions: nat,
                   steadies: nat, featureless: nat)
    requires StoreInvariant(p.store, registry) && !p.aborted && !StepPass(p, start, w).aborted
    requires Counts(p.summary, k, emissions, steadies, featureless)
    ensures var d := DecisionFor(LatestOf(start, w.candidate.permission.permissionId), w.candidate, w.observation);
            var gate := GateOpen(p.store, w.candidate, w.observation, d);
            Counts(StepPass(p, start, w).summary, k + 1,
                   emissions + (if d.kind == EmitDesired && gate then 1 else 0),
                   steadies + (if d.kind == NoChange && gate then 1 else 0),
                   featureless + (if w.observation.features.technical.None? then 1 else 0))
  {
    hide StoreInvariant, DecisionFor, ProofFor, GateOpen, LatestOf, Emitted, WriteDesired, ReconcileNewest;
    var latest := LatestOf(start, w.candidate.permission.permissionId);
    UnblockedStep(p.store, latest, w.candidate, w.observation);
    StepEffect(p.store, registry, latest, w.candidate, w.observation, w.interruption);
  }

  lemma CountsNext(store: Store, work: seq<Work>, k: nat)
    requires k < |work|
    ensures var d, w := DecisionAt(store, work, k), work[k];
            var gate := GateOpen(Reached(store, work, k), w.candidate, w.observation, d);
            && Emissions(store, work, k + 1)
               == Emissions(store, work, k) + (if d.kind == EmitDesired && gate then 1 else 0)
            && Steadies(store, work, k + 1) == Steadies(store, work, k) + (if d.kind == NoChange && gate then 1 else 0)
            && Featureless(work, k + 1)
               == Featureless(work, k) + (if w.observation.features.technical.None? then 1 else 0)
  {
    hide GateOpen, DecisionAt, Reached;
  }

  lemma CountsNone(store: Store, work: seq<Work>)
    ensures Counts(NO_WORK, 0, Emissions(store, work, 0), Steadies(store, work, 0), Featureless(work, 0))
  {
  }

  /** Each counter of a pass that ran so far counts exactly its candidates: emitted and reconciled those that want a
      new position and clear the gate, unchanged those that want none and clear it, blocked all others, and, among
      all, those without technical data. */
  lemma {:induction false} PassCounts(store: Store, registry: map<int, string>, work: seq<Work>, k: nat)
    requires StoreInvariant(store, registry) && ValidPass(work, registry) && k <= |work|
    ensures var p := PassAt(store, work, k);
            !p.aborted ==>
              Counts(p.summary, k, Emissions(store, work, k), Steadies(store, work, k), Featureless(work, k))
    decreases k
  {
    hide StoreInvariant, StepPass, PassAt, DistinctPermissions, AllRegistered, GateOpen, DecisionFor, LatestOf, Counts,
      Emissions, Steadies, Featureless;
    if k == 0 {
      PassAtStart(store, work);
      CountsNone(store, work);
    } else {
      var p := PassAt(store, work, k - 1);
      PassCounts(store, registry, work, k - 1);
      PassAtNext(store, work, k - 1);
      PassKeepsInvariant(store, registry, work, k - 1);
      AbortPersists(p, store.desired, work[k - 1]);
      CountsNext(store, work, k - 1);
      if !PassAt(store, work, k).aborted {
        StepCounts(p, registry, store.desired, work[k - 1], k - 1, Emissions(store, work, k - 1),
                   Steadies(store, work, k - 1), Featureless(work, k - 1));
      }
    }
  }
}
