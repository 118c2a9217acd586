/** What an error between writing a desired position and reconciling it leaves behind: exactly one row that is never
    reconciled, and a sleeve that stays as it was for as long as the strategy keeps wanting that row. */
module RunnerStranding {
  import opened Wrappers
  import opened Text
  import opened Simulator
  import opened Sleeve
  import opened Reasons
  import opened Allocator
  import opened Strategy
  import opened Policy
  import opened Runner
  import opened RunnerSafety

  // ---------- which rows stay unreconciled ----------

  /** Desired rows that have not been reconciled. */
  function Stranded(store: Store): set<int> {
    set id | 0 <= id < |store.desired| && id !in store.reconciled
  }

  /** The k-th candidate of a pass writes its row, and an error then ends the pass. */
  predicate StrandsAt(store: Store, work: seq<Work>, k: nat)
    requires k < |work|
  {
    AppendsAt(store, work, k) && work[k].interruption == AfterWriting
  }

  predicate StrandsBefore(store: Store, work: seq<Work>, k: nat)
    requires k <= |work|
  {
    exists j | 0 <= j < k :: StrandsAt(store, work, j)
  }

  lemma StepStrands(store: Store, registry: map<int, string>, latest: Option<Latest>, c: Candidate, ob: Observation,
                    i: Interruption)
    requires StoreInvariant(store, registry)
    ensures var next := Stepped(store, latest, c, ob, i).0;
            if Appends(store, latest, c, ob, i) && i == AfterWriting
            then Stranded(next) == Stranded(store) + {|store.desired|} && |next.desired| == |store.desired| + 1
            else Stranded(next) == Stranded(store)
  {
    hide Stepped, DecisionFor, Appends, EmittedRow, NoRepeats, SleevesOwned;
    StepRows(store, registry, latest, c, ob, i);
    NewestIsOpen(store, registry);
  }

  lemma StepAborts(p: Pass, start: seq<DesiredRow>, w: Work)
    requires w.interruption == AfterWriting && !p.aborted
    requires Appends(p.store, LatestOf(start, w.candidate.permission.permissionId), w.candidate, w.observation,
                     w.interruption)
    ensures StepPass(p, start, w).aborted
  {
    hide ProofFor, DecisionFor, LatestOf, WriteDesired, ReconcileNewest;
  }

  lemma StrandsNext(store: Store, work: seq<Work>, k: nat)
    requires k < |work|
    ensures StrandsBefore(store, work, k + 1) <==> StrandsBefore(store, work, k) || StrandsAt(store, work, k)
  {
    hide StrandsAt;
  }

  /** A pass strands exactly one row, the last it wrote, when it wrote one and was then interrupted before
      reconciling it; otherwise it strands none. */
  lemma {:induction false} PassStrandsIff(store: Store, registry: map<int, string>, work: seq<Work>, k: nat)
    requires StoreInvariant(store, registry) && ValidPass(work, registry) && k <= |work|
    ensures var p := PassAt(store, work, k);
            && (StrandsBefore(store, work, k) ==> p.aborted)
            && Stranded(p.store)
               == Stranded(store) + (if StrandsBefore(store, work, k) then {|p.store.desired| - 1} else {})
            && (StrandsBefore(store, work, k) ==> |p.store.desired| - 1 >= |store.desired|)
    decreases k
  {
    hide StoreInvariant, Stepped, StepPass, PassAt, DistinctPermissions, AllRegistered, Appends, Stranded,
      StrandsBefore, LatestOf;
    if k == 0 {
      PassAtStart(store, work);
      NoneBefore(store, work);
    } else {
      var p, w := PassAt(store, work, k - 1), work[k - 1];
      var latest := LatestOf(store.desired, w.candidate.permission.permissionId);
      PassStrandsIff(store, registry, work, k - 1);
      PassKeepsInvariant(store, registry, work, k - 1);
      PassAtNext(store, work, k - 1);
      StrandsNext(store, work, k - 1);
      AbortPersists(p, store.desired, w);
      StepPassIs(p, store.desired, w);
      StepStrands(p.store, registry, latest, w.candidate, w.observation, w.interruption);
      if StrandsAt(store, work, k - 1) {
        StepAborts(p, store.desired, w);
      }
    }
  }

  lemma NoneBefore(store: Store, work: seq<Work>)
    ensures !StrandsBefore(store, work, 0)
  {
  }

  lemma StrandedInRange(store: Store, id: int)
    ensures id in Stranded(store) ==> id < |store.desired|
  {
  }

  /** So the number of unreconciled rows grows by one or by zero. */
  lemma PassStrandsCount(store: Store, registry: map<int, string>, work: seq<Work>)
    requires StoreInvariant(store, registry) && ValidPass(work, registry)
    ensures |Stranded(AfterPass(store, work))|
         == |Stranded(store)| + if StrandsBefore(store, work, |work|) then 1 else 0
  {
    hide StoreInvariant, PassAt, Stranded, StrandsBefore, ValidPass;
    PassStrandsIff(store, registry, work, |work|);
    StrandedInRange(store, |AfterPass(store, work).desired| - 1);
  }

  function StrandedPasses(store: Store, passes: seq<seq<Work>>): nat
    decreases |passes|
  {
    if passes == [] then 0
    else (if StrandsBefore(store, passes[0], |passes[0]|) then 1 else 0)
         + StrandedPasses(AfterPass(store, passes[0]), passes[1..])
  }

  /** Over any number of passes the unreconciled rows are those left before plus one for every pass interrupted
      between writing and reconciling: a stranded row is never reconciled later. */
  lemma {:induction false} RunStrands(store: Store, registry: map<int, string>, passes: seq<seq<Work>>)
    requires StoreInvariant(store, registry) && forall work <- passes :: ValidPass(work, registry)
    ensures Stranded(store) <= Stranded(AfterPasses(store, passes))
    ensures |Stranded(AfterPasses(store, passes))| == |Stranded(store)| + StrandedPasses(store, passes)
    decreases |passes|
  {
    hide StoreInvariant, PassAt, Stranded, StrandsBefore, ValidPass, AfterPass;
    if passes != [] {
      var work := passes[0];
      assert work in passes;
      AfterPassKeeps(store, registry, work);
      PassStrandsCount(store, registry, work);
      PassOnlyAdds(store, registry, work);
      RunStrands(AfterPass(store, work), registry, passes[1..]);
    }
  }

  lemma PassOnlyAdds(store: Store, registry: map<int, string>, work: seq<Work>)
    requires StoreInvariant(store, registry) && ValidPass(work, registry)
    ensures Stranded(store) <= Stranded(AfterPass(store, work))
  {
    hide StoreInvariant, PassAt, Stranded, StrandsBefore, ValidPass;
    PassStrandsIff(store, registry, work, |work|);
  }

  // ---------- how long the sleeve stays behind ----------

  /** The strategy is blocked, or wants what the permission's latest row already says. */
  predicate Quiet(latest: Option<Latest>, c: Candidate, ob: Observation) {
    var d := DecisionFor(latest, c, ob);
    d.kind != DecisionBlocked ==> MatchesTarget(latest, d.targetSide.value, d.targetWeight)
  }

  lemma RepeatIsNoChange(latest: Option<Latest>, c: Candidate, ob: Observation)
    requires Quiet(latest, c, ob) && DecisionFor(latest, c, ob).kind != DecisionBlocked
    ensures DecisionFor(latest, c, ob).kind == NoChange
  {
    hide CommonBlockers, TargetIntent, MatchesTarget;
  }

  /** A written target is not retried: a quiet step leaves the store alone. */
  lemma WrittenTargetNotRetried(store: Store, latest: Option<Latest>, c: Candidate, ob: Observation, i: Interruption)
    requires Quiet(latest, c, ob)
    ensures Stepped(store, latest, c, ob, i).0 == store
  {
    hide DecisionFor, ProofFor, Quiet;
    if DecisionFor(latest, c, ob).kind != DecisionBlocked {
      RepeatIsNoChange(latest, c, ob);
    }
  }

  predicate QuietFor(work: seq<Work>, pid: int, latest: Option<Latest>) {
    forall w <- work | w.candidate.permission.permissionId == pid :: Quiet(latest, w.candidate, w.observation)
  }

  /** The permission's sleeve, by its place in the table. */
  predicate HasSleeve(store: Store, pid: int, at: int) {
    0 <= at < |store.sleeves| && store.sleeves[at].owner == Some(pid)
  }

  lemma StepLeavesSleeve(store: Store, registry: map<int, string>, latest: Option<Latest>, c: Candidate,
                         ob: Observation, i: Interruption, pid: int, at: int)
    requires StoreInvariant(store, registry) && HasSleeve(store, pid, at) && c.permission.permissionId != pid
    ensures var next := Stepped(store, latest, c, ob, i).0;
            HasSleeve(next, pid, at) && next.sleeves[at] == store.sleeves[at]
  {
    hide Stepped, DecisionFor, Appends, Emitted, ReconcileAccount, StoreInvariant, GateOpen;
    StepEffect(store, registry, latest, c, ob, i);
    if Appends(store, latest, c, ob, i) {
      EmissionResizesOneSleeve(store, registry, c, DecisionFor(latest, c, ob), ob, i);
    }
  }

  lemma {:induction false} QuietPass(store: Store, registry: map<int, string>, work: seq<Work>, k: nat, pid: int,
                                     at: int)
    requires StoreInvariant(store, registry) && ValidPass(work, registry) && k <= |work|
    requires HasSleeve(store, pid, at) && QuietFor(work, pid, LatestOf(store.desired, pid))
    ensures var next := Reached(store, work, k);
            && HasSleeve(next, pid, at) && next.sleeves[at] == store.sleeves[at]
            && LatestOf(next.desired, pid) == LatestOf(store.desired, pid)
    decreases k
  {
    hide StoreInvariant, Stepped, StepPass, PassAt, DistinctPermissions, AllRegistered, LatestOf, Quiet;
    if k == 0 {
      PassAtStart(store, work);
    } else {
      var p, w := PassAt(store, work, k - 1), work[k - 1];
      var latest := LatestOf(store.desired, w.candidate.permission.permissionId);
      QuietPass(store, registry, work, k - 1, pid, at);
      PassKeepsInvariant(store, registry, work, k - 1);
      PassAtNext(store, work, k - 1);
      StepPassIs(p, store.desired, w);
      assert w in work;
      if w.candidate.permission.permissionId == pid {
        WrittenTargetNotRetried(p.store, latest, w.candidate, w.observation, w.interruption);
      } else {
        StepLeavesSleeve(p.store, registry, latest, w.candidate, w.observation, w.interruption, pid, at);
        StepLeavesOthers(p.store, registry, latest, w.candidate, w.observation, w.interruption);
      }
    }
  }

  /** Over any number of passes, whatever other permissions do: while each decision of a permission is blocked or
      matches its latest row, its sleeve, allocation and account, does not change. */
  lemma {:induction false} QuietRun(store: Store, registry: map<int, string>, passes: seq<seq<Work>>, pid: int, at: int)
    requires StoreInvariant(store, registry) && HasSleeve(store, pid, at)
    requires forall work <- passes :: ValidPass(work, registry) && QuietFor(work, pid, LatestOf(store.desired, pid))
    ensures var end := AfterPasses(store, passes);
            HasSleeve(end, pid, at) && end.sleeves[at] == store.sleeves[at]
    decreases |passes|
  {
    hide StoreInvariant, PassAt, ValidPass, QuietFor, LatestOf;
    if passes != [] {
      var work := passes[0];
      assert work in passes;
      AfterPassKeeps(store, registry, work);
      QuietPass(store, registry, work, |work|, pid, at);
      QuietRun(AfterPass(store, work), registry, passes[1..], pid, at);
    }
  }

  // ---------- an input that strands ----------

  const EXAMPLE_DEFINITION := Definition(
    "timing", "1", "technical_timing", "shadow", "hash", StrategyConfig(None, None, ["enter"], []))

  const EXAMPLE_PERMISSION := Permission(
    1, "ACME", "timing", "1", "approved", "equity", "shadow", false, None, Some(0.1), None)

  const EXAMPLE_CANDIDATE := Candidate(EXAMPLE_DEFINITION, EXAMPLE_PERMISSION)

  const EXAMPLE_TECHNICAL := Technical(0, "up", "enter", Some(10.0), None)

  const EXAMPLE_OBSERVATION := Observation(
    Features(Some(EXAMPLE_TECHNICAL), None), 0, false, Market(true, NotHalted, true, 20.0, []), 1000.0,
    Limits(None, None, None), Risk(false, [], []), Broker("ok", false), 10.0)

  lemma ExampleDecision()
    ensures DecisionFor(None, EXAMPLE_CANDIDATE, EXAMPLE_OBSERVATION)
         == StrategyDecision(EmitDesired, Some(Long), Some(0.1), [])
  {
    hide When;
    var input := StrategyInputFor(EXAMPLE_CANDIDATE, None, EXAMPLE_OBSERVATION);
    assert |CommonBlockers(input)| == 0;
    assert TargetIntent(input) == Ok(Long);
    assert TargetWeight(input) == 0.1;
  }

  lemma ExampleHashed()
    ensures !AllSpace("hash")
  {
    assert "hash"[0] == 'h' && !IsSpace('h');
    assert "hash"[0] in "hash";
  }

  lemma ExampleProof()
    ensures ProofFor(EMPTY_STORE, None, EXAMPLE_CANDIDATE, EXAMPLE_OBSERVATION).result != ProofBlocked
  {
    hide Proven, Evaluated, AllSpace, Evaluate, MarketBlockers;
    var decision := DecisionFor(None, EXAMPLE_CANDIDATE, EXAMPLE_OBSERVATION);
    var input := ProofInputFor(EMPTY_STORE, EXAMPLE_CANDIDATE, decision, EXAMPLE_OBSERVATION);
    ExampleDecision();
    ExampleHashed();
    ExampleReady();
    ExampleAllocated(decision);
    UnblockedIff(input);
    assert PermissionInForce(EXAMPLE_PERMISSION, EXAMPLE_DEFINITION, 0);
    assert EveryCheckPasses(input);
  }

  lemma ExampleReady()
    ensures ReadinessBlockers(EXAMPLE_OBSERVATION.market, Some(EXAMPLE_TECHNICAL), EXAMPLE_DEFINITION, 0) == []
  {
    MarketReadyIff(EXAMPLE_OBSERVATION.market, Some(EXAMPLE_TECHNICAL), EXAMPLE_DEFINITION, 0);
  }

  lemma ExampleAllocated(decision: StrategyDecision)
    ensures var request := RequestFor(EMPTY_STORE, EXAMPLE_CANDIDATE, decision, EXAMPLE_OBSERVATION);
            Evaluate(request, RowsOf(EMPTY_STORE.sleeves), EXAMPLE_OBSERVATION.limits).blockedReasons == []
  {
    hide When, SortDedup;
    var request := RequestFor(EMPTY_STORE, EXAMPLE_CANDIDATE, decision, EXAMPLE_OBSERVATION);
    assert RowsOf([]) == [];
    var reasons :=
      Blockers(request, None, Total([], Some(request.symbol)), Total([], None), EXAMPLE_OBSERVATION.limits);
    EmptyIffSortedEmpty(reasons);
    assert |reasons| == 0;
  }

  /** An approved shadow permission to hold a tenth of 1000 in a stock at 10, and an error after writing: one desired
      row, nothing reconciled, and a sleeve allocated 100 that holds nothing. */
  lemma StrandingExample()
    ensures Appends(EMPTY_STORE, None, EXAMPLE_CANDIDATE, EXAMPLE_OBSERVATION, AfterWriting)
    ensures var next := Stepped(EMPTY_STORE, None, EXAMPLE_CANDIDATE, EXAMPLE_OBSERVATION, AfterWriting).0;
            && next.desired == [DesiredRow(1, Long, Some(0.1), Some(100.0))]
            && next.sleeves == [StrategySleeve(Some(1), "ACME", "active", 100.0, EMPTY_ACCOUNT)]
            && next.reconciled == {} && Stranded(next) == {0}
  {
    hide DecisionFor, ProofFor;
    ExampleDecision();
    ExampleProof();
  }
}
