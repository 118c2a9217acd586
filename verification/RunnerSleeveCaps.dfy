/** The strategy cap over whole runs of the runner: no single sleeve outgrows it. */
module RunnerSleeveCaps {
  import opened Numeric
  import opened Wrappers
  import opened Allocator
  import opened AllocatorRuns
  import opened Strategy
  import opened Runner
  import opened RunnerSafety

  /** What one sleeve of the table stands for: the larger of its allocation and its marked holding. */
  function SleeveStands(store: Store, id: int): real {
    Standing(RowsOf(store.sleeves), id)
  }

  lemma StepKeepsStrategyCap(store: Store, registry: map<int, string>, latest: Option<Latest>, c: Candidate,
                             ob: Observation, i: Interruption, id: int, cap: real)
    requires StoreInvariant(store, registry) && Registered(c, registry)
    requires LimitAtMost(ob.limits.strategyPct, ob.portfolioValue, cap)
    ensures SleeveStands(Stepped(store, latest, c, ob, i).0, id)
         <= if Appends(store, latest, c, ob, i) then Max(SleeveStands(store, id), cap) + Slack(ob)
            else SleeveStands(store, id)
  {
    hide DecisionFor, Emitted, Stepped, Standing, RowsOf, Evaluate, Acceptable, StoreInvariant, Appends, FractionOf;
    StepEffect(store, registry, latest, c, ob, i);
    if Appends(store, latest, c, ob, i) {
      var decision := DecisionFor(latest, c, ob);
      WorthIs(decision, ob);
      EmissionIsAcceptable(store, registry, c, decision, ob, i);
      EmissionIsGrant(store, registry, c, decision, ob, i);
      GrantKeepsStrategyCap(RowsOf(store.sleeves), GrantOf(store, c, decision, ob, i), id);
    }
  }

  predicate SleeveCappedWork(work: seq<Work>, cap: real) {
    forall w <- work :: LimitAtMost(w.observation.limits.strategyPct, w.observation.portfolioValue, cap)
  }

  lemma {:induction false} PassKeepsStrategyCap(store: Store, registry: map<int, string>, work: seq<Work>, id: int,
                                                cap: real, k: nat)
    requires StoreInvariant(store, registry) && ValidPass(work, registry)
    requires SleeveCappedWork(work, cap) && k <= |work|
    ensures SleeveStands(Reached(store, work, k), id) <= Max(SleeveStands(store, id), cap) + PassSlack(store, work, k)
    decreases k
  {
    hide StoreInvariant, Stepped, StepPass, Standing, RowsOf, LimitAtMost, LatestOf, PassAt, Appends, Slack,
      DistinctPermissions, Registered;
    if k == 0 {
      PassAtStart(store, work);
    } else {
      var p, w := PassAt(store, work, k - 1), work[k - 1];
      assert w in work;
      PassKeepsStrategyCap(store, registry, work, id, cap, k - 1);
      PassAtNext(store, work, k - 1);
      PassKeepsInvariant(store, registry, work, k - 1);
      StepPassIs(p, store.desired, w);
      StepKeepsStrategyCap(p.store, registry, LatestOf(store.desired, w.candidate.permission.permissionId),
                           w.candidate, w.observation, w.interruption, id, cap);
    }
  }

  /** Over any number of passes, some of them cut short, every single sleeve stands at most for the larger of what it
      stood for and the strategy cap, up to the accumulated tolerance. */
  lemma {:induction false} RunsKeepStrategyCap(store: Store, registry: map<int, string>, passes: seq<seq<Work>>,
                                               id: int, cap: real)
    requires StoreInvariant(store, registry)
    requires forall work <- passes :: ValidPass(work, registry) && SleeveCappedWork(work, cap)
    ensures SleeveStands(AfterPasses(store, passes), id) <= Max(SleeveStands(store, id), cap) + RunSlack(store, passes)
    decreases |passes|
  {
    hide StoreInvariant, SleeveStands, SleeveCappedWork, PassAt, ValidPass, PassSlack;
    if passes != [] {
      var work := passes[0];
      assert work in passes;
      AfterPassKeeps(store, registry, work);
      PassKeepsStrategyCap(store, registry, work, id, cap, |work|);
      RunsKeepStrategyCap(AfterPass(store, work), registry, passes[1..], id, cap);
    }
  }

  /** From an empty store every reachable sleeve stands for at most the strategy cap, up to that tolerance. */
  lemma EveryReachableSleeveCapped(registry: map<int, string>, passes: seq<seq<Work>>, id: int, cap: real)
    requires cap >= 0.0
    requires forall work <- passes :: ValidPass(work, registry) && SleeveCappedWork(work, cap)
    ensures SleeveStands(AfterPasses(EMPTY_STORE, passes), id) <= cap + RunSlack(EMPTY_STORE, passes)
  {
    hide AfterPasses, RunSlack, ValidPass, SleeveCappedWork;
    assert RowsOf([]) == [];
    RunsKeepStrategyCap(EMPTY_STORE, registry, passes, id, cap);
  }
}
