/** Why a step of the runner is blocked, reason by reason, from the store, the candidate and the observation. */
module RunnerReasons {
  import opened Wrappers
  import opened Text
  import opened Allocator
  import opened Strategy
  import opened StrategyRules
  import opened Policy
  import opened Runner
  import opened RunnerSafety

  /** The permission itself stands in the way. */
  predicate PermissionReason(p: Permission, def: Definition, now: int, reason: string) {
    || (reason == "permission_not_approved" && p.status != "approved")
    || (reason == "strategy_stage_unknown" && !Runnable(def.status) && !Parked(def.status))
    || (reason == "strategy_stage_not_runnable" && Parked(def.status))
    || (reason == "environment_exceeds_strategy_stage"
        && Runnable(def.status) && !Runs(def.status, p.environmentScope))
    || (reason == "permission_frozen" && p.manualFreeze)
    || (reason == "permission_expired" && Outlived(p, now))
    || (reason == "permission_strategy_mismatch" && (p.strategyId != def.strategyId || p.version != def.version))
  }

  /** The data or the market does. */
  predicate DataReason(c: Candidate, ob: Observation, reason: string) {
    var technical := ob.features.technical;
    || (reason == "strategy_config_hash_missing" && AllSpace(c.definition.configHash))
    || (reason == "data_freshness_stale" && (technical.None? || Aged(technical.value.asOf, c.definition, ob.now)))
    || (reason == "data_freshness_missing" && technical.None?)
    || reason in ReadinessBlockers(ob.market, technical, c.definition, ob.now)
    || (reason == "session_closed" && !ob.market.sessionOpen)
  }

  /** The size of the position, the capital, the sleeve or the broker does. */
  predicate ExposureReason(store: Store, c: Candidate, ob: Observation, d: StrategyDecision, reason: string) {
    var p, notional := c.permission, Worth(d.targetWeight, ob.portfolioValue);
    var request :=
      Request(OpenSleeve(store.sleeves, p.permissionId), p.symbol, GetOr(notional, 0.0), ob.portfolioValue);
    || (ob.risk.veto && exists r <- ob.risk.reasons :: reason == "risk_" + r)
    || (reason == "allocation_exceeds_permission_cap" && Over(d.targetWeight, p.maxAllocation))
    || (reason == "allocation_exceeds_notional_cap" && Over(notional, p.maxNotional))
    || reason in Evaluate(request, RowsOf(store.sleeves), ob.limits).blockedReasons
    || (reason == "sleeve_frozen" && SleeveIs(store, p.permissionId, "frozen"))
    || (reason == "sleeve_closed" && SleeveIs(store, p.permissionId, "closed"))
    || (reason == "broker_state_mismatch" && (ob.broker.mismatch || ob.broker.status == "mismatch"))
  }

  lemma StatusIs(store: Store, c: Candidate, status: string)
    requires status != "missing"
    ensures SleeveStatus(store, c) == status <==> SleeveIs(store, c.permission.permissionId, status)
  {
    hide OpenSleeve, LastRetired;
  }

  /** Which reasons the proof of a candidate gives, each exactly when its own check fails in the state the candidate is
      reached in; a blocked decision's own reasons are among them. */
  lemma StepReasonsAre(store: Store, latest: Option<Latest>, c: Candidate, ob: Observation, reason: string)
    ensures var d := DecisionFor(latest, c, ob);
            reason in ProofFor(store, latest, c, ob).blockedReasons <==>
              || (reason == "automation_kill_switch" && ob.killSwitch)
              || PermissionReason(c.permission, c.definition, ob.now, reason)
              || (d.kind == DecisionBlocked && reason in d.blockedReasons)
              || DataReason(c, ob, reason)
              || ExposureReason(store, c, ob, d, reason)
  {
    hide Evaluated, Proven, Evaluate, Aged, Outlived, OpenSleeve, LastRetired, AllSpace, RowsOf, ReadinessBlockers,
      Over, TargetNotional, Worth, Runs, Runnable, Parked, FreshnessOf, SleeveStatus, SleeveIs;
    var d := DecisionFor(latest, c, ob);
    WorthIs(d, ob);
    FreshnessIs(ob.market, ob.features.technical, c.definition, ob.now);
    ProofReasonsAre(ProofInputFor(store, c, d, ob), reason);
    assert |"missing"| == 7 && |"frozen"| == 6 && |"closed"| == 6 && |"stale"| == 5 && |"fresh"| == 5;
    StatusIs(store, c, "frozen");
    StatusIs(store, c, "closed");
  }
}
