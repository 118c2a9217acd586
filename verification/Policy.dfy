/** The proof policy every desired position must pass, with the strategy stages and the market
    readiness checks that feed it. */
module Policy {
  import opened Numeric
  import opened Wrappers
  import opened Text
  import opened Reasons
  import opened Strategy
  import opened StrategyRules

  // ---------- strategy stages ----------

  datatype Stage = Draft | Shadow | Paper | CanaryLive | ExpandedLive | Frozen | Retired

  function ParseStage(s: string): Option<Stage> {
    match s
    case "draft" => Some(Draft)
    case "shadow" => Some(Shadow)
    case "paper" => Some(Paper)
    case "canary_live" => Some(CanaryLive)
    case "expanded_live" => Some(ExpandedLive)
    case "frozen" => Some(Frozen)
    case "retired" => Some(Retired)
    case _ => None
  }

  function StageRank(stage: Stage): Option<nat> {
    match stage
    case Draft => Some(0)
    case Shadow => Some(1)
    case Paper => Some(2)
    case CanaryLive => Some(3)
    case ExpandedLive => Some(4)
    case Frozen => None
    case Retired => None
  }

  function EnvironmentRank(scope: string): Option<nat> {
    match scope
    case "shadow" => Some(1)
    case "paper" => Some(2)
    case "canary_live" => Some(3)
    case "expanded_live" => Some(4)
    case _ => None
  }

  predicate IsRunnable(stage: Stage) {
    stage in {Shadow, Paper, CanaryLive, ExpandedLive}
  }

  predicate AllowsScope(stage: Stage, scope: string) {
    StageRank(stage).Some? && EnvironmentRank(scope).Some?
    && IsRunnable(stage) && EnvironmentRank(scope).value <= StageRank(stage).value
  }

  // ---------- market readiness ----------

  datatype Halt = HaltUnknown | NotHalted | Halted

  datatype Window = Window(start: int, end: int)

  datatype Market = Market(
    sessionOpen: bool, halt: Halt, adjusted: bool, maxGapPct: real, noTradeWindows: seq<Window>)

  predicate WindowContains(w: Window, time: int) {
    if w.start <= w.end then w.start <= time <= w.end else time >= w.start || time <= w.end
  }

  function PositivePrice(price: Option<real>): Option<real> {
    if price.Some? && price.value > 0.0 then price else None
  }

  predicate GapTooWide(technical: Technical, maxGapPct: real) {
    var latest, previous := PositivePrice(technical.close), PositivePrice(technical.previousClose);
    latest.Some? && previous.Some?
    && Abs(latest.value - previous.value) / previous.value * 100.0 > Max(maxGapPct, 0.0)
  }

  predicate TooOld(technical: Option<Technical>, definition: Definition, now: int) {
    technical.Some? && now - technical.value.asOf > MaxBarAge(definition)
  }

  predicate InNoTradeWindow(market: Market, now: int) {
    exists w <- market.noTradeWindows :: WindowContains(w, now % SECONDS_PER_DAY)
  }

  function ReadinessBlockers(market: Market, technical: Option<Technical>, definition: Definition, now: int)
    : seq<string>
  {
    SortDedup(MarketBlockers(market, technical, definition, now))
  }

  function MarketBlockers(market: Market, technical: Option<Technical>, definition: Definition, now: int): seq<string>
  {
    When(technical.None? || PositivePrice(technical.value.close).None?, "market_price_missing")
      + When(TooOld(technical, definition, now), "market_bar_stale")
      + When(technical.None?, "market_bar_missing")
      + When(technical.Some? && GapTooWide(technical.value, market.maxGapPct), "market_bar_gap_anomaly")
      + When(!market.sessionOpen, "market_session_closed")
      + When(market.halt == Halted, "market_halt_or_suspension")
      + When(!market.adjusted, "corporate_action_state_unsupported")
      + When(InNoTradeWindow(market, now), "no_trade_window")
  }

  // ---------- the policy ----------

  datatype Freshness = Freshness(status: string, stale: bool, readinessReasons: seq<string>)

  datatype Risk = Risk(veto: bool, reasons: seq<string>, warnings: seq<string>)

  datatype Capital = Capital(
    targetWeight: Option<real>, maxAllocation: Option<real>,
    targetNotional: Option<real>, maxNotional: Option<real>, allocatorReasons: seq<string>)

  datatype Broker = Broker(status: string, mismatch: bool)

  datatype ProofInput = ProofInput(
    definition: Definition, permission: Option<Permission>, decision: StrategyDecision, killSwitch: bool,
    freshness: Freshness, sessionOpen: bool, risk: Risk, capital: Capital, sleeveStatus: string, broker: Broker,
    now: int)

  datatype ProofResult = Passed | Warning | ProofBlocked

  datatype Proof = Proof(result: ProofResult, blockedReasons: seq<string>)

  function FreshnessOf(market: Market, technical: Option<Technical>, definition: Definition, now: int): Freshness {
    var stale := technical.None? || TooOld(technical, definition, now);
    Freshness(if technical.None? then "missing" else if stale then "stale" else "fresh", stale,
              ReadinessBlockers(market, technical, definition, now))
  }

  function StageBlockers(list: seq<string>, definition: Definition, permission: Permission): seq<string> {
    match ParseStage(definition.status)
    case None => list + ["strategy_stage_unknown"]
    case Some(stage) =>
      if !IsRunnable(stage) then list + ["strategy_stage_not_runnable"]
      else list + When(!AllowsScope(stage, permission.environmentScope), "environment_exceeds_strategy_stage")
  }

  function PermissionProofBlockers(list: seq<string>, input: ProofInput): seq<string> {
    match input.permission
    case None => list + ["permission_missing"]
    case Some(p) =>
      StageBlockers(list + When(p.status != "approved", "permission_not_approved"), input.definition, p)
      + When(p.manualFreeze, "permission_frozen")
      + When(Expired(p, input.now), "permission_expired")
      + When(!StrategyMatches(p, input.definition), "permission_strategy_mismatch")
  }

  predicate Exceeds(target: Option<real>, max: Option<real>) {
    target.Some? && max.Some? && target.value > max.value + EPS
  }

  function RiskReasons(reasons: seq<string>): (r: seq<string>)
    ensures |r| == |reasons|
  {
    if reasons == [] then [] else ["risk_" + reasons[0]] + RiskReasons(reasons[1..])
  }

  function DataBlockers(list: seq<string>, input: ProofInput): seq<string> {
    list
    + When(Trim(input.definition.configHash) == "", "strategy_config_hash_missing")
    + (if input.decision.kind == DecisionBlocked then input.decision.blockedReasons else [])
    + When(input.freshness.stale || input.freshness.status == "stale", "data_freshness_stale")
    + When(input.freshness.status == "missing", "data_freshness_missing")
    + input.freshness.readinessReasons
    + When(!input.sessionOpen, "session_closed")
  }

  function ExposureBlockers(list: seq<string>, input: ProofInput): seq<string> {
    list
    + (if input.risk.veto then RiskReasons(input.risk.reasons) else [])
    + When(Exceeds(input.capital.targetWeight, input.capital.maxAllocation), "allocation_exceeds_permission_cap")
    + When(Exceeds(input.capital.targetNotional, input.capital.maxNotional), "allocation_exceeds_notional_cap")
    + input.capital.allocatorReasons
    + When(input.sleeveStatus == "frozen", "sleeve_frozen")
    + When(input.sleeveStatus == "closed", "sleeve_closed")
    + When(input.broker.mismatch || input.broker.status == "mismatch", "broker_state_mismatch")
  }

  /** Every blocker in the order the checks push them. */
  function ProofBlockers(input: ProofInput): seq<string> {
    ExposureBlockers(
      DataBlockers(PermissionProofBlockers(When(input.killSwitch, "automation_kill_switch"), input), input), input)
  }

  function Proven(input: ProofInput): Proof {
    var reasons := SortDedup(ProofBlockers(input));
    Proof(if reasons != [] then ProofBlocked else if input.risk.warnings == [] then Passed else Warning, reasons)
  }

  method PushPermissionReasons(list: ReasonList, input: ProofInput)
    modifies list
    ensures list.items == PermissionProofBlockers(old(list.items), input)
  {
    hide When;
    if input.permission.None? {
      list.Extend(["permission_missing"]);
      return;
    }
    var p := input.permission.value;
    list.PushIf(p.status != "approved", "permission_not_approved");
    match ParseStage(input.definition.status) {
      case Some(stage) =>
        if !IsRunnable(stage) {
          list.Extend(["strategy_stage_not_runnable"]);
        } else {
          list.PushIf(!AllowsScope(stage, p.environmentScope), "environment_exceeds_strategy_stage");
        }
      case None =>
        list.Extend(["strategy_stage_unknown"]);
    }
    list.PushIf(p.manualFreeze, "permission_frozen");
    list.PushIf(Expired(p, input.now), "permission_expired");
    list.PushIf(!StrategyMatches(p, input.definition), "permission_strategy_mismatch");
  }

  method PushDataReasons(list: ReasonList, input: ProofInput)
    modifies list
    ensures list.items == DataBlockers(old(list.items), input)
  {
    hide When;
    list.PushIf(Trim(input.definition.configHash) == "", "strategy_config_hash_missing");
    if input.decision.kind == DecisionBlocked {
      list.Extend(input.decision.blockedReasons);
    }
    assert list.items == old(list.items) + When(Trim(input.definition.configHash) == "", "strategy_config_hash_missing")
                         + if input.decision.kind == DecisionBlocked then input.decision.blockedReasons else [];
    list.PushIf(input.freshness.stale || input.freshness.status == "stale", "data_freshness_stale");
    list.PushIf(input.freshness.status == "missing", "data_freshness_missing");
    list.Extend(input.freshness.readinessReasons);
    list.PushIf(!input.sessionOpen, "session_closed");
  }

  method PushExposureReasons(list: ReasonList, input: ProofInput)
    modifies list
    ensures list.items == ExposureBlockers(old(list.items), input)
  {
    hide When, RiskReasons, Exceeds;
    if input.risk.veto {
      list.Extend(RiskReasons(input.risk.reasons));
    }
    assert list.items == old(list.items) + if input.risk.veto then RiskReasons(input.risk.reasons) else [];
    list.PushIf(Exceeds(input.capital.targetWeight, input.capital.maxAllocation), "allocation_exceeds_permission_cap");
    list.PushIf(Exceeds(input.capital.targetNotional, input.capital.maxNotional), "allocation_exceeds_notional_cap");
    list.Extend(input.capital.allocatorReasons);
    list.PushIf(input.sleeveStatus == "frozen", "sleeve_frozen");
    list.PushIf(input.sleeveStatus == "closed", "sleeve_closed");
    list.PushIf(input.broker.mismatch || input.broker.status == "mismatch", "broker_state_mismatch");
  }

  method EvaluateProofPolicy(input: ProofInput) returns (proof: Proof)
    ensures proof == Proven(input)
  {
    hide DataBlockers, ExposureBlockers, PermissionProofBlockers, SortDedup, When;
    var list := new ReasonList();
    list.PushIf(input.killSwitch, "automation_kill_switch");
    assert list.items == When(input.killSwitch, "automation_kill_switch");
    PushPermissionReasons(list, input);
    PushDataReasons(list, input);
    PushExposureReasons(list, input);
    list.SortAndDedup();
    var result := ProofBlocked;
    if list.items == [] {
      result := if input.risk.warnings == [] then Passed else Warning;
    }
    proof := Proof(result, list.items);
  }

  // ---------- what passing means ----------

  /** A strategy in this stage may act in this environment: its own, or a lower one of the ladder. */
  predicate Runs(stage: string, environment: string) {
    match environment
    case "shadow" => stage in {"shadow", "paper", "canary_live", "expanded_live"}
    case "paper" => stage in {"paper", "canary_live", "expanded_live"}
    case "canary_live" => stage in {"canary_live", "expanded_live"}
    case "expanded_live" => stage == "expanded_live"
    case _ => false
  }

  predicate Runnable(stage: string) {
    stage in {"shadow", "paper", "canary_live", "expanded_live"}
  }

  predicate Parked(stage: string) {
    stage in {"draft", "frozen", "retired"}
  }

  predicate PermissionInForce(p: Permission, definition: Definition, now: int) {
    && p.status == "approved" && !p.manualFreeze && !Outlived(p, now)
    && p.strategyId == definition.strategyId && p.version == definition.version
    && Runs(definition.status, p.environmentScope)
  }

  /** An amount with a limit is above it by more than EPS. */
  predicate Over(target: Option<real>, max: Option<real>) {
    target.Some? && max.Some? && target.value - max.value > EPS
  }

  /** A proof is unblocked exactly when every check passes. A risk veto blocks only with a reason. */
  predicate EveryCheckPasses(input: ProofInput) {
    && !input.killSwitch
    && input.permission.Some? && PermissionInForce(input.permission.value, input.definition, input.now)
    && !AllSpace(input.definition.configHash)
    && (input.decision.kind == DecisionBlocked ==> input.decision.blockedReasons == [])
    && !input.freshness.stale && input.freshness.status !in {"stale", "missing"}
    && input.freshness.readinessReasons == [] && input.sessionOpen
    && (input.risk.veto ==> input.risk.reasons == [])
    && !Over(input.capital.targetWeight, input.capital.maxAllocation)
    && !Over(input.capital.targetNotional, input.capital.maxNotional)
    && input.capital.allocatorReasons == []
    && input.sleeveStatus !in {"frozen", "closed"}
    && !input.broker.mismatch && input.broker.status != "mismatch"
  }

  lemma StageRuns(stage: string, environment: string)
    ensures Runs(stage, environment)
       <==> ParseStage(stage).Some? && AllowsScope(ParseStage(stage).value, environment)
  {
    StageWords();
  }

  lemma StageParses(stage: string)
    ensures ParseStage(stage).Some? && IsRunnable(ParseStage(stage).value) <==> Runnable(stage)
    ensures ParseStage(stage).Some? && !IsRunnable(ParseStage(stage).value) <==> Parked(stage)
  {
    StageWords();
  }

  lemma StageWords()
    ensures |"draft"| == 5 && |"shadow"| == 6 && |"paper"| == 5 && |"canary_live"| == 11 && |"expanded_live"| == 13
         && |"frozen"| == 6 && |"retired"| == 7
    ensures "draft" != "paper" && "shadow" != "frozen"
  {
    assert "draft"[0] == 'd' && "paper"[0] == 'p' && "shadow"[0] == 's' && "frozen"[0] == 'f';
  }

  lemma NoPermissionBlockers(list: seq<string>, input: ProofInput)
    ensures |PermissionProofBlockers(list, input)| == 0
       <==> |list| == 0 && input.permission.Some?
            && PermissionInForce(input.permission.value, input.definition, input.now)
  {
    hide When, Runs, ParseStage, AllowsScope;
    if input.permission.Some? {
      StageRuns(input.definition.status, input.permission.value.environmentScope);
      AllowsRunnable(input.definition.status, input.permission.value.environmentScope);
    }
  }

  lemma AllowsRunnable(stage: string, environment: string)
    ensures ParseStage(stage).Some? && AllowsScope(ParseStage(stage).value, environment)
            ==> IsRunnable(ParseStage(stage).value)
  {
    hide ParseStage, StageRank, EnvironmentRank;
  }

  lemma NoDataBlockers(list: seq<string>, input: ProofInput)
    ensures |DataBlockers(list, input)| == 0
       <==> |list| == 0 && !AllSpace(input.definition.configHash)
            && (input.decision.kind == DecisionBlocked ==> input.decision.blockedReasons == [])
            && !input.freshness.stale && input.freshness.status !in {"stale", "missing"}
            && input.freshness.readinessReasons == [] && input.sessionOpen
  {
    hide When, Trim, AllSpace;
    TrimsToNothing(input.definition.configHash);
  }

  lemma NoExposureBlockers(list: seq<string>, input: ProofInput)
    ensures |ExposureBlockers(list, input)| == 0
       <==> |list| == 0 && (input.risk.veto ==> input.risk.reasons == [])
            && !Over(input.capital.targetWeight, input.capital.maxAllocation)
            && !Over(input.capital.targetNotional, input.capital.maxNotional)
            && input.capital.allocatorReasons == []
            && input.sleeveStatus !in {"frozen", "closed"}
            && !input.broker.mismatch && input.broker.status != "mismatch"
  {
    hide When, RiskReasons;
  }

  lemma UnblockedIff(input: ProofInput)
    ensures Proven(input).result != ProofBlocked <==> EveryCheckPasses(input)
    ensures Proven(input).result == ProofBlocked <==> Proven(input).blockedReasons != []
  {
    hide When, PermissionProofBlockers, DataBlockers, ExposureBlockers, PermissionInForce, Over, AllSpace, SortDedup;
    EmptyIffSortedEmpty(ProofBlockers(input));
    var start := When(input.killSwitch, "automation_kill_switch");
    var permitted := PermissionProofBlockers(start, input);
    NoPermissionBlockers(start, input);
    NoDataBlockers(permitted, input);
    NoExposureBlockers(DataBlockers(permitted, input), input);
  }

  lemma RiskOnlyAffectsExposure(input: ProofInput, risk: Risk, list: seq<string>)
    ensures DataBlockers(list, input.(risk := risk)) == DataBlockers(list, input)
    ensures PermissionProofBlockers(list, input.(risk := risk)) == PermissionProofBlockers(list, input)
  {
    hide When;
  }

  /** A veto without a reason does not block: the same input with the veto lifted has the same proof. */
  lemma SilentVetoIsIgnored(input: ProofInput)
    requires input.risk.reasons == []
    ensures Proven(input) == Proven(input.(risk := input.risk.(veto := !input.risk.veto)))
  {
    hide When, SortDedup, DataBlockers, PermissionProofBlockers, RiskReasons, Exceeds;
    var risk := input.risk.(veto := !input.risk.veto);
    assert RiskReasons([]) == [];
    var start := When(input.killSwitch, "automation_kill_switch");
    RiskOnlyAffectsExposure(input, risk, start);
    RiskOnlyAffectsExposure(input, risk, PermissionProofBlockers(start, input));
  }

  /** A close that is there and positive. */
  predicate Priced(close: Option<real>) {
    close.Some? && close.value > 0.0
  }

  /** The close moved from the previous one by more than so many percent, a negative number counting as zero. */
  predicate Gapped(t: Technical, maxGapPct: real) {
    Priced(t.close) && Priced(t.previousClose)
    && Abs(t.close.value - t.previousClose.value) * 100.0
       > (if maxGapPct < 0.0 then 0.0 else maxGapPct) * t.previousClose.value
  }

  /** The time of day is in a window, which may run over midnight. */
  predicate Closed(windows: seq<Window>, now: int) {
    exists w <- windows ::
      var t := now % 86400;
      (w.start <= t && t <= w.end) || (w.end < w.start && (t >= w.start || t <= w.end))
  }

  predicate MarketReady(market: Market, technical: Option<Technical>, definition: Definition, now: int) {
    && technical.Some? && Priced(technical.value.close) && !Aged(technical.value.asOf, definition, now)
    && !Gapped(technical.value, market.maxGapPct)
    && market.sessionOpen && market.halt != Halted && market.adjusted
    && !Closed(market.noTradeWindows, now)
  }

  lemma GapIff(t: Technical, maxGapPct: real)
    ensures GapTooWide(t, maxGapPct) <==> Gapped(t, maxGapPct)
  {
    if Priced(t.close) && Priced(t.previousClose) {
      RatioAbove(Abs(t.close.value - t.previousClose.value), t.previousClose.value, Max(maxGapPct, 0.0));
    }
  }

  lemma RatioAbove(a: real, b: real, limit: real)
    requires b > 0.0
    ensures a / b * 100.0 > limit <==> a * 100.0 > limit * b
  {
    DivCancels(a, b);
    assert a / b * 100.0 * b == a * 100.0;
    if a / b * 100.0 > limit {
      MulStrict(limit, a / b * 100.0, b);
    } else {
      MulMonotone(a / b * 100.0, limit, b);
    }
  }

  lemma AgedIff(technical: Option<Technical>, definition: Definition, now: int)
    ensures TooOld(technical, definition, now) <==> technical.Some? && Aged(technical.value.asOf, definition, now)
  {
  }

  lemma ClosedIff(market: Market, now: int)
    ensures InNoTradeWindow(market, now) <==> Closed(market.noTradeWindows, now)
  {
  }

  /** Exactly when the market is ready, in terms of its own fields. */
  lemma MarketReadyIff(market: Market, technical: Option<Technical>, definition: Definition, now: int)
    ensures ReadinessBlockers(market, technical, definition, now) == []
       <==> MarketReady(market, technical, definition, now)
  {
    hide When, GapTooWide, Gapped, InNoTradeWindow, Closed, TooOld, Aged;
    EmptyIffSortedEmpty(MarketBlockers(market, technical, definition, now));
    AgedIff(technical, definition, now);
    ClosedIff(market, now);
    if technical.Some? {
      GapIff(technical.value, market.maxGapPct);
    }
  }

  /** Which reason an unready market gives. */
  lemma MarketReasonsAre(market: Market, technical: Option<Technical>, definition: Definition, now: int, reason: string)
    ensures reason in ReadinessBlockers(market, technical, definition, now) <==>
              || (reason == "market_price_missing" && (technical.None? || !Priced(technical.value.close)))
              || (reason == "market_bar_stale" && technical.Some? && Aged(technical.value.asOf, definition, now))
              || (reason == "market_bar_missing" && technical.None?)
              || (reason == "market_bar_gap_anomaly" && technical.Some? && Gapped(technical.value, market.maxGapPct))
              || (reason == "market_session_closed" && !market.sessionOpen)
              || (reason == "market_halt_or_suspension" && market.halt == Halted)
              || (reason == "corporate_action_state_unsupported" && !market.adjusted)
              || (reason == "no_trade_window" && Closed(market.noTradeWindows, now))
    ensures StrictlySorted(ReadinessBlockers(market, technical, definition, now))
  {
    hide GapTooWide, Gapped, InNoTradeWindow, Closed, TooOld, Aged, SortDedup;
    AgedIff(technical, definition, now);
    ClosedIff(market, now);
    if technical.Some? {
      GapIff(technical.value, market.maxGapPct);
    }
  }

  /** What the data's freshness says. */
  lemma FreshnessIs(market: Market, technical: Option<Technical>, definition: Definition, now: int)
    ensures var f := FreshnessOf(market, technical, definition, now);
            && (f.stale <==> technical.None? || Aged(technical.value.asOf, definition, now))
            && f.status == (if technical.None? then "missing" else if f.stale then "stale" else "fresh")
            && f.readinessReasons == ReadinessBlockers(market, technical, definition, now)
  {
    hide ReadinessBlockers, Aged, TooOld;
    AgedIff(technical, definition, now);
  }

  /** The weight of an unblocked decision is the permission's own cap, or flat: so the permission-cap check blocks
      it exactly when the cap is negative beyond the tolerance. */
  lemma PermissionCapBlocksIff(input: StrategyInput)
    requires Evaluated(input).kind != DecisionBlocked && input.permission.Some?
    ensures var cap := input.permission.value.maxAllocation;
            Over(Evaluated(input).targetWeight, cap) <==> cap.Some? && cap.value < -EPS
  {
    hide CommonBlockers, TargetIntent, MatchesTarget;
  }

  // ---------- which reasons a blocked proof gives ----------

  lemma {:induction false} RiskReasonsAre(reasons: seq<string>, reason: string)
    ensures reason in RiskReasons(reasons) <==> exists r <- reasons :: reason == "risk_" + r
  {
    if reasons != [] {
      RiskReasonsAre(reasons[1..], reason);
      assert forall r :: r in reasons <==> r == reasons[0] || r in reasons[1..];
    }
  }

  lemma PermissionReasonsAre(list: seq<string>, input: ProofInput, reason: string)
    ensures var stage := input.definition.status;
            reason in PermissionProofBlockers(list, input) <==>
              || reason in list
              || match input.permission
                 case None => reason == "permission_missing"
                 case Some(p) =>
                   || (reason == "permission_not_approved" && p.status != "approved")
                   || (reason == "strategy_stage_unknown" && !Runnable(stage) && !Parked(stage))
                   || (reason == "strategy_stage_not_runnable" && Parked(stage))
                   || (reason == "environment_exceeds_strategy_stage" && Runnable(stage)
                       && !Runs(stage, p.environmentScope))
                   || (reason == "permission_frozen" && p.manualFreeze)
                   || (reason == "permission_expired" && Outlived(p, input.now))
                   || (reason == "permission_strategy_mismatch"
                       && (p.strategyId != input.definition.strategyId || p.version != input.definition.version))
  {
    hide ParseStage, AllowsScope, IsRunnable, Runs, Runnable, Parked;
    StageParses(input.definition.status);
    if input.permission.Some? {
      StageRuns(input.definition.status, input.permission.value.environmentScope);
    }
  }

  lemma DataReasonsAre(list: seq<string>, input: ProofInput, reason: string)
    ensures reason in DataBlockers(list, input) <==>
              || reason in list
              || (reason == "strategy_config_hash_missing" && AllSpace(input.definition.configHash))
              || (input.decision.kind == DecisionBlocked && reason in input.decision.blockedReasons)
              || (reason == "data_freshness_stale" && (input.freshness.stale || input.freshness.status == "stale"))
              || (reason == "data_freshness_missing" && input.freshness.status == "missing")
              || reason in input.freshness.readinessReasons
              || (reason == "session_closed" && !input.sessionOpen)
  {
    hide Trim, AllSpace;
    TrimsToNothing(input.definition.configHash);
  }

  lemma ExposureReasonsAre(list: seq<string>, input: ProofInput, reason: string)
    ensures reason in ExposureBlockers(list, input) <==>
              || reason in list
              || (input.risk.veto && exists r <- input.risk.reasons :: reason == "risk_" + r)
              || (reason == "allocation_exceeds_permission_cap"
                  && Over(input.capital.targetWeight, input.capital.maxAllocation))
              || (reason == "allocation_exceeds_notional_cap"
                  && Over(input.capital.targetNotional, input.capital.maxNotional))
              || reason in input.capital.allocatorReasons
              || (reason == "sleeve_frozen" && input.sleeveStatus == "frozen")
              || (reason == "sleeve_closed" && input.sleeveStatus == "closed")
              || (reason == "broker_state_mismatch" && (input.broker.mismatch || input.broker.status == "mismatch"))
  {
    hide RiskReasons;
    RiskReasonsAre(input.risk.reasons, reason);
  }

  /** Which reasons a proof gives, sorted and each once; it passes with a warning when only warnings are left. */
  lemma ProofReasonsAre(input: ProofInput, reason: string)
    ensures var proof, stage := Proven(input), input.definition.status;
            && StrictlySorted(proof.blockedReasons)
            && (proof.result == Warning <==> proof.blockedReasons == [] && input.risk.warnings != [])
            && (proof.result == Passed <==> proof.blockedReasons == [] && input.risk.warnings == [])
            && (reason in proof.blockedReasons <==>
              || (reason == "automation_kill_switch" && input.killSwitch)
              || (match input.permission
                  case None => reason == "permission_missing"
                  case Some(p) =>
                    || (reason == "permission_not_approved" && p.status != "approved")
                    || (reason == "strategy_stage_unknown" && !Runnable(stage) && !Parked(stage))
                    || (reason == "strategy_stage_not_runnable" && Parked(stage))
                    || (reason == "environment_exceeds_strategy_stage" && Runnable(stage)
                        && !Runs(stage, p.environmentScope))
                    || (reason == "permission_frozen" && p.manualFreeze)
                    || (reason == "permission_expired" && Outlived(p, input.now))
                    || (reason == "permission_strategy_mismatch"
                        && (p.strategyId != input.definition.strategyId || p.version != input.definition.version)))
              || (reason == "strategy_config_hash_missing" && AllSpace(input.definition.configHash))
              || (input.decision.kind == DecisionBlocked && reason in input.decision.blockedReasons)
              || (reason == "data_freshness_stale" && (input.freshness.stale || input.freshness.status == "stale"))
              || (reason == "data_freshness_missing" && input.freshness.status == "missing")
              || reason in input.freshness.readinessReasons
              || (reason == "session_closed" && !input.sessionOpen)
              || (input.risk.veto && exists r <- input.risk.reasons :: reason == "risk_" + r)
              || (reason == "allocation_exceeds_permission_cap"
                  && Over(input.capital.targetWeight, input.capital.maxAllocation))
              || (reason == "allocation_exceeds_notional_cap"
                  && Over(input.capital.targetNotional, input.capital.maxNotional))
              || reason in input.capital.allocatorReasons
              || (reason == "sleeve_frozen" && input.sleeveStatus == "frozen")
              || (reason == "sleeve_closed" && input.sleeveStatus == "closed")
              || (reason == "broker_state_mismatch" && (input.broker.mismatch || input.broker.status == "mismatch")))
  {
    hide When, PermissionProofBlockers, DataBlockers, ExposureBlockers, SortDedup, Runs, Runnable, Parked, Over,
      AllSpace, Outlived;
    var start := When(input.killSwitch, "automation_kill_switch");
    InWhen(input.killSwitch, "automation_kill_switch", reason);
    PermissionReasonsAre(start, input, reason);
    DataReasonsAre(PermissionProofBlockers(start, input), input, reason);
    ExposureReasonsAre(DataBlockers(PermissionProofBlockers(start, input), input), input, reason);
  }

  /** A stage that allows a scope allows every lower scope, and no stage below shadow or outside the
      ladder allows anything. */
  lemma ScopesAreALadder(stage: Stage, scope: string, lower: string)
    requires AllowsScope(stage, scope) && EnvironmentRank(lower).Some?
    requires EnvironmentRank(lower).value <= EnvironmentRank(scope).value
    ensures AllowsScope(stage, lower)
    ensures stage !in {Draft, Frozen, Retired}
    ensures stage == Shadow ==> scope == "shadow"
  {
  }
}
