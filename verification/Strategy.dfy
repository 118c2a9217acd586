/** A shadow strategy's decision: common blockers, the two strategy families, and the comparison with
    the latest desired position. */
module Strategy {
  import opened Numeric
  import opened Wrappers
  import opened Simulator
  import opened Reasons

  /** The settings the decision reads from a strategy's configuration; absent keys take defaults. */
  datatype StrategyConfig = StrategyConfig(
    maxBarAgeDays: Option<int>, defaultWeight: Option<real>,
    longEntryStances: seq<string>, actionableThesisStates: seq<string>)

  datatype Definition = Definition(
    strategyId: string, version: string, family: string, status: string, configHash: string, config: StrategyConfig)

  datatype Permission = Permission(
    permissionId: int, symbol: string, strategyId: string, version: string, status: string,
    instrumentScope: string, environmentScope: string, manualFreeze: bool, expiresAt: Option<int>,
    maxAllocation: Option<real>, maxNotional: Option<real>)

  datatype Latest = Latest(side: Side, weight: Option<real>)

  datatype Technical = Technical(
    asOf: int, state: string, entryStance: string, close: Option<real>, previousClose: Option<real>)

  datatype Thesis = Thesis(state: string, bullish: bool)

  datatype Features = Features(technical: Option<Technical>, thesis: Option<Thesis>)

  datatype StrategyInput = StrategyInput(
    definition: Definition, permission: Option<Permission>, latest: Option<Latest>, features: Features, now: int)

  datatype DecisionKind = EmitDesired | NoChange | DecisionBlocked

  datatype StrategyDecision = StrategyDecision(
    kind: DecisionKind, targetSide: Option<Side>, targetWeight: Option<real>, blockedReasons: seq<string>)

  function MaxBarAge(definition: Definition): int {
    var days := if definition.config.maxBarAgeDays.Some? then definition.config.maxBarAgeDays.value else 5;
    (if days < 1 then 1 else days) * SECONDS_PER_DAY
  }

  predicate Expired(permission: Permission, now: int) {
    permission.expiresAt.Some? && permission.expiresAt.value <= now
  }

  predicate StrategyMatches(permission: Permission, definition: Definition) {
    permission.strategyId == definition.strategyId && permission.version == definition.version
  }

  function PermissionBlockers(permission: Permission, definition: Definition, now: int): seq<string> {
    [] + When(!StrategyMatches(permission, definition), "permission_strategy_mismatch")
    + When(definition.status != "shadow", "strategy_not_shadow")
    + When(permission.status != "approved", "permission_not_approved")
    + When(permission.environmentScope != "shadow", "environment_not_shadow")
    + When(permission.manualFreeze, "permission_frozen")
    + When(Expired(permission, now), "permission_expired")
  }

  function TechnicalBlockers(list: seq<string>, technical: Option<Technical>, definition: Definition, now: int)
    : seq<string>
  {
    match technical
    case None => list + ["technical_missing"]
    case Some(t) =>
      list
      + When(now - t.asOf > MaxBarAge(definition), "technical_stale")
      + When(t.state == "unknown" || t.entryStance == "wait_data", "technical_invalid_state")
  }

  function CommonBlockers(input: StrategyInput): seq<string> {
    match input.permission
    case None => ["permission_missing"]
    case Some(p) =>
      TechnicalBlockers(PermissionBlockers(p, input.definition, input.now),
                        input.features.technical, input.definition, input.now)
  }

  method CommonBlockedReasons(input: StrategyInput) returns (reasons: seq<string>)
    ensures reasons == CommonBlockers(input)
  {
    hide When, MaxBarAge, Expired, StrategyMatches;
    if input.permission.None? {
      return ["permission_missing"];
    }
    var p := input.permission.value;
    var list := new ReasonList();
    list.PushIf(!StrategyMatches(p, input.definition), "permission_strategy_mismatch");
    list.PushIf(input.definition.status != "shadow", "strategy_not_shadow");
    list.PushIf(p.status != "approved", "permission_not_approved");
    list.PushIf(p.environmentScope != "shadow", "environment_not_shadow");
    list.PushIf(p.manualFreeze, "permission_frozen");
    list.PushIf(Expired(p, input.now), "permission_expired");
    if input.features.technical.None? {
      return list.items + ["technical_missing"];
    }
    var t := input.features.technical.value;
    list.PushIf(input.now - t.asOf > MaxBarAge(input.definition), "technical_stale");
    list.PushIf(t.state == "unknown" || t.entryStance == "wait_data", "technical_invalid_state");
    reasons := list.items;
  }

  function LongTarget(permission: Option<Permission>): Result<Side, seq<string>> {
    if permission.None? then Err(["permission_missing"])
    else if permission.value.instrumentScope == "equity_short_only" then Err(["instrument_scope_blocks_long"])
    else Ok(Long)
  }

  function TimingTarget(input: StrategyInput): Result<Side, seq<string>> {
    match input.features.technical
    case None => Err(["technical_missing"])
    case Some(t) =>
      if t.entryStance in input.definition.config.longEntryStances then LongTarget(input.permission) else Ok(Flat)
  }

  function ThesisTarget(input: StrategyInput): Result<Side, seq<string>> {
    match input.features.thesis
    case None => Ok(Flat)
    case Some(thesis) =>
      if thesis.state !in input.definition.config.actionableThesisStates || !thesis.bullish then Ok(Flat)
      else TimingTarget(input)
  }

  function TargetIntent(input: StrategyInput): Result<Side, seq<string>> {
    if input.definition.family == "technical_timing" then TimingTarget(input)
    else if input.definition.family == "thesis_timing" then ThesisTarget(input)
    else Err(["strategy_family_unsupported"])
  }

  function TargetWeight(input: StrategyInput): (w: real)
    ensures 0.0 <= w <= 1.0
  {
    var configured := if input.definition.config.defaultWeight.Some? then input.definition.config.defaultWeight.value
                      else 0.05;
    Clamp(if input.permission.Some? && input.permission.value.maxAllocation.Some?
          then input.permission.value.maxAllocation.value else configured, 0.0, 1.0)
  }

  predicate WeightsClose(left: Option<real>, right: Option<real>) {
    match (left, right)
    case (Some(a), Some(b)) => Abs(a - b) <= EPS
    case (None, None) => true
    case (Some(a), None) => Abs(a) <= EPS
    case (None, Some(b)) => Abs(b) <= EPS
  }

  predicate MatchesTarget(latest: Option<Latest>, side: Side, weight: Option<real>) {
    latest.Some? && latest.value.side == side && WeightsClose(latest.value.weight, weight)
  }

  function Blocked(reasons: seq<string>): StrategyDecision {
    StrategyDecision(DecisionBlocked, None, None, reasons)
  }

  /** What the strategy decides when nothing blocks it. */
  function Decide(input: StrategyInput, side: Side): StrategyDecision {
    var weight := Some(if side == Flat then 0.0 else TargetWeight(input));
    StrategyDecision(if MatchesTarget(input.latest, side, weight) then NoChange else EmitDesired,
                     Some(side), weight, [])
  }

  function Evaluated(input: StrategyInput): (d: StrategyDecision)
    ensures d.kind != DecisionBlocked ==> d.targetSide.Some? && d.targetWeight.Some?
  {
    if CommonBlockers(input) != [] then Blocked(CommonBlockers(input))
    else match TargetIntent(input)
      case Err(reasons) => Blocked(reasons)
      case Ok(side) => Decide(input, side)
  }

  method EvaluateStrategy(input: StrategyInput) returns (decision: StrategyDecision)
    ensures decision == Evaluated(input)
  {
    var reasons := CommonBlockedReasons(input);
    if reasons == [] {
      match TargetIntent(input) {
        case Ok(side) =>
          return Decide(input, side);
        case Err(more) =>
          reasons := reasons + more;
      }
    }
    decision := Blocked(reasons);
  }

  /** A blocked decision always says why, and says why only when blocked. */
  lemma BlockedIffReasons(input: StrategyInput)
    ensures Evaluated(input).kind == DecisionBlocked <==> Evaluated(input).blockedReasons != []
    ensures Evaluated(input).kind != DecisionBlocked ==>
              Evaluated(input).targetSide.Some? && Evaluated(input).targetWeight.Some?
  {
  }

  /** A strategy never asks for a short position, and never more than the whole portfolio. */
  lemma DecisionIsLongOnly(input: StrategyInput)
    requires Evaluated(input).kind != DecisionBlocked
    ensures Evaluated(input).targetSide in {Some(Long), Some(Flat)}
    ensures 0.0 <= Evaluated(input).targetWeight.value <= 1.0
    ensures Evaluated(input).targetSide == Some(Flat) ==> Evaluated(input).targetWeight == Some(0.0)
  {
  }
}
