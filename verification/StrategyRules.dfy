/** A strategy's decision in terms of its input's own fields: what blocks it, when it goes long, how large, and when
    it asks for nothing new. */
module StrategyRules {
  import opened Wrappers
  import opened Simulator
  import opened Reasons
  import opened Strategy

  /** Now is later than the permission's expiry, or at it. */
  predicate Outlived(p: Permission, now: int) {
    p.expiresAt.Some? && now >= p.expiresAt.value
  }

  /** Older than the configured number of days, by default five and never less than one. */
  predicate Aged(asOf: int, definition: Definition, now: int) {
    var days := GetOr(definition.config.maxBarAgeDays, 5);
    now > asOf + 86400 * (if days < 1 then 1 else days)
  }

  /** The permission lets the strategy run, and its data can be used. */
  predicate Usable(input: StrategyInput) {
    var def := input.definition;
    && def.status == "shadow"
    && input.permission.Some?
    && (var p := input.permission.value;
        && p.strategyId == def.strategyId && p.version == def.version
        && p.status == "approved" && p.environmentScope == "shadow" && !p.manualFreeze
        && !Outlived(p, input.now))
    && input.features.technical.Some?
    && (var t := input.features.technical.value;
        !Aged(t.asOf, def, input.now) && t.state != "unknown" && t.entryStance != "wait_data")
  }

  /** The strategy wants to be long: its technical stance is listed and, when it times a thesis, there is a bullish
      thesis in a listed state. */
  predicate WantsLong(input: StrategyInput) {
    var config, features := input.definition.config, input.features;
    && features.technical.Some? && features.technical.value.entryStance in config.longEntryStances
    && (|| input.definition.family == "technical_timing"
        || (&& input.definition.family == "thesis_timing" && features.thesis.Some? && features.thesis.value.bullish
            && features.thesis.value.state in config.actionableThesisStates))
  }

  predicate KnownFamily(family: string) {
    family == "technical_timing" || family == "thesis_timing"
  }

  /** The permission allows short positions only. */
  predicate ShortOnly(input: StrategyInput) {
    input.permission.Some? && input.permission.value.instrumentScope == "equity_short_only"
  }

  lemma UsableIff(input: StrategyInput)
    ensures |CommonBlockers(input)| == 0 <==> Usable(input)
  {
    hide When;
  }

  lemma IntentIs(input: StrategyInput)
    requires Usable(input)
    ensures TargetIntent(input)
         == if !KnownFamily(input.definition.family) then Err(["strategy_family_unsupported"])
            else if !WantsLong(input) then Ok(Flat)
            else if ShortOnly(input) then Err(["instrument_scope_blocks_long"]) else Ok(Long)
  {
    assert |"technical_timing"| == 16 && |"thesis_timing"| == 13;
  }

  /** Exactly when a strategy is blocked: its permission or data cannot be used, its family is unknown, or it wants to
      be long where only short positions are allowed. */
  lemma BlockedIff(input: StrategyInput)
    ensures Evaluated(input).kind == DecisionBlocked
       <==> !Usable(input) || !KnownFamily(input.definition.family) || (WantsLong(input) && ShortOnly(input))
  {
    hide CommonBlockers, TargetIntent, Usable, WantsLong, MatchesTarget;
    UsableIff(input);
    if Usable(input) {
      IntentIs(input);
    }
  }

  /** An unblocked strategy goes long exactly when it wants to, and is flat otherwise. The weight of a long position is
      the permission's cap, else the configured weight, else a twentieth, kept between nothing and everything; that of
      a flat one is zero. */
  lemma LongIff(input: StrategyInput)
    requires Evaluated(input).kind != DecisionBlocked
    ensures var d, asked := Evaluated(input),
                            if input.permission.Some? && input.permission.value.maxAllocation.Some?
                            then input.permission.value.maxAllocation.value
                            else GetOr(input.definition.config.defaultWeight, 0.05);
            && (d.targetSide == Some(Long) <==> WantsLong(input))
            && (d.targetSide == Some(Flat) <==> !WantsLong(input))
            && d.targetWeight
               == Some(if !WantsLong(input) || asked < 0.0 then 0.0 else if asked > 1.0 then 1.0 else asked)
  {
    hide CommonBlockers, TargetIntent, Usable, WantsLong, MatchesTarget;
    BlockedIff(input);
    IntentIs(input);
  }

  /** An unblocked strategy asks for nothing new exactly when the latest desired position has its side and, a missing
      weight counting as zero, its weight within a millionth. */
  lemma NoChangeIff(input: StrategyInput)
    requires Evaluated(input).kind != DecisionBlocked
    ensures var d, latest := Evaluated(input), input.latest;
            && d.targetSide.Some? && d.targetWeight.Some?
            && (d.kind == NoChange <==>
                  && latest.Some? && latest.value.side == d.targetSide.value
                  && -0.000001 <= GetOr(latest.value.weight, 0.0) - d.targetWeight.value <= 0.000001)
            && (d.kind == EmitDesired <==> d.kind != NoChange)
  {
    hide CommonBlockers, TargetIntent, TargetWeight;
  }

  /** Which reason a blocked strategy gives. Without a permission or technical data nothing after that is looked at,
      and the intent is looked at only when nothing else blocks. */
  lemma BlockedReasonsAre(input: StrategyInput, reason: string)
    ensures var def, now := input.definition, input.now;
            reason in Evaluated(input).blockedReasons <==>
              match input.permission
              case None => reason == "permission_missing"
              case Some(p) =>
                || (reason == "permission_strategy_mismatch"
                    && (p.strategyId != def.strategyId || p.version != def.version))
                || (reason == "strategy_not_shadow" && def.status != "shadow")
                || (reason == "permission_not_approved" && p.status != "approved")
                || (reason == "environment_not_shadow" && p.environmentScope != "shadow")
                || (reason == "permission_frozen" && p.manualFreeze)
                || (reason == "permission_expired" && Outlived(p, now))
                || (match input.features.technical
                    case None => reason == "technical_missing"
                    case Some(t) =>
                      || (reason == "technical_stale" && Aged(t.asOf, def, now))
                      || (reason == "technical_invalid_state"
                          && (t.state == "unknown" || t.entryStance == "wait_data")))
                || (reason == "strategy_family_unsupported" && Usable(input) && !KnownFamily(def.family))
                || (reason == "instrument_scope_blocks_long" && Usable(input) && WantsLong(input) && ShortOnly(input))
  {
    hide TargetIntent, WantsLong, KnownFamily, MatchesTarget, CommonBlockers, PermissionBlockers;
    UsableIff(input);
    CommonReasonsAre(input, reason);
    if input.permission.Some? {
      PermissionReasonsAre(input.permission.value, input.definition, input.now, reason);
    }
    WantsLongIsKnown(input);
    if Usable(input) {
      IntentIs(input);
      assert CommonBlockers(input) == [];
    }
  }

  lemma WantsLongIsKnown(input: StrategyInput)
    ensures WantsLong(input) ==> KnownFamily(input.definition.family)
  {
  }

  lemma PermissionReasonsAre(p: Permission, def: Definition, now: int, reason: string)
    ensures reason in PermissionBlockers(p, def, now) <==>
              || (reason == "permission_strategy_mismatch"
                  && (p.strategyId != def.strategyId || p.version != def.version))
              || (reason == "strategy_not_shadow" && def.status != "shadow")
              || (reason == "permission_not_approved" && p.status != "approved")
              || (reason == "environment_not_shadow" && p.environmentScope != "shadow")
              || (reason == "permission_frozen" && p.manualFreeze)
              || (reason == "permission_expired" && Outlived(p, now))
  {
  }

  lemma CommonReasonsAre(input: StrategyInput, reason: string)
    ensures var def, now := input.definition, input.now;
            reason in CommonBlockers(input) <==>
              match input.permission
              case None => reason == "permission_missing"
              case Some(p) =>
                || reason in PermissionBlockers(p, def, now)
                || (match input.features.technical
                    case None => reason == "technical_missing"
                    case Some(t) =>
                      || (reason == "technical_stale" && Aged(t.asOf, def, now))
                      || (reason == "technical_invalid_state"
                          && (t.state == "unknown" || t.entryStance == "wait_data")))
  {
    hide PermissionBlockers;
  }
}
