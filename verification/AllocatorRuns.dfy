/** Structure of the allocation decision, and the caps' safety over runs of accepted requests. */
module AllocatorRuns {
  import opened Numeric
  import opened Wrappers
  import opened Text
  import opened Reasons
  import opened Permutations
  import opened Allocator

  /** Sleeve ids are a primary key. */
  predicate UniqueIds(sleeves: seq<SleeveRow>) {
    forall i, j | 0 <= i < j < |sleeves| :: !SameSleeve(sleeves[i].id, sleeves[j].id)
  }

  /** A sleeve the request resizes carries the request's symbol. */
  predicate OwnSymbolMatches(request: Request, sleeves: seq<SleeveRow>) {
    var own := Own(sleeves, request.sleeveId);
    own.Some? ==> EqualIgnoringCase(own.value.symbol, request.symbol)
  }

  // ---------- sums ----------

  lemma {:induction false} TotalSplits(sleeves: seq<SleeveRow>, i: nat, scope: Option<string>)
    requires i < |sleeves|
    ensures Total(sleeves, scope) == Weight(sleeves[i], scope) + Total(Without(sleeves, i), scope)
  {
    if i == 0 {
      assert Without(sleeves, 0) == sleeves[1..];
    } else {
      TotalSplits(sleeves[1..], i - 1, scope);
      assert Without(sleeves, i) == [sleeves[0]] + Without(sleeves[1..], i - 1);
    }
  }

  lemma TotalAfterUpdate(sleeves: seq<SleeveRow>, i: nat, row: SleeveRow, scope: Option<string>)
    requires i < |sleeves|
    ensures Total(sleeves[i := row], scope)
         == Total(sleeves, scope) - Weight(sleeves[i], scope) + Weight(row, scope)
  {
    TotalSplits(sleeves, i, scope);
    TotalSplits(sleeves[i := row], i, scope);
    assert Without(sleeves[i := row], i) == Without(sleeves, i);
  }

  lemma {:induction false} TotalAfterInsert(sleeves: seq<SleeveRow>, row: SleeveRow, scope: Option<string>)
    ensures Total(sleeves + [row], scope) == Total(sleeves, scope) + Weight(row, scope)
  {
    TotalSplits(sleeves + [row], |sleeves|, scope);
    assert Without(sleeves + [row], |sleeves|) == sleeves;
  }

  lemma {:induction false} TotalPermutes(a: seq<SleeveRow>, b: seq<SleeveRow>, scope: Option<string>)
    requires multiset(a) == multiset(b)
    ensures Total(a, scope) == Total(b, scope)
  {
    if a == [] {
      assert |multiset(b)| == |b|;
    } else {
      var i := HeadElsewhere(a, b);
      TotalSplits(b, i, scope);
      TotalPermutes(a[1..], Without(b, i), scope);
    }
  }

  lemma FoundInBoth(a: seq<SleeveRow>, b: seq<SleeveRow>, id: Option<int>)
    requires multiset(a) == multiset(b) && UniqueIds(b) && Find(a, id) >= 0
    ensures Own(a, id) == Own(b, id)
  {
    var i := Find(a, id);
    assert a[i] in multiset(b);
    var k :| 0 <= k < |b| && b[k] == a[i];
    assert Find(b, id) == k;
  }

  lemma OwnPermutes(a: seq<SleeveRow>, b: seq<SleeveRow>, id: Option<int>)
    requires multiset(a) == multiset(b) && UniqueIds(a) && UniqueIds(b)
    ensures Own(a, id) == Own(b, id)
  {
    if Find(a, id) >= 0 {
      FoundInBoth(a, b, id);
    } else if Find(b, id) >= 0 {
      FoundInBoth(b, a, id);
    }
  }

  /** The decision does not depend on the order of the sleeve list. */
  lemma DecisionIgnoresOrder(request: Request, a: seq<SleeveRow>, b: seq<SleeveRow>, limits: Limits)
    requires multiset(a) == multiset(b) && UniqueIds(a) && UniqueIds(b)
    ensures Evaluate(request, a, limits) == Evaluate(request, b, limits)
  {
    OwnPermutes(a, b, request.sleeveId);
    TotalPermutes(a, b, Some(request.symbol));
    TotalPermutes(a, b, None);
  }

  // ---------- one decision ----------

  /** A fraction of a portfolio's value, neither counting below zero. */
  function FractionOf(pct: real, value: real): real {
    Max(pct, 0.0) * Max(value, 0.0)
  }

  lemma CapUsdIs(pct: Option<real>, value: real)
    ensures CapUsd(pct, Max(value, 0.0)) == if pct.None? then None else Some(FractionOf(pct.value, value))
  {
    if pct.Some? {
      MulMonotone(0.0, Max(pct.value, 0.0), Max(value, 0.0));
    }
  }

  /** What a sleeve counts for: the larger of what it was allocated and what it holds. */
  lemma SleeveNotionalIs(s: SleeveRow)
    ensures SleeveNotional(s)
         == if s.allocatedUsd <= 0.0 && s.currentUsd <= 0.0 then 0.0
            else if s.allocatedUsd >= s.currentUsd then s.allocatedUsd else s.currentUsd
  {
  }

  /** A total adds up what the sleeves of its scope count for. */
  lemma TotalSums(sleeves: seq<SleeveRow>, row: SleeveRow, scope: Option<string>)
    ensures Total([], scope) == 0.0
    ensures Total(sleeves + [row], scope)
         == Total(sleeves, scope)
            + if scope.None? || EqualIgnoringCase(row.symbol, scope.value)
              then (if row.allocatedUsd <= 0.0 && row.currentUsd <= 0.0 then 0.0
                    else if row.allocatedUsd >= row.currentUsd then row.allocatedUsd else row.currentUsd)
              else 0.0
  {
    hide SleeveNotional;
    SleeveNotionalIs(row);
    TotalAfterInsert(sleeves, row, scope);
  }

  /** A limit of one cap, if there is one, lets a proposed amount pass: it is within that fraction of the portfolio's
      value, or no more than what is there already. */
  predicate WithinLimit(pct: Option<real>, value: real, proposed: real, current: real) {
    pct.Some? ==> proposed <= FractionOf(pct.value, value) + EPS || proposed <= current + EPS
  }

  lemma WithinLimitIff(pct: Option<real>, value: real, proposed: real, current: real)
    ensures WithinLimit(pct, value, proposed, current)
       <==> !CapExceeded(proposed, current, CapUsd(pct, Max(value, 0.0)))
  {
    hide CapUsd, FractionOf;
    CapUsdIs(pct, value);
  }

  /** Exactly when a request is allowed, in terms of the request, its own sleeve and the two totals. */
  lemma AllowedIff(request: Request, sleeves: seq<SleeveRow>, limits: Limits)
    ensures var target, value := Max(request.target, 0.0), request.portfolioValue;
            var own := Own(sleeves, request.sleeveId);
            var self := if own.Some? then Max(Max(own.value.allocatedUsd, own.value.currentUsd), 0.0) else 0.0;
            var symbolTotal, total := Total(sleeves, Some(request.symbol)), Total(sleeves, None);
            Evaluate(request, sleeves, limits).allowed <==>
              && (own.Some? && own.value.status == "frozen" ==> target <= self + EPS)
              && (own.Some? && own.value.status == "closed" ==> target <= EPS)
              && WithinLimit(limits.strategyPct, value, target, self)
              && WithinLimit(limits.symbolPct, value, Max(symbolTotal - self, 0.0) + target, symbolTotal)
              && WithinLimit(limits.portfolioPct, value, Max(total - self, 0.0) + target, total)
  {
    hide WithinLimit, CapUsd, CapExceeded, SortDedup, Total, Own, When;
    var target, own := Max(request.target, 0.0), Own(sleeves, request.sleeveId);
    var self := OwnNotional(own);
    var symbolTotal, total := Total(sleeves, Some(request.symbol)), Total(sleeves, None);
    EmptyIffSortedEmpty(Blockers(request, own, symbolTotal, total, limits));
    WithinLimitIff(limits.strategyPct, request.portfolioValue, target, self);
    WithinLimitIff(limits.symbolPct, request.portfolioValue, Proposed(symbolTotal, self, target), symbolTotal);
    WithinLimitIff(limits.portfolioPct, request.portfolioValue, Proposed(total, self, target), total);
  }

  lemma BlockersAre(request: Request, own: Option<SleeveRow>, symbolTotal: real, total: real, limits: Limits,
                    reason: string)
    ensures var target, value, self := Max(request.target, 0.0), Max(request.portfolioValue, 0.0), OwnNotional(own);
            reason in Blockers(request, own, symbolTotal, total, limits) <==>
              || (reason == "sleeve_frozen" && own.Some? && own.value.status == "frozen" && target > self + EPS)
              || (reason == "sleeve_closed" && own.Some? && own.value.status == "closed" && target > EPS)
              || (reason == "strategy_allocation_cap_exceeded"
                  && CapExceeded(target, self, CapUsd(limits.strategyPct, value)))
              || (reason == "symbol_allocation_cap_exceeded"
                  && CapExceeded(Proposed(symbolTotal, self, target), symbolTotal, CapUsd(limits.symbolPct, value)))
              || (reason == "portfolio_allocation_cap_exceeded"
                  && CapExceeded(Proposed(total, self, target), total, CapUsd(limits.portfolioPct, value)))
  {
    hide CapUsd, CapExceeded, Proposed, OwnNotional;
  }

  /** Which reason a blocked request gives, for which check. */
  lemma BlockedReasonsAre(request: Request, sleeves: seq<SleeveRow>, limits: Limits, reason: string)
    ensures var target, value := Max(request.target, 0.0), request.portfolioValue;
            var own := Own(sleeves, request.sleeveId);
            var self := if own.Some? then Max(Max(own.value.allocatedUsd, own.value.currentUsd), 0.0) else 0.0;
            var symbolTotal, total := Total(sleeves, Some(request.symbol)), Total(sleeves, None);
            reason in Evaluate(request, sleeves, limits).blockedReasons <==>
              || (reason == "sleeve_frozen" && own.Some? && own.value.status == "frozen" && target > self + EPS)
              || (reason == "sleeve_closed" && own.Some? && own.value.status == "closed" && target > EPS)
              || (reason == "strategy_allocation_cap_exceeded" && !WithinLimit(limits.strategyPct, value, target, self))
              || (reason == "symbol_allocation_cap_exceeded"
                  && !WithinLimit(limits.symbolPct, value, Max(symbolTotal - self, 0.0) + target, symbolTotal))
              || (reason == "portfolio_allocation_cap_exceeded"
                  && !WithinLimit(limits.portfolioPct, value, Max(total - self, 0.0) + target, total))
  {
    hide WithinLimit, CapUsd, CapExceeded, Total, Own, Blockers, SortDedup;
    var target, own := Max(request.target, 0.0), Own(sleeves, request.sleeveId);
    var self := OwnNotional(own);
    var symbolTotal, total := Total(sleeves, Some(request.symbol)), Total(sleeves, None);
    BlockersAre(request, own, symbolTotal, total, limits, reason);
    WithinLimitIff(limits.strategyPct, request.portfolioValue, target, self);
    WithinLimitIff(limits.symbolPct, request.portfolioValue, Proposed(symbolTotal, self, target), symbolTotal);
    WithinLimitIff(limits.portfolioPct, request.portfolioValue, Proposed(total, self, target), total);
  }

  /** Allowed targets are downward closed. */
  lemma AllowedDownwardClosed(request: Request, smaller: real, sleeves: seq<SleeveRow>, limits: Limits)
    requires Evaluate(request, sleeves, limits).allowed && smaller <= request.target
    ensures Evaluate(request.(target := smaller), sleeves, limits).allowed
  {
    hide Evaluate, Total, Own, FractionOf;
    AllowedIff(request, sleeves, limits);
    AllowedIff(request.(target := smaller), sleeves, limits);
  }

  lemma OwnWithinTotal(request: Request, sleeves: seq<SleeveRow>, scope: Option<string>)
    requires OwnSymbolMatches(request, sleeves) && (scope.None? || scope == Some(request.symbol))
    ensures OwnNotional(Own(sleeves, request.sleeveId)) <= Total(sleeves, scope)
  {
    var i := Find(sleeves, request.sleeveId);
    if i >= 0 {
      TotalSplits(sleeves, i, scope);
    }
  }

  /** Shrinking, or keeping, a sleeve that matches the request and is not closed is never blocked,
      however far over its caps the portfolio already is. */
  lemma ReductionNeverBlocked(request: Request, sleeves: seq<SleeveRow>, limits: Limits)
    requires OwnSymbolMatches(request, sleeves)
    requires var own := Own(sleeves, request.sleeveId);
             own.Some? && own.value.status != "closed" && request.target <= SleeveNotional(own.value) + EPS
    ensures Evaluate(request, sleeves, limits).allowed
    ensures Evaluate(request, sleeves, limits).blockedReasons == []
  {
    hide Total, Evaluate, Own, FractionOf;
    AllowedIff(request, sleeves, limits);
    AllowedGivesNoReasons(request, sleeves, limits);
    OwnWithinTotal(request, sleeves, Some(request.symbol));
    OwnWithinTotal(request, sleeves, None);
  }

  lemma AllowedGivesNoReasons(request: Request, sleeves: seq<SleeveRow>, limits: Limits)
    ensures Evaluate(request, sleeves, limits).allowed <==> Evaluate(request, sleeves, limits).blockedReasons == []
  {
    hide Blockers, SortDedup, Total, Own;
  }

  // ---------- runs of accepted requests ----------

  /** An accepted request and what later fills leave on the sleeve: `currentUsd` may exceed both the
      target and what the sleeve carried by at most `slack`. `newId` names the sleeve if one is opened. */
  datatype Grant = Grant(request: Request, limits: Limits, currentUsd: real, slack: real, newId: int)

  function Granted(sleeves: seq<SleeveRow>, g: Grant): seq<SleeveRow> {
    var i := Find(sleeves, g.request.sleeveId);
    if i == -1
    then sleeves + [SleeveRow(Some(g.newId), g.request.symbol, "active", g.request.target, g.currentUsd)]
    else sleeves[i := sleeves[i].(allocatedUsd := g.request.target, currentUsd := g.currentUsd)]
  }

  predicate Acceptable(sleeves: seq<SleeveRow>, g: Grant) {
    && Evaluate(g.request, sleeves, g.limits).allowed
    && OwnSymbolMatches(g.request, sleeves)
    && g.slack >= 0.0
    && g.currentUsd <= Max(OwnNotional(Own(sleeves, g.request.sleeveId)), Max(g.request.target, 0.0) + g.slack)
  }

  /** The limit on a scope's total: the portfolio's, or a symbol's. */
  function ScopePct(limits: Limits, scope: Option<string>): Option<real> {
    if scope.None? then limits.portfolioPct else limits.symbolPct
  }

  /** The request counts towards this scope. */
  predicate Touches(g: Grant, scope: Option<string>) {
    scope.None? || EqualIgnoringCase(g.request.symbol, scope.value)
  }

  lemma {:induction false} TotalIgnoresCase(sleeves: seq<SleeveRow>, a: string, b: string)
    requires EqualIgnoringCase(a, b)
    ensures Total(sleeves, Some(a)) == Total(sleeves, Some(b))
  {
    if sleeves != [] {
      TotalIgnoresCase(sleeves[1..], a, b);
    }
  }

  lemma GrantChangesTotal(sleeves: seq<SleeveRow>, g: Grant, scope: Option<string>)
    requires OwnSymbolMatches(g.request, sleeves)
    ensures var own := OwnNotional(Own(sleeves, g.request.sleeveId));
            Total(Granted(sleeves, g), scope)
              == if Touches(g, scope)
                 then Total(sleeves, scope) - own + Max(Max(g.request.target, g.currentUsd), 0.0)
                 else Total(sleeves, scope)
    ensures Touches(g, scope) ==> OwnNotional(Own(sleeves, g.request.sleeveId)) <= Total(sleeves, scope)
  {
    var i := Find(sleeves, g.request.sleeveId);
    if i == -1 {
      TotalAfterInsert(sleeves, Granted(sleeves, g)[|sleeves|], scope);
    } else {
      TotalAfterUpdate(sleeves, i, Granted(sleeves, g)[i], scope);
      TotalSplits(sleeves, i, scope);
    }
  }

  /** One accepted request leaves every per-symbol total and the portfolio total at most the larger of what it was
      and its limit's fraction of the portfolio's value, + EPS + slack. */
  lemma GrantKeepsCaps(sleeves: seq<SleeveRow>, g: Grant, scope: Option<string>)
    requires Acceptable(sleeves, g)
    requires ScopePct(g.limits, scope).Some?
    ensures Total(Granted(sleeves, g), scope)
         <= Max(Total(sleeves, scope), FractionOf(ScopePct(g.limits, scope).value, g.request.portfolioValue))
            + EPS + g.slack
  {
    hide Total, Evaluate, Granted, FractionOf;
    GrantChangesTotal(sleeves, g, scope);
    if Touches(g, scope) {
      AllowedIff(g.request, sleeves, g.limits);
      if scope.Some? {
        TotalIgnoresCase(sleeves, g.request.symbol, scope.value);
      }
    }
  }

  function GrantedAll(sleeves: seq<SleeveRow>, grants: seq<Grant>): seq<SleeveRow>
    decreases |grants|
  {
    if grants == [] then sleeves else GrantedAll(Granted(sleeves, grants[0]), grants[1..])
  }

  /** There is a limit, and its fraction of a portfolio's value, neither below zero, is at most `cap`. */
  predicate LimitAtMost(pct: Option<real>, portfolioValue: real, cap: real) {
    pct.Some? && FractionOf(pct.value, portfolioValue) <= cap
  }

  /** Every grant of the run is acceptable when its turn comes, and its cap is at most `cap`. */
  predicate AcceptableRun(sleeves: seq<SleeveRow>, grants: seq<Grant>, scope: Option<string>, cap: real)
    decreases |grants|
  {
    grants == []
    || (Acceptable(sleeves, grants[0])
        && LimitAtMost(ScopePct(grants[0].limits, scope), grants[0].request.portfolioValue, cap)
        && AcceptableRun(Granted(sleeves, grants[0]), grants[1..], scope, cap))
  }

  function TotalSlack(grants: seq<Grant>): real {
    if grants == [] then 0.0 else EPS + grants[0].slack + TotalSlack(grants[1..])
  }

  /** Cap safety over runs: any number of accepted requests, in any order, keep a total at most
      max(initial total, cap) plus one tolerance per request. */
  lemma {:induction false} CapsHoldOverRuns(
      sleeves: seq<SleeveRow>, grants: seq<Grant>, scope: Option<string>, cap: real)
    requires AcceptableRun(sleeves, grants, scope, cap)
    ensures Total(GrantedAll(sleeves, grants), scope) <= Max(Total(sleeves, scope), cap) + TotalSlack(grants)
    decreases |grants|
  {
    hide Total, Evaluate, Granted, FractionOf, Acceptable;
    if grants != [] {
      SlackNonNegative(sleeves, grants[0]);
      GrantKeepsCaps(sleeves, grants[0], scope);
      CapsHoldOverRuns(Granted(sleeves, grants[0]), grants[1..], scope, cap);
    }
  }

  /** When fills add no slack the tolerance is EPS per accepted request. */
  lemma {:induction false} SlackOfExactGrants(grants: seq<Grant>)
    requires forall g <- grants :: g.slack == 0.0
    ensures TotalSlack(grants) == |grants| as real * EPS
  {
    if grants != [] {
      assert grants[0] in grants;
      SlackOfExactGrants(grants[1..]);
    }
  }

  // ---------- the strategy cap ----------

  /** What one sleeve stands for. */
  function Standing(sleeves: seq<SleeveRow>, id: int): real {
    OwnNotional(Own(sleeves, Some(id)))
  }

  lemma GrantChangesOwn(sleeves: seq<SleeveRow>, g: Grant, id: int)
    ensures var granted := Max(Max(g.request.target, g.currentUsd), 0.0);
            var i := Find(sleeves, g.request.sleeveId);
            Standing(Granted(sleeves, g), id)
              == if i != -1 then (if g.request.sleeveId == Some(id) then granted else Standing(sleeves, id))
                 else if Own(sleeves, Some(id)).Some? then Standing(sleeves, id)
                 else if g.newId == id then granted else 0.0
  {
    var i, next := Find(sleeves, g.request.sleeveId), Granted(sleeves, g);
    var k := Find(sleeves, Some(id));
    if k != -1 {
      FoundAt(next, id, k);
    } else if i == -1 && g.newId == id {
      FoundAt(next, id, |sleeves|);
    } else {
      assert forall j | 0 <= j < |next| :: !SameSleeve(Some(id), next[j].id);
    }
  }

  lemma FoundAt(sleeves: seq<SleeveRow>, id: int, k: nat)
    requires k < |sleeves| && sleeves[k].id == Some(id)
    requires forall j | 0 <= j < k :: sleeves[j].id != Some(id)
    ensures Find(sleeves, Some(id)) == k
  {
  }

  /** One accepted request leaves every sleeve at most the larger of what it was and the strategy limit's fraction of
      the portfolio's value, + EPS + slack. */
  lemma GrantKeepsStrategyCap(sleeves: seq<SleeveRow>, g: Grant, id: int)
    requires Acceptable(sleeves, g) && g.limits.strategyPct.Some?
    ensures Standing(Granted(sleeves, g), id)
         <= Max(Standing(sleeves, id), FractionOf(g.limits.strategyPct.value, g.request.portfolioValue))
            + EPS + g.slack
  {
    hide Total, Evaluate, Granted, Find, FractionOf;
    GrantChangesOwn(sleeves, g, id);
    AllowedIff(g.request, sleeves, g.limits);
    NoSleeve(sleeves, g.request.sleeveId);
    NoSleeve(sleeves, Some(id));
  }

  lemma NoSleeve(sleeves: seq<SleeveRow>, id: Option<int>)
    ensures Find(sleeves, id) == -1 <==> Own(sleeves, id).None?
    ensures OwnNotional(Own(sleeves, id)) >= 0.0
  {
  }

  /** Every grant of the run is acceptable when its turn comes, and its strategy cap is at most `cap`. */
  predicate StrategyCappedRun(sleeves: seq<SleeveRow>, grants: seq<Grant>, cap: real)
    decreases |grants|
  {
    grants == []
    || (Acceptable(sleeves, grants[0])
        && LimitAtMost(grants[0].limits.strategyPct, grants[0].request.portfolioValue, cap)
        && StrategyCappedRun(Granted(sleeves, grants[0]), grants[1..], cap))
  }

  /** The strategy cap over runs: any number of accepted requests, in any order, keep every single sleeve at most
      max(what it was, cap) plus one tolerance per request. */
  lemma {:induction false} StrategyCapHoldsOverRuns(sleeves: seq<SleeveRow>, grants: seq<Grant>, cap: real, id: int)
    requires StrategyCappedRun(sleeves, grants, cap)
    ensures Standing(GrantedAll(sleeves, grants), id) <= Max(Standing(sleeves, id), cap) + TotalSlack(grants)
    decreases |grants|
  {
    hide Standing, Acceptable, Granted, FractionOf;
    if grants != [] {
      SlackNonNegative(sleeves, grants[0]);
      GrantKeepsStrategyCap(sleeves, grants[0], id);
      StrategyCapHoldsOverRuns(Granted(sleeves, grants[0]), grants[1..], cap, id);
    }
  }

  lemma SlackNonNegative(sleeves: seq<SleeveRow>, g: Grant)
    requires Acceptable(sleeves, g)
    ensures g.slack >= 0.0
  {
  }
}
