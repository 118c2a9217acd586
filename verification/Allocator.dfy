/** The capital allocator: cap checks of one allocation request against every sleeve, and what
    granting accepted requests keeps over whole runs. */
module Allocator {
  import opened Numeric
  import opened Wrappers
  import opened Text
  import opened Reasons

  datatype Limits = Limits(strategyPct: Option<real>, symbolPct: Option<real>, portfolioPct: Option<real>)

  datatype Request = Request(sleeveId: Option<int>, symbol: string, target: real, portfolioValue: real)

  datatype SleeveRow = SleeveRow(id: Option<int>, symbol: string, status: string, allocatedUsd: real, currentUsd: real)

  datatype Decision = Decision(allowed: bool, blockedReasons: seq<string>)

  function SleeveNotional(s: SleeveRow): real {
    Max(Max(s.allocatedUsd, s.currentUsd), 0.0)
  }

  /** Sums are taken over one symbol, compared without ASCII case, or over the whole portfolio. */
  predicate InScope(s: SleeveRow, scope: Option<string>) {
    scope.None? || EqualIgnoringCase(s.symbol, scope.value)
  }

  function Weight(s: SleeveRow, scope: Option<string>): real {
    if InScope(s, scope) then SleeveNotional(s) else 0.0
  }

  function Total(sleeves: seq<SleeveRow>, scope: Option<string>): (t: real)
    ensures t >= 0.0
  {
    if sleeves == [] then 0.0 else Weight(sleeves[0], scope) + Total(sleeves[1..], scope)
  }

  predicate SameSleeve(a: Option<int>, b: Option<int>) {
    a.Some? && a == b
  }

  /** The first sleeve carrying the requested id. */
  function Find(sleeves: seq<SleeveRow>, id: Option<int>): (i: int)
    ensures -1 <= i < |sleeves|
    ensures i >= 0 ==> SameSleeve(id, sleeves[i].id) && forall k | 0 <= k < i :: !SameSleeve(id, sleeves[k].id)
    ensures i == -1 ==> forall k | 0 <= k < |sleeves| :: !SameSleeve(id, sleeves[k].id)
  {
    if sleeves == [] then -1
    else if SameSleeve(id, sleeves[0].id) then 0
    else
      var i := Find(sleeves[1..], id);
      assert forall k | 1 <= k < |sleeves| :: sleeves[k] == sleeves[1..][k - 1];
      if i == -1 then -1 else i + 1
  }

  function Own(sleeves: seq<SleeveRow>, id: Option<int>): Option<SleeveRow> {
    var i := Find(sleeves, id);
    if i == -1 then None else Some(sleeves[i])
  }

  function OwnNotional(own: Option<SleeveRow>): real {
    if own.None? then 0.0 else SleeveNotional(own.value)
  }

  function CapUsd(pct: Option<real>, portfolioValue: real): Option<real> {
    if pct.None? then None else Some(Max(Max(pct.value, 0.0) * portfolioValue, 0.0))
  }

  predicate CapExceeded(proposed: real, current: real, cap: Option<real>) {
    cap.Some? && proposed > cap.value + EPS && proposed > current + EPS
  }

  function Proposed(total: real, own: real, target: real): real {
    Max(total - own, 0.0) + target
  }

  /** The blockers in the order the checks push them. */
  function Blockers(request: Request, own: Option<SleeveRow>, symbolTotal: real, portfolioTotal: real,
                    limits: Limits): seq<string> {
    var target, value := Max(request.target, 0.0), Max(request.portfolioValue, 0.0);
    var self := OwnNotional(own);
    [] + When(own.Some? && own.value.status == "frozen" && !(target <= self + EPS), "sleeve_frozen")
    + When(own.Some? && own.value.status == "closed" && target > EPS, "sleeve_closed")
    + When(CapExceeded(target, self, CapUsd(limits.strategyPct, value)), "strategy_allocation_cap_exceeded")
    + When(CapExceeded(Proposed(symbolTotal, self, target), symbolTotal, CapUsd(limits.symbolPct, value)),
           "symbol_allocation_cap_exceeded")
    + When(CapExceeded(Proposed(portfolioTotal, self, target), portfolioTotal, CapUsd(limits.portfolioPct, value)),
           "portfolio_allocation_cap_exceeded")
  }

  function Evaluate(request: Request, sleeves: seq<SleeveRow>, limits: Limits): Decision {
    var reasons := SortDedup(Blockers(request, Own(sleeves, request.sleeveId), Total(sleeves, Some(request.symbol)),
                                      Total(sleeves, None), limits));
    Decision(reasons == [], reasons)
  }

  method EvaluateAllocation(request: Request, sleeves: seq<SleeveRow>, limits: Limits) returns (decision: Decision)
    ensures decision == Evaluate(request, sleeves, limits)
  {
    hide When, SortDedup, Total, Own, CapUsd;
    var target, value := Max(request.target, 0.0), Max(request.portfolioValue, 0.0);
    var own := Own(sleeves, request.sleeveId);
    var self := OwnNotional(own);
    var symbolTotal, portfolioTotal := Total(sleeves, Some(request.symbol)), Total(sleeves, None);
    var reasons := new ReasonList();
    reasons.PushIf(own.Some? && own.value.status == "frozen" && !(target <= self + EPS), "sleeve_frozen");
    reasons.PushIf(own.Some? && own.value.status == "closed" && target > EPS, "sleeve_closed");
    reasons.PushIf(CapExceeded(target, self, CapUsd(limits.strategyPct, value)), "strategy_allocation_cap_exceeded");
    reasons.PushIf(CapExceeded(Proposed(symbolTotal, self, target), symbolTotal, CapUsd(limits.symbolPct, value)),
                   "symbol_allocation_cap_exceeded");
    reasons.PushIf(CapExceeded(Proposed(portfolioTotal, self, target), portfolioTotal,
                               CapUsd(limits.portfolioPct, value)), "portfolio_allocation_cap_exceeded");
    reasons.SortAndDedup();
    decision := Decision(reasons.items == [], reasons.items);
  }
}
