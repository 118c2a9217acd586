# Verified model of the trading gateway's core

This project models the parts of the gateway that move money, open or close review work, or decide what a
price means, and proves properties of them over all inputs, all reachable states and whole runs. Money, prices
and quantities are `real`, with the code's own tolerances; times and dates are `int`; database tables are
sequences held in a class, a row's id being its index, and each SQL statement is one atomic step.

| part | modules |
|---|---|
| digital broker: one reconciliation pass, runs of passes, the stored sleeve | `Simulator`, `SimulatorPass`, `SimulatorOutcome`, `SimulatorFills`, `SimulatorRuns`, `Sleeve`, `SleeveOutcome` |
| strategy, proof policy and capital allocator | `Strategy`, `StrategyRules`, `Policy`, `Allocator`, `AllocatorRuns` |
| the runner that composes them | `Runner`, `RunnerSafety`, `RunnerReasons`, `RunnerCounts`, `RunnerSleeveCaps`, `RunnerStranding` |
| the digital broker's shared position rows against the sleeves that share them | `BrokerBook`, `RunnerBroker` |
| discovery candidates, attention items and their history | `Composer`, `ComposerRules`, `Lifecycle`, `LifecycleEffects`, `LifecycleSafety`, `ReviewCoverage`, `ReviewBudget` |
| goalpost guard: parser, syntactic comparison, meaning | `Goalpost`, `GoalpostMeaning`, `GoalpostReport`, `GoalpostSyntax`, `GoalpostCoverage` |
| bar roll-up and history backfill | `Bars`, `BarsRollUp`, `BarsOutcome`, `Backfill`, `BackfillRules` |
| manual-fill ledger | `Ledger`, `LedgerRules`, `LedgerConservation` |
| technical scores, breakouts, estimate drift | `PriceExtension`, `PriceExtensionRules`, `Signals`, `SignalRules`, `Estimates`, `EstimatesOutcome` |
| shared | `Numeric`, `Wrappers`, `Text`, `Permutations`, `Sets`, `Reasons` |

Code that works step by step (filling legs, pushing reasons, walking rows, the runner and scanner loops, the
ledger, the estimate scan, the backfill loop, the relative-strength loops, the goalpost maps) is a method or a
class whose contract equates the new state with a specification function. The theorems are about those
functions, so they hold of the methods. The modules named `...Rules`, `...Outcome`, `...Effects`, `...Reasons` and `...Report` say
what each operation answers in terms of its input's own fields, independently of the functions that compute it; the
others prove what follows over states and runs. `dafny verify dfyconfig.toml` checks everything.

## Findings

Places where the code does something a reader might not expect. Each is stated exactly, as an if-and-only-if
where there is one, and with a concrete input where that helps.

- **A partial flip loses the position it has not closed.** With a fill fraction below 1, the enter leg overwrites
  what the exit leg left. `SimulatorPass.Overwrites` is the guard of that branch; `SimulatorPass.OverwritesIffLost`
  and `SimulatorRuns.PassConservesIff` say it is exactly when more than dust is lost, and
  `SimulatorRuns.OverwriteExample` is an input losing 100 of open profit.
- **A stored sleeve forgets its cost basis.** The store keeps quantity and marked notional, and the next pass reads
  the average price back as their quotient, so every pass resets cost to the last mark (`Sleeve.ReloadResetsCost`,
  exactly when: `Sleeve.ReloadFaithfulIff`). Each pass alone still balances, but over any run, priced or not, a sleeve's
  books (total realized plus current open profit) account for the market's moves exactly when the price moves of the
  shares carried through the earlier passes happen to cancel (`Sleeve.StoredBooksBalanceIff`, `Sleeve.BooksExample`).
- **A missing price makes a sleeve forget its shares.** The pass stores a notional of zero, and the next one takes the
  open position for flat (`Sleeve.ReloadKeepsQuantityIff`, `Sleeve.MissingPriceExample`) and buys it again. The broker's
  row keeps both lots (`RunnerBroker.PhantomExample`). A row never falls short of its sleeves, so the incident
  `simulated_broker_position_missing` cannot arise from the runner (`RunnerBroker.NeverMissing`); and while every pass
  has a price it exceeds them by dust alone (`RunnerBroker.RowsEqualSleevesUpToDust`).
- **An error between writing a desired position and reconciling it strands the position.** The two are separate
  transactions. A pass strands one row, the last it wrote, if it was interrupted there, and otherwise none
  (`RunnerStranding.PassStrandsIff`, `RunnerStranding.StrandingExample`), and no later pass reconciles it
  (`RunnerStranding.RunStrands`). While the strategy keeps wanting it, or is blocked, the permission's sleeve keeps its
  new allocation and its old holding whatever else runs (`RunnerStranding.QuietRun`). Invariants and caps survive it.
- **An error between storing an estimate and its revision loses the change for good.** The next scan compares with the
  stored snapshot. Emitted deltas stay within the noise tolerance exactly when the lost changes and the noise do
  (`Estimates.DriftBoundedIff`, `Estimates.LostRevisionExample`).
- **A proposed candidate may have no review, and then never gets one.** It loses it when an operator closes the review
  instead of deciding the candidate, and starts without one when the review's insert failed, in no other way
  (`ReviewCoverage.UnreviewedIff`). No step opens one later (`ReviewCoverage.StaysUnreviewed`), and while the candidate
  stays proposed, hits of its kind propose nothing (`ReviewCoverage.NameStaysTaken`, `ReviewCoverage.UnreviewedExample`).
- **A discovery trigger rewrites an item's state without recording it.** It brings an open thesis item back to the
  actionable state, and the item's history then ends in another state unless it already ended there
  (`LifecycleSafety.TriggerRecordedIff`, `LifecycleSafety.UnrecordedTriggerExample`). Candidate reviews have no such
  gap (`LifecycleSafety.ReviewHistoryExact`).
- **A risk veto with no reasons does not block** (`Policy.SilentVetoIsIgnored`, `Policy.UnblockedIff`). It does not
  arise in `run_once`: `risk::evaluate` (src/risk/mod.rs:148) gives a reason with every veto, and so do the two
  configuration failures.
- **The goalpost guard misses a boundary.** Within one field and one ordered family, a weaker threshold is flagged
  except when an inclusive bound becomes exclusive at the same number (`GoalpostMeaning.WeakerIffFlaggedOrBoundary`,
  `GoalpostCoverage.BoundaryExample`). For whole sets, `GoalpostCoverage.CleanSetKeepsIff` says exactly when a clean
  report means the updated set fires whenever the original would, decidable from the texts.
- **An exit may be larger than its position.** It closes the position, realizes profit on what was held, and is
  recorded with the quantity stated (`LedgerConservation.ExitNetsToZeroIff`, `LedgerConservation.OverExitExample`).
- **Four checks of the runner cannot matter, or hardly**: a blocked decision after an unblocked proof, an incident and
  a duplicate reconciliation are unreachable (`RunnerSafety.UnblockedStep`, `RunnerSafety.EmissionIsFresh`), and the
  permission's weight cap blocks only when it is negative (`Policy.PermissionCapBlocksIff`).
- **The two price-extension scores part only on a history whose latest close is not positive**
  (`PriceExtension.ScoresAgree`).
- **Only the exit's fees reach realized profit.** A closed position's realized profit is its fills' profit less all its
  recorded fees exactly when the fees of its entering and resizing fills sum to zero
  (`LedgerConservation.FeesDeductedIff`, `LedgerConservation.FeesExample`).

## Model

| member | source | states |
|---|---|---|
| `Simulator.ReconcileSimulated` | src/automation/simulator.rs:120-259 | the pass as the code runs it (price check, incident check, leg loop with partial fills) computes `Reconcile`, the function every broker theorem below is about |
| `Simulator.DigitalBroker.ApplyLeg` | src/automation/simulator.rs:338-387 | the in-place update of one fill: new position with weighted-average cost or closed remainder, and the fill record with its realized profit |
| `Simulator.DigitalBroker.FillOne` | src/automation/simulator.rs:205-218 | one turn of the leg loop: a fill of at most EPS is not sent, a short fill marks the pass partial, realized profit and fills accumulate |
| `Simulator.DigitalBroker.FillAll` | src/automation/simulator.rs:198-219 | the whole leg loop is the left fold of the single fills over the legs in order |
| `Simulator.Normalize` | src/automation/simulator.rs:268-278 | every position becomes flat-and-zero or has quantity and average price above EPS, and such positions are unchanged |
| `SimulatorOutcome.PassFills` | src/automation/simulator.rs:192-387 | the records of every pass, for every input: the fraction of the closing order and then that of the opening order, each if more than EPS, with its side and kind, both at the market price for quantity times that price, the closing one realizing the gain over cost and the opening one nothing |
| `SimulatorOutcome.PassEnds` | src/automation/simulator.rs:192-387 | where every pass ends: unchanged if nothing is sent; less what was closed, flat at dust; the opening fill alone at the market price when the side changes, else added at a cost that keeps the money spent |
| `SimulatorOutcome.PassShows` | src/automation/simulator.rs:129-259 | the open profit shown is the final position's gain over its cost at the market price, and nothing without a price |
| `SimulatorOutcome.StatusIff` | src/automation/simulator.rs:129-259 | exactly when a pass reports blocked, incident, no-op, submitted and reconciled, from the price, what is held and wanted, and how much of either order stays unfilled |
| `SimulatorOutcome.IncidentIff` | src/automation/simulator.rs:437-502 | exactly when each of the five incidents is raised, a too old snapshot going before any configured fault |
| `SimulatorPass.PassBalances` | src/automation/simulator.rs:120-259 | accounting law of one pass, for every input: realized profit plus what the final position would realize equals what the opening position would have realized, less the profit on exactly the shares the pass lost; the final position is well formed |
| `SimulatorPass.OverwritesIffLost` | src/automation/simulator.rs:346-353 | a pass loses more than EPS of a position exactly when it is a partial flip whose enter leg overwrites a live remainder |
| `SimulatorPass.FlipLegsBalance` | src/automation/simulator.rs:324-335 | exit followed by enter balances, what is lost being the dust dropped or everything the exit left |
| `SimulatorPass.CloseLegBalances` | src/automation/simulator.rs:366-376 | a reduce or exit realizes exactly what it takes out of the open profit, less dust of at most EPS |
| `SimulatorPass.IncreaseLegBalances` | src/automation/simulator.rs:354-365 | averaging in at the market price moves no profit and keeps quantity and average price above EPS |
| `SimulatorPass.StepTowardsTarget` | src/automation/simulator.rs:172-219 | without a flip, a pass fills exactly when the fraction covers more than EPS of the gap, and then the gap shrinks by exactly that fraction or is at most EPS; otherwise nothing changes |
| `SimulatorPass.FullFlip` | src/automation/simulator.rs:320-335 | a completely filled flip ends exactly at the target quantity at the market price, or flat when the target is dust |
| `SimulatorPass.FullFillReaches` | src/automation/simulator.rs:120-336 | with full fills and no fault one pass, flips included, puts the signed quantity within EPS of the target and leaves a well-formed position flat or on the target's side |
| `SimulatorPass.FullFillIsFixpoint` | src/automation/simulator.rs:120-336 | a second identical pass makes no fill, realizes nothing and changes nothing |
| `SimulatorFills.PassCountsShares` | src/automation/simulator.rs:192-259 | for every input the signed position moves by exactly the sum of the signed fills, less the shares the pass lost |
| `SimulatorFills.PassIsRecorded` | src/automation/simulator.rs:205-229 | realized profit is the sum over the fill records; the status is submitted exactly when some leg was filled short by more than EPS |
| `SimulatorRuns.RunConserves` | src/automation/simulator.rs:120-259 | mark-to-market conservation over every run from every well-formed position, partial flips included: realized plus final open profit equals opening open profit plus held signed quantity times each price move, less what was lost |
| `SimulatorRuns.RunConservesUpToDust` | src/automation/simulator.rs:366-376 | without an overwriting flip the run balances with error at most the sum of EPS times the distance of price from cost over the passes that dropped dust |
| `SimulatorRuns.PassConservesIff` | src/automation/simulator.rs:346-353 | realized plus open profit changes over a pass by no more than EPS per unit of distance from cost if and only if the pass is not an overwriting partial flip, or trades at cost |
| `SimulatorRuns.OverwriteExample` | src/automation/simulator.rs:346-353 | a half-filled flip from 10 long at 100 with 200 of open profit at 120: it ends 5 short at 120 with 100 realized and no open profit |
| `SimulatorRuns.RestPersists` | src/automation/simulator.rs:205-219 | once an order fills nothing, repeating it any number of times changes nothing |
| `SimulatorRuns.PartialFillsConverge` | src/automation/simulator.rs:172-219 | towards a target reached without a flip, with fixed price and fraction f in (0,1]: at most gap/EPS passes fill anything, and the position rests with a gap of at most EPS/f |
| `SimulatorRuns.FlipStep` | src/automation/simulator.rs:324-335 | one pass of a flip: once the enter leg fills the position is exactly that fill; until then the exit alone shrinks the old position, or nothing fills and nothing changes |
| `SimulatorRuns.EveryPartialFillConverges` | src/automation/simulator.rs:120-259 | from every well-formed position, flips included, an order stops within (quantity + target + EPS)/EPS passes, every later pass changes nothing, and it rests within EPS/f of its target or, both legs too small to send, with at most EPS/f held and at most EPS/f wanted |
| `Sleeve.ReloadResetsCost` | src/platform/store.rs:5168-5194 | reading a stored sleeve back gives the same side and quantity with the last mark as cost, or a flat position when the mark is missing |
| `Sleeve.ReloadFaithfulIff` | src/platform/store.rs:5168-5546 | with the store's settings, a stored position comes back unchanged if and only if none was open, or there is a price and the order flips it, empties it or trades at its cost |
| `Sleeve.ReloadKeepsQuantityIff` | src/platform/store.rs:5168-5546 | a stored position comes back with its side and quantity if and only if none was open or the price is present |
| `Sleeve.MissingPriceExample` | src/platform/store.rs:5152-5180 | ten shares bought at 100 survive a pass without a price, and the next pass opens flat |
| `Sleeve.FullPass` | src/automation/simulator.rs:120-336 | with the store's settings a priced pass ends exactly at the closed form: unchanged within EPS, else at the target, averaging in what is added, flat for a target of dust |
| `Sleeve.ReloadFollows` | src/platform/store.rs:5168-5546 | what the next pass opens with is a function of the opening position and the order alone, flat when the price is missing |
| `Sleeve.ShownIsCarried` | src/platform/store.rs:5525-5546 | the open profit a pass shows is exactly the price move since the last mark on the shares carried through it, and nothing without a price |
| `Sleeve.ShownRunIsCarried` | src/platform/store.rs:5106-5546 | summed over any run, priced or not, the shown open profit is the price moves of the carried shares, computed from the opening position and the orders |
| `Sleeve.UnpricedPass` | src/platform/store.rs:5152-5546 | a pass without a price realizes, shows and loses nothing, and the next pass opens flat |
| `Sleeve.StoredRun` | src/platform/store.rs:5106-5546 | over every run of stored passes, priced or not, recorded realized profit plus the open profit shown at every pass accounts for the market gain less losses |
| `Sleeve.StoredBooksBalanceIff` | src/platform/store.rs:5106-5546 | over every run, priced or not, the sleeve's books balance if and only if the price moves of the shares carried through all earlier passes sum to zero, a sum over the opening position and the orders |
| `Sleeve.BooksExample` | src/platform/store.rs:5106-5546 | buy 10 at 100, resize to 15 at 120, hold: the market gave 200 and the books end with nothing |
| `Sleeve.NotionalBound` | src/platform/store.rs:5168-5546 | a pass with default settings leaves at most the larger of the sleeve's old notional and the target notional plus EPS shares |
| `SleeveOutcome.StoredHolding` | src/platform/store.rs:5168-5546 | with the store's settings a pass leaves the wanted side and shares, what stands within EPS of them, or nothing when only dust is wanted; without a price what was held; its worth at the market is the stored notional |
| `SleeveOutcome.StoredProfit` | src/platform/store.rs:5168-5546 | recorded realized profit grows by the gain over cost on exactly the shares the order closes |
| `Allocator.EvaluateAllocation` | src/automation/allocator.rs:39-136 | the pushed, sorted, deduplicated decision is `Evaluate` |
| `Allocator.Find` | src/automation/allocator.rs:46-50 | the own sleeve is the first whose id equals the request's, and is missing only if none does; an absent id matches nothing |
| `AllocatorRuns.AllowedIff` | src/automation/allocator.rs:44-97 | a request is allowed if and only if its sleeve is not frozen (unless not growing) or closed (unless emptied), and for each of the three limits the amount proposed is at most max(limit, 0) times max(portfolio value, 0), or no more than is there, up to EPS |
| `AllocatorRuns.BlockedReasonsAre` | src/automation/allocator.rs:59-97 | which of the five reasons a blocked request gives, each exactly when its own check fails |
| `AllocatorRuns.TotalSums` | src/automation/allocator.rs:99-148 | a total is what the sleeves of its scope count for, each the larger of its allocation and its holding, added up |
| `Text.EqualIgnoringCaseIff` | src/automation/allocator.rs:48-56 | symbols match when each pair of characters is the same or the two cases of one ASCII letter |
| `AllocatorRuns.DecisionIgnoresOrder` | src/automation/allocator.rs:44-97 | with unique ids the decision and its reasons are the same for every ordering of the sleeve list |
| `AllocatorRuns.AllowedDownwardClosed` | src/automation/allocator.rs:59-97 | whatever is allowed stays allowed for every smaller target |
| `AllocatorRuns.ReductionNeverBlocked` | src/automation/allocator.rs:59-97 | shrinking or keeping a matching sleeve that is not closed is never blocked, however far over its caps the portfolio is |
| `AllocatorRuns.GrantKeepsCaps` | src/automation/allocator.rs:57-90 | one accepted request leaves every per-symbol total and the portfolio total at most the larger of what it was and max(limit, 0) times max(portfolio value, 0), plus EPS and the fill slack |
| `AllocatorRuns.CapsHoldOverRuns` | src/automation/allocator.rs:39-159 | any number of accepted requests in any order keep each total at most max(initial total, cap) plus one tolerance per request, a cap being at least max(limit, 0) times max(portfolio value, 0) of every request |
| `AllocatorRuns.GrantKeepsStrategyCap` | src/automation/allocator.rs:59-97 | one accepted request leaves every single sleeve at most the larger of what it was and max(strategy limit, 0) times max(portfolio value, 0), plus EPS and the fill slack |
| `AllocatorRuns.StrategyCapHoldsOverRuns` | src/automation/allocator.rs:39-159 | any number of accepted requests in any order keep every single sleeve at most max(initial, cap) plus one tolerance per request, with caps written out the same way |
| `AllocatorRuns.SlackOfExactGrants` | src/automation/allocator.rs:154-159 | without fill slack the accumulated tolerance is the number of requests times EPS |
| `Strategy.CommonBlockedReasons` | src/automation/mod.rs:827-870 | the pushed list of common blockers, in order, with the early returns |
| `Strategy.EvaluateStrategy` | src/automation/mod.rs:303-355 | the decision as the code reaches it is `Evaluated` |
| `StrategyRules.BlockedIff` | src/automation/mod.rs:827-987 | a strategy is blocked if and only if its permission or its data cannot be used, its family is unknown, or it wants to be long where only short positions are allowed |
| `StrategyRules.LongIff` | src/automation/mod.rs:881-996 | an unblocked decision is long if and only if its stance is listed and it times technicals, or a bullish thesis in a listed state; else flat; the long weight is the permission's cap, else the configured weight, else 0.05, kept in [0, 1], and the flat one zero |
| `StrategyRules.NoChangeIff` | src/automation/mod.rs:998-1015 | nothing new is asked for exactly when the latest desired position has the side and, a missing weight counting as zero, the weight within EPS |
| `StrategyRules.BlockedReasonsAre` | src/automation/mod.rs:827-987 | which reason a blocked decision gives, for each of the eleven, from the input's own fields |
| `Strategy.BlockedIffReasons` | src/automation/mod.rs:303-355 | a decision is blocked if and only if it lists a reason; otherwise it has a side and a weight |
| `Strategy.DecisionIsLongOnly` | src/automation/mod.rs:872-996 | an unblocked decision is long or flat, weighs between 0 and 1, and weighs 0 when flat |
| `Policy.EvaluateProofPolicy` | src/automation/policy.rs:96-215 | the pushed, extended, sorted and deduplicated verdict is `Proven` |
| `Policy.PushPermissionReasons` | src/automation/policy.rs:102-133 | the permission and stage checks push exactly the specified blockers in order |
| `Policy.UnblockedIff` | src/automation/policy.rs:96-199 | a proof is unblocked if and only if every check passes, each written on the input's own fields: kill switch, permission and its expiry, stage and scope, configuration hash, freshness, session, vetoes with a reason, caps, sleeve and broker |
| `Policy.ProofReasonsAre` | src/automation/policy.rs:96-214 | which reasons a proof gives, sorted and each once, every one exactly when its own check fails; it passes with a warning exactly when only warnings are left |
| `Policy.FreshnessIs` | src/automation/mod.rs:573-617 | the data is missing without technicals, stale when older than the configured days, by default five and at least one, and otherwise fresh |
| `Policy.SilentVetoIsIgnored` | src/automation/policy.rs:156-164 | a veto without reasons has no effect on the proof |
| `Policy.PermissionCapBlocksIff` | src/automation/mod.rs:989-996 | an unblocked decision exceeds its permission's weight cap if and only if that cap is below -EPS, as the weight is the cap clamped to [0, 1] |
| `Policy.MarketReadyIff` | src/automation/market_readiness.rs:42-116 | the market is ready if and only if a positive close is there, its bar is young enough, it moved from a positive previous close by no more than the allowed percentage, the session is open, nothing is halted or unadjusted, and the time of day is in no window, windows over midnight included |
| `Policy.MarketReasonsAre` | src/automation/market_readiness.rs:42-125 | which of the eight reasons an unready market gives, each exactly when its own condition fails |
| `Policy.ScopesAreALadder` | src/automation/readiness.rs:31-63 | a stage that allows a scope allows every lower one; draft, frozen and retired allow nothing and shadow allows only shadow |
| `Runner.AutomationRunner.InsertDesired` | src/platform/store.rs:4910-5104 | writes the desired row and sets the allocation of the permission's open sleeve, opening one when there is none |
| `Runner.AutomationRunner.SimulateNewest` | src/platform/store.rs:5106-5546 | reconciles a desired id once: applies the broker pass to the sleeve's account, books its fills in the digital broker's shared rows and records the id |
| `Runner.AutomationRunner.BookAll` | src/platform/store.rs:5316-5462 | the loop over the fills moves the open row of the symbol and side as `BookFills`: opened or enlarged by entries, reduced by closes, closed at dust, with a missing row counted |
| `Runner.LastRetired` | src/platform/store.rs:4793-4832 | the permission's most recently updated sleeve among the closed ones, whose status the policy reads when none is open |
| `Runner.AutomationRunner.StepCandidate` | src/automation/mod.rs:364-411 | one candidate: evaluate, prove, then emit, leave or block, with a store error possible before anything is written and between writing and reconciling |
| `Runner.AutomationRunner.RunOnce` | src/automation/mod.rs:357-414 | a pass over all candidates is the fold of the single steps, each compared with the desired rows read when the pass began; an error ends it, keeps what was written and returns no summary |
| `RunnerSafety.UnblockedStep` | src/automation/mod.rs:382-411 | after an unblocked proof the decision is never the blocked one; and what the strategy did not block, the proof lets through if and only if the whole gate is open, written on the fields of permission, market, risk, allocation, sleeve and broker |
| `RunnerReasons.StepReasonsAre` | src/automation/mod.rs:541-680 | which reasons the proof of a candidate gives, each exactly when its own check fails on the store, the permission, the market, the allocation and the broker the candidate meets |
| `RunnerSafety.EmissionIsFresh` | src/automation/mod.rs:392-405 | a reconciliation of a new desired row is never a duplicate and never raises an incident, and records exactly that id |
| `RunnerSafety.ReconciledOnce` | src/platform/store.rs:5106-5166 | reconciling a row again changes nothing and is reported as a duplicate |
| `RunnerSafety.EmissionAppends` | src/platform/store.rs:4910-5546 | an emission appends exactly its row, and adds its id to the reconciled ones unless an error came between |
| `RunnerSafety.EmissionResizesOneSleeve` | src/platform/store.rs:4910-5546 | an emission changes exactly one sleeve and no other: its allocation, and, when reconciled, its account through the broker |
| `RunnerSafety.EmissionIsGrant` | src/automation/mod.rs:619-680 | what an emission does to the sleeves is what the allocator's run theorem calls granting the request |
| `RunnerSafety.EmissionIsAcceptable` | src/automation/mod.rs:619-680 | an allowed emission, interrupted or not, is a request that theorem accepts, the broker's overshoot staying within EPS shares |
| `RunnerSafety.StepEffect` | src/automation/mod.rs:364-411 | a step changes nothing, or clears the gate and performs one emission, fresh when it is reconciled |
| `RunnerSafety.StepKeepsInvariant` | src/automation/mod.rs:364-411 | every step keeps the store invariant (one sleeve per permission and of its symbol, no repeated desired row, only existing ids reconciled) |
| `RunnerSafety.StepRows` | src/automation/mod.rs:364-411 | a step leaves the desired rows and reconciled ids alone, or appends exactly the emitted row and its id |
| `RunnerSafety.StepKeepsCaps` | src/automation/mod.rs:364-411 | one step moves a total at most to max(total, cap) plus the tolerances of one emission, a cap being at least max(limit, 0) times max(portfolio value, 0) |
| `RunnerSafety.PassKeepsInvariant` | src/automation/mod.rs:357-414 | after any part of a pass, aborted or not, the invariant holds, no row was removed, and the latest rows of permissions not reached are unchanged |
| `RunnerSafety.PassAdds` | src/automation/mod.rs:357-414 | the counters of a pass that ran to its end add up: evaluated = emitted + unchanged + blocked, emitted = reconciled = rows appended, no incidents or duplicates |
| `RunnerCounts.PassCounts` | src/automation/mod.rs:357-414 | each counter of a pass that ran so far counts exactly its candidates: emitted and reconciled those that want a new position and clear the gate, unchanged those that want none and clear it, blocked all others, and, among all, those without technical data |
| `RunnerSafety.EveryEmissionCleared` | src/automation/mod.rs:357-414 | everything any pass writes cleared kill switch, permission, stage and scope, freshness, session, caps, sleeve and broker checks in the state it was reached in, against a latest row that was still the latest; any other candidate leaves the store alone |
| `RunnerSafety.PassKeepsCaps` | src/automation/mod.rs:357-414 | through strategy, proof, allocator and broker, and wherever an error ends it, a pass keeps every symbol total and the portfolio total at most max(before, cap) plus the tolerances of its emissions |
| `RunnerSafety.RunsKeepInvariantAndCaps` | src/automation/mod.rs:357-414 | over any number of passes, some cut short, successive desired rows of a permission never repeat side and weight within EPS, and totals stay within caps up to the accumulated tolerance |
| `RunnerSafety.EveryReachableCapped` | src/automation/mod.rs:357-432 | from an empty store every reachable total is within its cap up to the accumulated tolerance |
| `RunnerSleeveCaps.PassKeepsStrategyCap` | src/automation/mod.rs:357-414 | through strategy, proof, allocator and broker a pass keeps every single sleeve at most max(before, strategy cap) plus the tolerances of its emissions |
| `RunnerSleeveCaps.RunsKeepStrategyCap` | src/automation/mod.rs:357-414 | so do any number of passes, some of them cut short |
| `RunnerSleeveCaps.EveryReachableSleeveCapped` | src/automation/mod.rs:357-432 | from an empty store every reachable sleeve is within the strategy cap up to the accumulated tolerance |
| `RunnerStranding.PassStrandsIff` | src/automation/mod.rs:392-405 | at every point of every pass the unreconciled rows are those before it, plus exactly the last row written if the pass wrote a row and was interrupted before reconciling it; the pass then ends |
| `RunnerStranding.PassStrandsCount` | src/automation/mod.rs:357-414 | so a pass adds one unreconciled row if it was interrupted between writing and reconciling one, and none otherwise |
| `RunnerStranding.RunStrands` | src/automation/mod.rs:357-414 | over any number of passes no unreconciled row is reconciled later, and their number grows by exactly the number of passes so interrupted |
| `RunnerStranding.WrittenTargetNotRetried` | src/automation/mod.rs:303-355 | a decision that is blocked, or wants what the latest row says, leaves the whole store alone |
| `RunnerStranding.QuietRun` | src/automation/mod.rs:303-414 | while every decision of a permission is blocked or matches its latest row, its sleeve, allocation and account, is the same after any number of passes, whatever other permissions do |
| `RunnerStranding.StrandingExample` | src/automation/mod.rs:392-405 | an approved shadow permission for a tenth of 1000 at 10, interrupted after writing: one desired row, nothing reconciled, a sleeve allocated 100 that holds nothing |
| `BrokerBook.PassTracks` | src/platform/store.rs:5316-5546 | one reconciliation, from a row that covers its sleeves: the row still covers them, exceeds them by at most EPS more than before, and no fill finds its row missing |
| `RunnerBroker.ReconcileKeepsCover` | src/platform/store.rs:5106-5546 | reconciling any sleeve, priced or not, keeps every row of every symbol and side at least the sum of its sleeves |
| `RunnerBroker.RunsKeepCover` | src/automation/mod.rs:357-414 | so does any number of passes, wherever errors end them |
| `RunnerBroker.NeverMissing` | src/platform/store.rs:5430-5462 | from an empty store no run of the runner reports a missing broker position |
| `RunnerBroker.RowsEqualSleevesUpToDust` | src/platform/store.rs:5316-5546 | while every pass has a price, each row equals the sum of its symbol's sleeves on that side up to dust of at most EPS for each row written |
| `RunnerBroker.PhantomExample` | src/platform/store.rs:5152-5546 | buy ten, see no price, buy ten: the sleeve holds ten and the row twenty |
| `Composer.DroppedIff` | src/discovery/composer.rs:119-182 | hits compose to nothing if and only if there are none, the ticker is tracked without an actionable thesis, or all there is is one volume spike that is not extended |
| `Composer.ActiveRoutesToThesis` | src/discovery/composer.rs:128-152 | a signal composed for an active ticker always carries its actionable thesis and the trigger kind |
| `Composer.ComposedName` | src/discovery/composer.rs:24-37 | a composed signal's stored name is one of the six composed names |
| `ComposerRules.ComposedKindIff` | src/discovery/composer.rs:119-190 | exactly which of the six kinds signals compose to, from the hits, their signs, how extended the price is and what is known of the symbol |
| `ComposerRules.ComposedCarries` | src/discovery/composer.rs:119-232 | the value is how extended the price is or, unknown, the largest hit in size; the names are those of the hits in order, and the thesis is the actionable one |
| `ComposerRules.StoredNames` | src/discovery/composer.rs:25-36 | the name each kind is stored under |
| `Lifecycle.DiscoveryStore.MoveSelected` | src/discovery/service.rs:530-572 | the walk over selected open items moves exactly those and appends exactly their history rows, in order |
| `Lifecycle.DiscoveryStore.DecideCandidates` | src/discovery/service.rs:503-584 | deciding a selection of candidates updates all three tables as `Decide` |
| `Lifecycle.DiscoveryStore.PersistHit` | src/discovery/service.rs:273-347 | persisting a hit, however far it gets, is `Persist` |
| `Lifecycle.DiscoveryStore.ScanOne` | src/discovery/service.rs:206-223 | routing one scanned symbol is `ScanSymbol` |
| `Lifecycle.DiscoveryStore.RunOnce` | src/discovery/service.rs:21-93 | a scanner pass is the fold over its symbols after active tickers' candidates were superseded |
| `Lifecycle.DiscoveryStore.DismissAttention` | src/platform/store.rs:1681-1774 | dismissing an open item closes it, deferring it keeps it open, and both record the move |
| `Lifecycle.DiscoveryStore.TransitionAttention` | src/platform/store.rs:1776-1841 | a requested move to a valid state moves an open item and records it; an invalid state is refused |
| `LifecycleEffects.PersistDoes` | src/discovery/service.rs:273-424 | column by column, wherever a persist stops: it dismisses exactly the symbol's proposed candidates named by a raw signal or another composed kind, with their open reviews, and then opens or brings back the thesis's item, or appends the candidate in tier two and its review |
| `LifecycleEffects.ConfirmDecides` | src/platform/store.rs:8420-8530 | confirming resolves and rejecting dismisses exactly the candidate's open reviews, with one history row each |
| `LifecycleEffects.DismissMoves` | src/platform/store.rs:1681-1774 | dismissing closes an open item with the note, or the word itself, as its reason; the note "defer" sets it aside and leaves it open |
| `LifecycleEffects.TransitionItemMoves` | src/platform/store.rs:1776-1841 | an open item goes to any of the nine states with the status that goes with it; any other state changes nothing |
| `LifecycleEffects.ResurfaceMoves` | src/platform/store.rs:1843-1889 | exactly the open deferred items whose time has come return for review |
| `LifecycleEffects.ResolveMoves` | src/platform/store.rs:1617-1679 | resolving a thesis resolves exactly its open items |
| `LifecycleEffects.RaiseInserts` | src/platform/store.rs:1577-1615 | raising a thesis opens its item unless one is open |
| `LifecycleEffects.SupersedeDecides` | src/discovery/service.rs:586-782 | noise supersedes exactly the symbol's proposed candidates of its names, and tracking all proposed candidates of the tickers, with their open reviews |
| `LifecycleEffects.TrimDecides` | src/ingest/discovery_pool_service.rs:527-604 | trimming supersedes proposed nominations only, with their open reviews, for the review budget |
| `LifecycleEffects.NominateInserts` | src/ingest/discovery_pool_service.rs:362-525 | a symbol is nominated once ever: a proposed nomination is appended, and its review unless that statement fails |
| `LifecycleEffects.ScanDoes` | src/discovery/service.rs:95-223 | what one scanned symbol does, by what it composes to and whether the ticker is active |
| `LifecycleEffects.PassDoes` | src/discovery/service.rs:21-93 | a pass first dismisses what active tickers have proposed and then scans its symbols one after another |
| `LifecycleSafety.DecideKeepsTables` | src/discovery/service.rs:503-782 | any statement that decides candidates and closes their reviews keeps the cross-table invariant |
| `LifecycleSafety.MoveExtendsChain` | src/platform/store.rs:1681-1889 | a statement that moves items extends the history chain of each item it selects by exactly one row and leaves every other chain alone |
| `LifecycleSafety.MoveRowsExact` | src/discovery/service.rs:538-572 | every appended row carries the state its item was in, the state it was moved to and the reason |
| `LifecycleSafety.TransitionKeepsTables` | src/platform/store.rs:1681-1889 | moving any selection of open items to any state keeps the cross-table invariant |
| `LifecycleSafety.SupersedeRecordsDismissals` | src/discovery/service.rs:503-782 | a system dismissal closes exactly the open reviews of the superseded candidates, changes nothing else in the queue, and only appends their history rows |
| `LifecycleSafety.ProposeKeepsTables` | src/discovery/service.rs:284-346 | inserting a candidate that clashes with nothing proposed keeps the invariant, with or without its review |
| `LifecycleSafety.ClearedForHit` | src/discovery/service.rs:503-529 | superseding first is what makes room: afterwards nothing proposed clashes with a hit whose own name is free |
| `LifecycleSafety.PersistKeeps` | src/discovery/service.rs:273-424 | persisting keeps the invariant wherever it stops |
| `LifecycleSafety.NominateKeeps` | src/ingest/discovery_pool_service.rs:362-525 | queueing a nomination keeps the invariant |
| `LifecycleSafety.ApplyKeeps` | src/discovery/service.rs:273-782 | every step (persist, supersede, queue, trim, confirm, reject, dismiss, defer, transition, resurface, raise and resolve a thesis item) keeps the invariant |
| `LifecycleSafety.EveryRunConsistent` | src/discovery/service.rs:273-782 | any steps in any order keep the invariant: each open review points at a proposed candidate of its symbol, no symbol has two proposed composed candidates or two of one name, and each item's history is a chain from its first state to its current one, closed by exactly one row if it is closed and by none if open |
| `LifecycleSafety.EveryReachableConsistent` | src/discovery/service.rs:273-782 | so every state reachable from empty tables satisfies it |
| `LifecycleSafety.ReviewHistoryExact` | src/platform/store.rs:1681-1889 | the history of a candidate review always ends in its current state |
| `LifecycleSafety.TriggerRecordedIff` | src/discovery/service.rs:380-421 | a discovery trigger leaves an open thesis item's history ending in its state if and only if the history already ended in the actionable state |
| `LifecycleSafety.UnrecordedTriggerExample` | src/discovery/service.rs:401-421 | a deferred thesis item brought back by a trigger is actionable in the queue and deferred in its history |
| `LifecycleSafety.PassClearsActiveTickers` | src/discovery/service.rs:21-93 | after a complete scanner pass, whatever failed inside it, no active ticker has a proposed candidate or an open review |
| `ReviewCoverage.UnreviewedIff` | src/discovery/service.rs:284-346 | a candidate proposed after a step has no open review if and only if it had none before, an operator closed it by this step, or this step proposed it and failed before opening one |
| `ReviewCoverage.StaysUnreviewed` | src/discovery/service.rs:273-782 | no run of steps opens a review for a candidate that is there without one |
| `ReviewCoverage.NameStaysTaken` | src/discovery/service.rs:284-346 | while it stays proposed, a further hit of the same kind changes neither it nor the list of candidates |
| `ReviewCoverage.UnreviewedExample` | src/discovery/service.rs:284-346 | from empty tables, a hit whose review statement failed and the same hit again leave one proposed candidate and no attention item |
| `ReviewBudget.KeptCount` | src/ingest/discovery_pool_service.rs:527-604 | of n candidates exactly min(keep, n) have fewer than keep better ones |
| `ReviewBudget.KeptRanksFirst` | src/ingest/discovery_pool_service.rs:527-604 | every kept candidate has the lower tier than every dropped one; at equal tiers the higher value; then the higher fit; then the later proposal; then the smaller symbol |
| `ReviewBudget.TrimKeepsTheBest` | src/ingest/discovery_pool_service.rs:527-604 | trimming leaves min(keep, n) of n proposed nominations, each before each dropped one by tier, value, fit, proposal time and symbol, supersedes the rest and touches no other candidate |
| `Text.LessIff` | src/ingest/discovery_pool_service.rs:532-538 | one symbol is smaller when it is a proper beginning of the other or has the smaller character where they first differ |
| `Goalpost.ParseSimpleExpr` | src/goalpost/mod.rs:125-143 | the search over operators with its early return and its skips is `Parse` |
| `Goalpost.FindFrom` | src/goalpost/mod.rs:129-132 | finds the first occurrence of an operator, or there is none |
| `Goalpost.ByName` | src/goalpost/mod.rs:52-59 | conditions indexed by exactly their non-empty names, each name leading to a condition so named |
| `Goalpost.LaterReplaces` | src/goalpost/mod.rs:52-59 | of several conditions of one name the last is the one looked up |
| `Goalpost.MissingFrom` | src/goalpost/mod.rs:61-70 | the sorted list of exactly the names one version has and the other lacks |
| `Goalpost.CompareShared` | src/goalpost/mod.rs:71-100 | the sorted list of exactly the loosened shared names, and review exactly when a shared narrative or a type changed |
| `Goalpost.Analyze` | src/goalpost/mod.rs:49-119 | the report says exactly what was dropped, added and loosened, whatever order the maps are walked in |
| `GoalpostReport.LoosenedIff` | src/goalpost/mod.rs:145-175 | a name is listed as loosened if and only if it is in both sets, its two texts parse to one field and one ordered family, the new version fires in strictly fewer worlds, and the two numbers differ |
| `GoalpostReport.DroppedAndAddedIff` | src/goalpost/mod.rs:49-119 | dropped are exactly the non-empty names of original conditions no updated one has, added the reverse; a report weakens exactly when something is dropped or loosened |
| `GoalpostReport.ReviewIff` | src/goalpost/mod.rs:49-119 | review is asked for exactly when a condition in both sets changed its type or its words, or everything was replaced |
| `GoalpostMeaning.LooserTripsStrictlyLess` | src/goalpost/mod.rs:153-175 | a flagged expression trips on strictly fewer values than the original |
| `GoalpostMeaning.WeakerIffFlaggedOrBoundary` | src/goalpost/mod.rs:153-175 | within one field and ordered family a change is weaker if and only if it is flagged or drops the boundary at the same number |
| `GoalpostMeaning.CoversIff` | src/goalpost/mod.rs:145-175 | for all 36 operator pairs, exactly when one threshold trips wherever another does, with a witness when it does not |
| `GoalpostMeaning.QuantitativeKeepsIff` | src/goalpost/mod.rs:71-82 | a new quantitative condition fires in every world the old one does if and only if the texts pass a decidable test |
| `GoalpostMeaning.CleanKeepsIff` | src/goalpost/mod.rs:49-119 | after a clean report on distinctly named conditions, every original condition is kept on its own if and only if none slipped through unflagged |
| `GoalpostMeaning.CleanPlainEditsFire` | src/goalpost/mod.rs:49-119 | when shared conditions keep their text or their field and ordered operator, a clean report means the updated set fires whenever the original would |
| `GoalpostMeaning.EachKeptFires` | src/goalpost/mod.rs:49-119 | keeping each condition keeps the whole set's trigger |
| `GoalpostMeaning.LoosenedFiresLess` | src/goalpost/mod.rs:71-82 | a condition reported as loosened fires in strictly fewer worlds than it did |
| `GoalpostMeaning.ReportUnique` | src/goalpost/mod.rs:49-119 | what the analysis promises leaves nothing open: two reports on the same conditions are equal |
| `GoalpostCoverage.PointsDecide` | src/goalpost/mod.rs:145-175 | whether a union of thresholds covers another, or every value, is decided by the numbers, their midpoints and a point beyond each |
| `GoalpostCoverage.SetKeepsIff` | src/goalpost/mod.rs:49-119 | the updated set fires whenever the original would if and only if it always fires, or repeats every text and covers every threshold by the union of its thresholds on that field |
| `GoalpostCoverage.CleanSetKeepsIff` | src/goalpost/mod.rs:49-119 | after a clean report on distinctly named conditions only the conditions that slipped through unflagged need to be covered |
| `GoalpostCoverage.BoundaryExample` | src/goalpost/mod.rs:168-172 | changing the text "x <= 45" to "x < 45" gives a clean report, and the updated set no longer fires whenever the original did |
| `GoalpostSyntax.PrintThenParse` | src/goalpost/mod.rs:125-143 | printing field, operator and numeral with any spacing and parsing gives the same triple back, for all six operators |
| `GoalpostSyntax.ParseThenPrint` | src/goalpost/mod.rs:125-143 | whatever parses is a printing of what it parsed to: nothing invented, nothing ignored |
| `GoalpostSyntax.FindsOnly` | src/goalpost/mod.rs:127-129 | trying longer operators first is right: in such text only the operator itself is found, in its own place |
| `Bars.LatestMarketBarPayloads` | src/ingest/fmp_live_bars_service.rs:265-282 | the pushed payloads are `Payloads`: every interval that has a bar, then the day |
| `Bars.LatestTs` | src/ingest/fmp_live_bars_service.rs:290-291 | the latest time is some row's and no row is later |
| `BarsRollUp.SortIsStable` | src/ingest/fmp_live_bars_service.rs:296-307 | sorting orders rows by time, keeps every row, and keeps rows of equal time in their order |
| `BarsRollUp.BucketsNest` | src/ingest/fmp_live_bars_service.rs:336-341 | flooring to a width and then to a multiple of it is flooring to the multiple |
| `BarsRollUp.BucketIff` | src/ingest/fmp_live_bars_service.rs:336-341 | a row's bucket is a given one if and only if its time is within it |
| `BarsRollUp.LatestIsBucketBar` | src/ingest/fmp_live_bars_service.rs:290-308 | filtering rows by bucket is selecting a time range, so the latest payload is the bar of that range |
| `BarsRollUp.SelectThenSort` | src/ingest/fmp_live_bars_service.rs:292-318 | selecting before or after the stable sort is the same |
| `BarsRollUp.AggregateOfConcat` | src/ingest/fmp_live_bars_service.rs:311-334 | aggregation turns concatenation into combination: first open, max high, min low, last close, summed volume |
| `BarsRollUp.WideBarCombinesNarrow` | src/ingest/fmp_live_bars_service.rs:284-334 | a wide bucket's bar is the combination of the narrow bars inside it, whatever the row order |
| `BarsRollUp.LatestWideCombines` | src/ingest/fmp_live_bars_service.rs:284-334 | the same for the latest payload of every width and multiple |
| `BarsRollUp.PayloadsIgnoreOrder` | src/ingest/fmp_live_bars_service.rs:265-334 | with distinct times every payload is the same for every order of the rows |
| `BarsRollUp.NinePayloadsOneClose` | src/ingest/fmp_live_bars_service.rs:265-309 | any rows give all nine payloads, and all nine share one close |
| `BarsOutcome.LatestPayloadTells` | src/ingest/fmp_live_bars_service.rs:284-334 | the latest bar of any width has as its time the multiple of the width whose bucket holds the newest row, as high and low the highest high and lowest low of that bucket's rows, as volume their sum, and opens with the first of the earliest time and closes with the last of the latest |
| `BarsOutcome.PayloadsAre` | src/ingest/fmp_live_bars_service.rs:265-309 | the nine payloads are those of 60, 180, 300, 900, 1800, 3600, 7200, 14400 and 86400 seconds under their labels, in that order |
| `Backfill.IntradayHistoryWindows` | src/gateway/routes.rs:563-583 | the loop returns exactly the specified windows: min(limit, chunks needed) of them |
| `Backfill.WindowsTile` | src/gateway/routes.rs:563-583 | windows are adjacent, newest first, end the day before the oldest bar, never start before the target, and are full length except possibly the last |
| `Backfill.DayInWindowIff` | src/gateway/routes.rs:563-583 | a day lies in the i-th window if and only if it is a missing day that many chunks back, so windows are disjoint |
| `Backfill.WholeGapCoveredOnce` | src/gateway/routes.rs:563-583 | when the limit does not truncate, every missing day is in exactly one window and no other day in any |
| `Backfill.EnsureCoverage` | src/gateway/routes.rs:602-664 | a request makes at most four fetches, in the planned order, and stops short only right after a history fetch failed; it reports failure exactly when a lookup or fetch failed |
| `Backfill.PlannedWithinLookback` | src/gateway/routes.rs:609-664 | no planned window reaches before the lookback |
| `BackfillRules.FreshFirst` | src/gateway/routes.rs:602-640 | a stale newest bar is refreshed by one fetch that ends today and spans a fetch's days within the lookback; without a stored day nothing else is planned |
| `BackfillRules.HistoryDaysIff` | src/gateway/routes.rs:640-664 | a day is in some history window if and only if it lies from the lookback's first day to the day before the oldest stored one, no more fetches back than the four of a request leave |
| `BackfillRules.DaysPerFetch` | src/gateway/routes.rs:551-561 | how many days one fetch of each interval spans |
| `Ledger.PositionLedger.RecordFill` | src/gateway/routes.rs:5205-5363 | enter, resize and exit update the position and fill tables as `Record`; a rejected fill changes nothing |
| `Ledger.LatestOpen` | src/gateway/routes.rs:5264-5276 | an open position of the thesis none of whose open positions was opened later, or there is none |
| `LedgerRules.InvalidIff` | src/gateway/routes.rs:4769-5040 | which error a fill is refused with for its own fields: the first that is wrong |
| `LedgerRules.RefusedIff` | src/gateway/routes.rs:5251-5345 | exactly when a valid resize or exit finds no open position, another side or instrument, or more held than it exits |
| `LedgerRules.EnterRecords` | src/execution.rs:14-52 | an entry opens the position as stated, exposed by its worth as direction or, for options, as premium, a hundred shares a contract, unless overridden |
| `LedgerRules.ResizeRecords` | src/gateway/routes.rs:5300-5330 | a resize adds shares at what they cost and both exposures to the position it applies to, and changes nothing else |
| `LedgerRules.ExitRecords` | src/gateway/routes.rs:5331-5360 | an exit realizes the gain over cost on everything held, for every contract's shares, less its fees, and changes nothing else |
| `LedgerConservation.RecordBalances` | src/gateway/routes.rs:5205-5363 | recording any fill keeps both tables in agreement |
| `LedgerConservation.ProfitIsSum` | src/execution.rs:54-68 | average-cost profit equals the sum of each fill's own profit |
| `LedgerConservation.EveryHistoryBalances` | src/gateway/routes.rs:5205-5363 | every history keeps: quantity and cost are sums over the fills, a closed position's realized profit is the sum of its fills' signed (exit - price) times quantity and multiplier less the exit's fees, and exposures nobody overrode sum to quantity times average price times multiplier |
| `LedgerConservation.ClosedIsFinal` | src/gateway/routes.rs:5251-5276 | a closed row never changes again |
| `LedgerConservation.EveryReachableBookBalances` | src/gateway/routes.rs:5205-5363 | so every book reachable from an empty one is balanced |
| `LedgerConservation.ExitNetsToZeroIff` | src/gateway/routes.rs:5331-5360 | an accepted exit closes the whole position, and its recorded fills net to zero if and only if it states the position's quantity; it may state more |
| `LedgerConservation.OverExitExample` | src/gateway/routes.rs:5331-5360 | enter 10 at 100, exit 25 at 110: accepted, realizing 100, with fills that net to 15 short |
| `LedgerConservation.FeesDeductedIff` | src/gateway/routes.rs:5331-5338 | a closed position's realized profit is its fills' own profits less all its recorded fees if and only if the fees of its entering and resizing fills sum to zero |
| `LedgerConservation.FeesExample` | src/gateway/routes.rs:5331-5360 | enter 10 at 100 paying 5, exit at 110 paying 1: 99 is recorded with fees of 6 |
| `PriceExtension.DiscoveryRsi14` | src/discovery/composer.rs:242-263 | the in-place loop computes the relative strength index |
| `PriceExtension.ConsensusRsi14` | src/consensus/components.rs:95-116 | the loop that reverses and averages computes the same index |
| `PriceExtension.DiscoveryExtension` | src/discovery/composer.rs:49-83 | the discovery scorer is `ExtensionOf` |
| `PriceExtension.ConsensusExtension` | src/consensus/components.rs:61-93 | the consensus scorer is `ScoreOf` |
| `PriceExtension.Rsi14Range` | src/consensus/components.rs:95-116 | the index lies in [0, 100] and is 100 exactly when there were no losses |
| `PriceExtension.ScoresAgree` | src/consensus/components.rs:22-29 | the two scores are equal and in [0, 100] whenever discovery gives one, which is exactly when consensus does and the latest close is positive |
| `PriceExtensionRules.Rsi14Is` | src/consensus/components.rs:95-116 | the index is the percentage that was up of everything the last fourteen moves went; a hundred when nothing was down, and fifty with fewer moves |
| `PriceExtensionRules.AboveAverageIs` | src/discovery/composer.rs:49-83 | the percentage above the mean of at most two hundred closes |
| `PriceExtensionRules.FromHighIs` | src/discovery/composer.rs:49-83 | the percentage below the highest of at most two hundred and fifty-two closes |
| `PriceExtensionRules.ExtensionIs` | src/discovery/composer.rs:49-83 | the scanner answers for fifteen closes with a positive latest one: the three percentages and the mean of three ramps, 0 to 30 above the average, 50 to 90 of strength and -30 to 0 below the high |
| `PriceExtensionRules.ScoreIs` | src/consensus/components.rs:22-93 | the scorer gives the mean of the same three ramps for fifteen closes, and no data for fewer |
| `Signals.BreakoutBounded` | src/discovery/signals.rs:83-115 | every fired breakout from a base of tightness t below 200 is positive and at most 200t/(200-t) percent, for any history |
| `Signals.BoundAttained` | src/discovery/signals.rs:83-115 | the bound is attained |
| `SignalRules.BreakoutIff` | src/discovery/signals.rs:83-115 | a breakout fires if and only if the closes are enough, the latest twenty are positive and within the tightness of their middle, and the latest is above a positive high of the window before it; it is the rise over that high in percent |
| `Estimates.EstimateStore.ScanOne` | src/ingest/fmp_estimates_service.rs:133-167 | the scan loop stores the rows and appends the revisions of `ScanAll`; an error ends it, keeps what was stored and returns no count |
| `Estimates.DiffCarriesMove` | src/ingest/fmp_estimates.rs:103-169 | a revision carries a metric's move if and only if the move is material |
| `Estimates.DirectionAgrees` | src/ingest/fmp_estimates.rs:135-169 | up and down agree with every carried delta, mixed means opposite signs, coverage change means neither moved |
| `EstimatesOutcome.EmittedIff` | src/ingest/fmp_estimates.rs:103-169 | nothing is emitted exactly when neither value moved by more than a billionth (EPS) or a half (revenue) and the analyst counts are the same |
| `EstimatesOutcome.DeltaIs` | src/ingest/fmp_estimates.rs:103-169 | both changes with their percentages of the value before, and a direction exactly by what rose and what fell |
| `EstimatesOutcome.ScanStores` | src/ingest/fmp_estimates_service.rs:146-156 | a row stores its estimate and the revision against the newest snapshot of its period, naming both, each unless it failed |
| `EstimatesOutcome.CompletesIff` | src/ingest/fmp_estimates_service.rs:133-167 | a scan runs to its end exactly when every row goes through in the state it meets |
| `Estimates.ScanKeepsAccount` | src/ingest/fmp_estimates_service.rs:133-167 | every scanned row, wherever an error ends it, keeps for all periods and metrics: moves equal emitted deltas plus noise plus the changes that lost their revision |
| `Estimates.EveryRunAccounted` | src/ingest/fmp_estimates_service.rs:133-167 | so do any scans, each ending at its first error |
| `Estimates.DriftBoundedIff` | src/ingest/fmp_estimates_service.rs:146-156 | after any scans the emitted deltas account for the moves up to one tolerance per ignored move if and only if noise and lost changes together stay within it, always when nothing was lost |
| `Estimates.UninterruptedDriftBounded` | src/ingest/fmp_estimates_service.rs:133-167 | scans with no error between a snapshot and its revision always stay within the tolerance |
| `Estimates.LostRevisionExample` | src/ingest/fmp_estimates_service.rs:146-156 | estimates of 1, then 2 with its revision lost, then 2 again: a move of 1 of which nothing was emitted |
| `Estimates.MovesTelescope` | src/ingest/fmp_estimates_service.rs:133-167 | when every snapshot carries the metric, moves sum to last minus first |
| `Estimates.EmittedSumsToChange` | src/ingest/fmp_estimates.rs:103-169 | over any scans, emitted deltas and lost changes sum to last minus first with error at most k times 1e-9 (EPS) or 0.5 (revenue), k counting the ignored changes |

## Left out

- Reals stand for 64-bit floats and for the numeric columns of the database: rounding, NaN, infinities and the
  resulting error branches (`is_finite` checks) are not modelled. Reading a numeral is a parameter (`Goalpost.Numerals`),
  so which strings denote numbers is not modelled; neither is a non-finite result of that reading.
- Text: rationale and reason sentences, titles, prompts, JSON snapshots, order plans, bracket prices and cent
  rounding, idempotency keys, and the ids of fills and orders. The blocker codes themselves are modelled.
- Transport and process plumbing: HTTP handlers, NATS, tokio loops, environment parsing, logging, and the queries
  that load a pass's inputs. What they return (features, prices, risk verdict, portfolio value, allocation limits,
  broker state, session flag) is a parameter. The market calendar is reduced to a session-open flag.
- Concurrency inside the database: every statement or transaction is one atomic step. A statement that fails inside a
  persist is modelled by how far the persist got (`Lifecycle.Progress`), a failed scan by no change.
- `Runner.AutomationRunner.RunOnce`: its theorems assume that the candidate query returns each permission once and
  that a permission's symbol never changes (the `registry`). Closing and freezing sleeves happens elsewhere; within a
  run the retired sleeves stay as they are.
- `Runner.AutomationRunner.InsertDesired`: the proof, sleeve event and validation rows written in the same transaction
  are not modelled.
- `Runner.AutomationRunner.StepCandidate`: the proof row kept for a blocked candidate (src/platform/store.rs:5576-5623)
  is not modelled; nothing reads it back in a pass.
- `Runner.AutomationRunner.SimulateNewest`: the reconciliation, order, fill and event records written in the same
  transaction are not modelled, nor the average cost, notional and realized profit of the digital broker's rows; their
  quantities and the sleeve are.
- `RunnerBroker.NeverMissing` and `RunnerBroker.RowsEqualSleevesUpToDust` assume that only the runner changes the
  broker's rows and accounts, and count the sleeves that are not closed: closing one elsewhere leaves its shares in the
  row.
- `Sleeve.ReloadFaithfulIff` and `Sleeve.StoredBooksBalanceIff` are about the default simulation settings, which are
  the only ones the store uses (src/platform/store.rs:5197).
- `AllocatorRuns.GrantKeepsCaps` and the run theorems need the resized sleeve to carry the request's symbol; the
  runner's invariant supplies that.
- `Strategy.EvaluateStrategy`: a thesis's direction is reduced to whether it is bullish, and configuration lookups to
  present or absent values.
- `Lifecycle.DiscoveryStore.PersistHit`: evidence items, title refreshes, retry fields, the count of hits, candidate
  decision dates and operators' notes are not modelled.
- `LifecycleSafety.ApplyKeeps` and `LifecycleSafety.EveryReachableConsistent` cover candidate reviews and thesis items.
  Items of other kinds (risk, context, consensus, staleness), owners, retry times and resolution references are not
  modelled; which deferred items are due is a parameter. Eligibility and the theme, tier and fit tables of nominations
  are parameters.
- `Backfill.EnsureCoverage`: whether a stored bar is stale, and the outcome of each lookup and fetch, are parameters;
  the rows fetched are not modelled.
- `Ledger.PositionLedger.RecordFill`: the fallbacks that take side and instrument from a sizing or thesis row, and the
  tickets, decisions, thesis transitions and replays of the same request, are not modelled. It requires positive
  quantities on stored positions, which `LedgerConservation.EveryHistoryBalances` shows of every reachable book.
- `Ledger.LatestOpen`: the query (src/gateway/routes.rs:5264-5276) does not filter by source, so it can also select a
  row of the same thesis that the simulator opened (src/platform/store.rs:5366-5390), which a manual exit without a
  position id then closes. The model's table holds the rows of manual fills only.
- `Estimates.EstimateStore.ScanOne`: the evidence noted after a revision is not modelled; that an error there ends the
  scan is.
- `Bars.LatestMarketBarPayloads`: times are whole seconds, and the row order theorem needs distinct times.
- Readiness scoring and promotion, stage changes, the risk engine, the regime and thesis engines, the other discovery
  and consensus detectors, watchlist and provider classification tables: single-branch rules with no state behind them.
