# Verified model of the endpoint lifecycle and routing engine

A Dafny 4.11 model of the load balancer's core: endpoints with health, cooldown and metrics, a
URL-keyed index of rate limiters, tiered selection, request outcomes, health rounds and hot reload.
`dafny verify dfyconfig.toml` checks the whole project.

## How it is built

The code that works on shared state is modelled in its own form: `EndpointMetrics`,
`DirectRateLimiter`, `LoadBalancer` and `RequestCounters` are classes, their operations are methods,
and every loop of the source is a loop with invariants. Endpoint records are values, because a reload
clones them, while metrics and limiters are objects, because the clones share them.

`State.dfy` gives the meaning of every operation as a function on a value of type `Core`, and
`Balancer.dfy`, `Health.dfy`, `ConfigReloader.dfy` and `Forwarder.dfy` prove that the methods do exactly
that to the heap. `State.dfy` also puts the operations together as a transition system in which
they interleave freely, with a reload taken apart into its snapshot, its two writes and its setting
writes. The modules whose names end in `Runs`, together with `Invariants.dfy`, `StaleSnapshots.dfy` and
`Accounting.dfy`, prove what holds over every run of that system; `Startup.dfy` connects it to the constructor.
`Locks.dfy` and `Deadlock.dfy` go one level down, to the lock operations themselves. Among other things they
show that a write scope excludes every other scope of its lock; read scopes overlap, which "Left out" comes back to.

Every induction is written out: lemmas that automatic induction would otherwise apply to carry
`{:induction false}`.

| file | contents |
|---|---|
| `Prelude.dfy` | machine widths, time units, `Option` |
| `Endpoint.dfy`, `Smoothing.dfy`, `FieldUpdates.dfy` | metrics object and endpoint record; closed forms and convergence of the metric arithmetic; racing updates, field by field |
| `Cooldown.dfy` | exponential backoff with the wrap-around of a release build |
| `RateLimiter.dfy` | token bucket, limiter period, bound on what is granted in a window |
| `Config.dfy` | validation, canonical URLs, deduplication, `finalize` |
| `Strategy.dfy` | selection: comparator, stable sort, tiers, token reservation |
| `RoutingRules.dfy`, `ConfigInForce.dfy` | where a request goes and what a configuration puts in force, in terms of the fields themselves |
| `State.dfy`, `Balancer.dfy`, `Health.dfy`, `ConfigReloader.dfy`, `Startup.dfy` | the state as a value, the methods that change it, the initial state |
| `Invariants.dfy`, `StepEffects.dfy` | the system invariant, and what one step does to one endpoint |
| `CooldownRuns.dfy`, `StaleSnapshots.dfy`, `MetricsRuns.dfy`, `LimiterRuns.dfy`, `SelectionRuns.dfy`, `HealthRounds.dfy`, `ReloadRuns.dfy`, `SecondReload.dfy` | theorems about whole runs |
| `ErrorScan.dfy`, `Json.dfy`, `JsonScan.dfy` | the error scan on bytes, JSON texts in every layout, and what the scan says about each of them |
| `Forwarder.dfy`, `Accounting.dfy` | one request, and the request counters over whole runs |
| `Locks.dfy`, `Deadlock.dfy`, `LockUse.dfy` | lock order, progress, and exactly which mixes of operations can deadlock |

## Where the code does not do what it is documented or meant to do

The model follows the code. Each of these is a lemma, with the exact condition where there is one.

- Backoff: the documented `min(base * 2^attempts, max)` holds if and only if fewer than 64 attempts
  have been counted or a setting is zero (`Cooldown.BackoffExact`). Only a recovery resets the counter, so
  an endpoint that stays healthy and keeps answering 429 ends up without any cooldown, exactly from the
  64th attempt on (`CooldownRuns.MarksFailIff`).
- A reload that commits a snapshot taken before a trigger can undo the trigger. Whatever is served in between, the
  endpoint stays out until the deadline if and only if it was unhealthy, or in cooldown that long, when the snapshot
  was taken (`StaleSnapshots.StaleCommitKeepsOutIff`, `StaleSnapshots.TriggerUndoneIff`). Snapshot, 429 and commit
  are such a run (`StaleSnapshots.TriggerUndone`), behind which the next request may go to the endpoint at the very
  moment of the 429 (`StaleSnapshots.UndoneIsRouted`).
- Deduplication and `finalize` are idempotent if and only if every accepted URL has something other than
  slashes after its scheme (`Config.DedupeIdempotentIff`, `Config.FinalizeIdempotentIff`). The URL `http://` has
  not: it is accepted and rejected the second time (`Config.DedupeNotIdempotent`, `Config.FinalizeNotIdempotent`).
- The status report can deadlock with any operation that writes the endpoints (`Deadlock.DeadlockFreeIff`).
- The error scan flags a JSON text if and only if the first of its members, at any depth, whose name literal
  ends in the key with the colon right behind it has a value other than `null` (`JsonScan.FlaggedIff`). It
  therefore reports a top-level member whose name decodes to `error`, whatever its value, if and only if the name is
  spelled without escapes, no whitespace stands before the colon, and no keyed member comes earlier
  (`JsonScan.ErrorReportedIff`). A key nested in a result and a name that ends in an escaped quote and `error` are
  flagged; a spaced colon and an escaped spelling of the name are missed. In a batch the first item with a keyed
  member decides (`JsonScan.BatchFlaggedIff`), so that a `null` there hides every later error
  (`JsonScan.NullHidesLaterErrors`).
- The repository's README says that the most-recently-used tie-breaker prevents starvation. In a tier that
  ignores cost a single selection, if stamped later than the others of its weight, makes a leader
  (`SelectionRuns.SelectionMakesLeader`); stamps are whole seconds, so ties are ordinary. While usable, a leader keeps
  every request no heavier endpoint takes (`SelectionRuns.SelectionSticks`); somebody of the same or lower weight
  gets one if and only if the leader is not usable, nobody heavier is, and somebody of the same or lower weight is
  (`SelectionRuns.RivalSelectedIff`).
- A penalty, once there, never decays to zero (`Smoothing.DecaysSettle`, `Smoothing.PenaltyNeverForgotten`).

## Assumptions

- The limiter library is not part of the repository. It is assumed to be a leaky bucket of the given
  capacity that drains evenly over the given period and grants a request all or nothing.
- Times are natural numbers of nanoseconds from one nondecreasing clock; the wall clock of `last_selected`
  is a separate `u64` of seconds that may jump. One step sees one moment, but for the base cooldown, which a
  health round may have read before a reload changed it.
- Reloads do not overlap each other; everything else may.
- Release-build arithmetic: `2u64.pow` and `secs * 1000` wrap. Averages use exact real arithmetic.

## Model

| member | source | states |
|---|---|---|
| `Strategy.ComparatorIsTotalPreorder` | src/strategy.rs:76-92 | for each cost rule the sort comparator is a strict weak order, so the library sort is well defined on it |
| `Strategy.SortBySorted` | src/strategy.rs:75-92 | sorting list positions yields the strict order in which comparator ties keep their list order (stability) |
| `Strategy.SortedUnique` | src/strategy.rs:75-92 | there is exactly one such arrangement of a set of positions |
| `Strategy.TiersAreOneOrder` | src/strategy.rs:49-92 | partition into three tiers and three sorts with cost only in the middle tier equal one stable sort by weight, cost for weights 50 to 99, last selection, list position |
| `Strategy.GlobalOrderFindsBest` | src/strategy.rs:67-103 | the first admitting endpoint of that global order comes before every other admitting candidate; none is found exactly if no candidate admits |
| `Strategy.BestUnique` | src/strategy.rs:67-103 | there is at most one best endpoint, so selection is deterministic |
| `Strategy.CollectTiers` | src/strategy.rs:42-62 | the tiers are the available endpoints of positive weight, by weight class, in list order |
| `Strategy.ReserveTokens` | src/strategy.rs:107-129 | when a reservation succeeds, when a batch is too large, and that only the addressed limiter is charged, only on success |
| `Strategy.TryTier` | src/strategy.rs:94-100 | stops at the first candidate whose limiter admits; refused candidates are not charged |
| `Strategy.TryTiers` | src/strategy.rs:64-104 | the tier loop returns the best endpoint of all, or none if none admits |
| `Strategy.SelectBestEndpoint` | src/strategy.rs:37-104 | the three passes return the global best, charge its limiter alone, and charge nothing when none admits |
| `Balancer.LoadBalancer.constructor` | src/balancer.rs:55-164 | startup builds healthy endpoints without cooldown, their own metrics objects and one full limiter each |
| `Balancer.LoadBalancer.Choose` | src/balancer.rs:171-175 | selection on the heap is the best choice on the state's value and charges what the specification charges |
| `Balancer.LoadBalancer.GetNextEndpoint` | src/balancer.rs:171-188 | returns the winner of the specification, charges its limiter and stamps only its `last_selected` |
| `RoutingRules.SelectedIff` | src/strategy.rs:37-104 | a request goes to an endpoint if and only if it is healthy, out of cooldown, of positive weight and with room for the batch, and for everybody else of that kind: it is heavier, or between weights 50 and 99 cheaper (latency plus penalty, at least 1000), or selected more recently, or listed first |
| `RoutingRules.SelectionLeaves` | src/balancer.rs:171-188 | the chosen URL is returned and stamped, exactly the tokens of the batch are gone from its limiter, nothing else changes |
| `RoutingRules.TurnedAwayIff` | src/strategy.rs:37-104 | a request is turned away if and only if there is no such endpoint |
| `Balancer.LoadBalancer.MarkRateLimited` | src/balancer.rs:200-214 | triggers the cooldown of that URL's record and changes nothing else; unknown URLs change nothing |
| `Balancer.LoadBalancer.MarkUnhealthy` | src/balancer.rs:216-233 | only a healthy endpoint is marked and put into cooldown; a second mark changes nothing |
| `Balancer.LoadBalancer.Observe` | src/forwarder.rs:71-120 | the outcome updates the metrics object of that URL and nothing else |
| `Balancer.LoadBalancer.HealthyCount` | src/balancer.rs:235-239 | counts exactly the available endpoints |
| `Startup.Start` | src/balancer.rs:55-164 | startup from any configuration that finalizes establishes the system invariant |
| `Startup.InitialInv` | src/balancer.rs:75-118 | every initial state satisfies the system invariant |
| `ConfigInForce.StartupInstalls` | src/balancer.rs:55-164 | after startup every setting is the one of that name in the configuration, the endpoints are as listed, available, with the client timeout as latency, and let through exactly the batches up to their burst |
| `ConfigInForce.FirstCooldown` | src/utils/cooldown.rs:24-34 | under a configuration the first trigger of an endpoint keeps it out for min(2 * base, max) seconds |
| `ConfigInForce.FirstCooldownAsWritten` | src/config.rs:33-36 | the same in terms of the file, with 3 and 60 seconds for settings that are absent |
| `Endpoint.Blend` | src/endpoint.rs:85 | the unrounded average lies between the old value and the sample |
| `Endpoint.UpdateEma` | src/endpoint.rs:82-88 | the rounded average never leaves the interval between the old value and the sample |
| `Endpoint.EndpointMetrics.Update` | src/endpoint.rs:63-79 | a success and a failure change exactly the fields the specification says |
| `Endpoint.EndpointMetrics.Recover` | src/utils/health.rs:125-127 | a recovery clears the failure count and halves the penalty |
| `Endpoint.CostBounds` | src/endpoint.rs:105-112 | the cost is at least 1000 and at least either of its parts, grows with both, and strictly so between the floor and saturation |
| `Endpoint.OutcomeMovesCost` | src/endpoint.rs:63-112 | a success not slower than the average never raises the cost, a failure with a penalty not below the current one never lowers it |
| `Smoothing.EmaFixedPoint` | src/endpoint.rs:82-88 | an update leaves the average unchanged if and only if it is in the dead zone of the sample |
| `Smoothing.SuccessSmooths` | src/endpoint.rs:65-70 | a success moves the average by the configured fraction of the distance, up to rounding, halves the penalty and clears the failure count |
| `Smoothing.EmaApproaches` | src/endpoint.rs:82-88 | outside the dead zone every update moves strictly towards the sample and never past it |
| `Smoothing.EmaSettles` | src/endpoint.rs:82-88 | after at most as many updates as the initial distance the average has stopped, within 1/(2 alpha) of the sample |
| `Smoothing.LatencyStaysWithin` | src/endpoint.rs:63-88 | over any run with any factors the latency average stays within its initial value and samples |
| `Smoothing.DecaysClosedForm` | src/endpoint.rs:70 | n successes turn a penalty p into exactly p/2^n rounded up |
| `Smoothing.DecaysSettle` | src/endpoint.rs:70 | a positive penalty settles at 1, a zero penalty stays 0 |
| `Smoothing.AttackContracts` | src/endpoint.rs:72-76 | one failure leaves exactly a rounded fifth of the distance to its penalty |
| `Smoothing.AttacksReach` | src/endpoint.rs:72-76 | repeated failures reach their penalty exactly, after logarithmically many |
| `Smoothing.CounterCountsFailures` | src/endpoint.rs:63-79 | over any run the failure counter counts the failures since the last success or recovery, modulo 2^32 |
| `Smoothing.PenaltyNeverExceeds` | src/endpoint.rs:63-101 | over any run the penalty never exceeds the largest penalty applied |
| `Smoothing.PenaltyNeverForgotten` | src/endpoint.rs:63-101 | a positive penalty never returns to zero |
| `FieldUpdates.FieldsOfUpdate` | src/endpoint.rs:63-79 | the atomic operations of one update, in program order, amount to the update |
| `FieldUpdates.FieldTakesItsOperations` | src/endpoint.rs:63-88 | in every interleaving of racing updates a field takes all operations addressed to it, in their order, and no others |
| `FieldUpdates.RacesAreFieldwise` | src/endpoint.rs:63-88 | two interleavings with the same order on each field leave the same metrics |
| `Cooldown.BackoffExact` | src/utils/cooldown.rs:24-31 | the saturating, wrapping computation is min(base*2^attempts, max) if and only if attempts are below 64 or a setting is zero |
| `Cooldown.BackoffCollapses` | src/utils/cooldown.rs:25-31 | from 64 attempts on the cooldown lasts no time |
| `Cooldown.BackoffMonotone` | src/utils/cooldown.rs:24-31 | below 64 attempts the backoff never shrinks |
| `Cooldown.BackoffStaysAtCap` | src/utils/cooldown.rs:30-31 | once the cap is reached the backoff stays there until the power wraps |
| `Cooldown.BackoffReachesCap` | src/utils/cooldown.rs:27-31 | a nonzero base reaches every cap up to 2^63 before that |
| `RateLimiter.DirectRateLimiter.CheckN` | src/strategy.rs:122-125 | the assumed bucket contract: admits exactly what fits, all or nothing |
| `RateLimiter.CreateRateLimiter` | src/config_reloader.rs:73-83 | a full bucket of the configured burst and the floored period |
| `RateLimiter.RestedAdmitsIff` | src/strategy.rs:122-125 | of a new limiter, and of one idle for a period, exactly the batches up to the burst get through |
| `RateLimiter.GrantedIsGone` | src/strategy.rs:122-125 | behind a grant exactly as much fits as fits together with it |
| `RateLimiter.ConfiguredRateIsServed` | src/config_reloader.rs:73-83 | a client that keeps to the configured rate is never refused, however long it goes on |
| `RateLimiter.PeriodAccuracy` | src/config_reloader.rs:80-81 | for validated limits the period is within 10^4 to 10^13 ns and flooring speeds it up by at most 0.01 percent |
| `RateLimiter.WindowBound` | src/strategy.rs:122-125 | in any window of any history of grants, grants plus the initial level fit capacity plus drain |
| `RateLimiter.GrantedInWindow` | src/config_reloader.rs:73-83 | at most burst + window*burst/period tokens are granted in any window |
| `RateLimiter.GrantedAtConfiguredRate` | src/config_reloader.rs:73-83 | the same in terms of the configured rate per second, off by at most 0.01 percent |
| `Config.Canonicalize` | src/config.rs:218-228 | the loop that pops slashes computes the canonical URL |
| `Config.SchemeIs` | src/config.rs:193 | the two schemes letter by letter, in either case |
| `Config.TrimIs` | src/config.rs:186 | trimming removes whitespace, at both ends, and all of it |
| `Config.CanonicalUrlIs` | src/config.rs:218-228 | the canonical URL has the scheme in lower case, the rest unchanged, and lacks exactly the slashes at the end |
| `Config.PlainUrlAcceptedIff` | src/config.rs:189-216 | an entry with a plain ASCII URL is accepted if and only if it has a scheme, at most 2048 characters, a rate from 1 to 100000 and a burst from 1 to 10000 |
| `Config.ValidateAndDedupeEndpoints` | src/config.rs:175-243 | returns the first occurrence of every canonical URL, or an error if there is none |
| `Config.KeepsFirstOccurrences` | src/config.rs:230-234 | the kept list is, in order, exactly the first occurrences, and its URLs are distinct |
| `Config.FirstsComplete` | src/config.rs:230-234 | these are all first occurrences and no others, in increasing order |
| `Config.DedupeSpecification` | src/config.rs:183-236 | the kept entries are the canonical forms, with their own settings, of exactly the accepted entries whose canonical URL no accepted entry before them has, in order; every accepted URL is kept |
| `Config.KeptAsConfigured` | src/config.rs:183-236 | every kept entry has the rate, the burst and the weight of the first acceptable entry it comes from, and its canonical URL |
| `Config.ValidationFailsIff` | src/config.rs:238-240 | validation fails if and only if no entry is acceptable |
| `Config.CanonicalUrlStable` | src/config.rs:218-228 | a canonical URL with a host is accepted again and is its own canonical form |
| `Config.SecondPassEntry` | src/config.rs:185-228 | a second pass keeps an entry unchanged exactly if its URL had a host |
| `Config.DedupeIdempotentIff` | src/config.rs:175-243 | deduplicating twice equals deduplicating once if and only if every accepted URL has a host |
| `Config.DedupeNotIdempotent` | src/config.rs:218-234 | instance: `http://` is kept by the first pass and gone after the second |
| `Config.Finalize` | src/config.rs:22-74 | the step-by-step filling of defaults computes the finalized configuration |
| `Config.FinalizedIsComplete` | src/config.rs:22-74 | after success every setting is present and in range and the endpoints are distinct and usable |
| `Config.FinalizedKeepsSettings` | src/config.rs:22-57 | every setting that is given stays, clamped or raised to 1 where the code does so, and every absent one takes its default value |
| `Config.FinalizedEndpoints` | src/config.rs:59-70 | the finalized endpoints have the rate and burst of the entries they come from, and their weight or 20 |
| `Config.FinalizeIdempotentIff` | src/config.rs:22-74 | finalizing twice equals finalizing once if and only if every accepted URL has a host |
| `Config.FinalizeNotIdempotent` | src/config.rs:22-74 | instance: a configuration that finalizes, while its result does not |
| `Config.DefaultsFinalize` | src/config.rs:141-146 | an absent configuration finalizes |
| `Health.GatherResults` | src/utils/health.rs:65-105 | the results of a snapshot's checks, in the order they finish, name every URL once at most |
| `Health.CommitResults` | src/utils/health.rs:107-152 | the commit loop does to the heap what the fold over the results says |
| `Health.CommitResult` | src/utils/health.rs:112-151 | one result: health, check time, recovery reset or cooldown, metrics, for its URL only |
| `Health.UpdateRecord` | src/utils/health.rs:112-148 | health, check time, recovery reset or cooldown, on the heap |
| `HealthRounds.SnapshotResultsDistinct` | src/utils/health.rs:65-105 | because the snapshot has distinct URLs, no URL has two results |
| `StepEffects.RoundMayCommit` | src/utils/health.rs:65-112 | so a round whose snapshot was taken in any reachable state may commit in any later one |
| `HealthRounds.CommitIsPointwise` | src/utils/health.rs:112-151 | every endpoint with a result is updated exactly once, by its own result; all others are untouched |
| `HealthRounds.RoundTransitions` | src/utils/health.rs:112-151 | health, check time, attempts and deadline of an endpoint after a round, for each of the four transitions |
| `HealthRounds.RoundMetrics` | src/utils/health.rs:118-142 | a recovery clears the failure count and halves the penalty, a failed check moves the penalty four fifths of the way to that of a timeout, a passed check changes nothing |
| `HealthRounds.CommitOrderIrrelevant` | src/utils/health.rs:100-151 | every permutation of the results commits to the same state |
| `ConfigReloader.Diff` | src/config_reloader.rs:143-164 | the added, removed and modified URLs; old minus removed plus added is the new URL set, and added and removed are disjoint |
| `ConfigReloader.ModifiedExactly` | src/config_reloader.rs:151-162 | modified are exactly the common URLs whose rate, burst or weight changed |
| `ConfigInForce.UnmodifiedIff` | src/config_reloader.rs:151-162 | a common URL is not reported as modified if and only if its record has the rate, the burst and the weight of its entry |
| `ConfigReloader.PlanEndpoints` | src/config_reloader.rs:175-222 | common endpoints are cloned with new limits and weight, added ones start fresh with their own metrics object |
| `ConfigReloader.LimiterFor` | src/config_reloader.rs:188-217 | an unchanged limit keeps the limiter object there is, anything else gets a new full one |
| `ConfigReloader.PlanLimiters` | src/config_reloader.rs:168-223 | the new limiter index, entry by entry |
| `ConfigReloader.BuildPlan` | src/config_reloader.rs:168-223 | the snapshot phase computes a plan and changes nothing but allocations |
| `ConfigReloader.CommitPlan` | src/config_reloader.rs:225-233 | the final writes replace endpoints, limiters and settings and nothing else |
| `ConfigReloader.RebuildClient` | src/config_reloader.rs:117-141 | the client settings become the new ones; rebuilt exactly if one of the four differs |
| `ConfigReloader.Reload` | src/config_reloader.rs:86-265 | on success the state and the reported changes are those of the plan; on failure nothing changes |
| `ConfigInForce.ReloadInstalls` | src/config_reloader.rs:86-265 | after a reload every setting is the one of that name in the configuration and the endpoints are as listed; added ones start fresh, and limiters of added or changed limits are full |
| `ConfigInForce.ReloadReports` | src/config_reloader.rs:147-252 | the report of a reload names exactly the URLs that have come and gone, and tells whether the client has been replaced |
| `ReloadRuns.WrittenInOrder` | src/config_reloader.rs:228-233 | which settings are the new ones after each of the six writes |
| `Invariants.ServingFrame` | src/balancer.rs:171-233 | no step outside a reload changes URLs, limits, weights, metrics identities, the limiter index or settings |
| `Invariants.StepKeepsInv` | src/config_reloader.rs:168-233 | every step of every interleaving keeps the invariant: distinct URLs and metrics, attempts zero if and only if no deadline, unhealthy implies an attempt, limiter index and limits as configured, pending plan aligned with the state |
| `StepEffects.ServingRecord` | src/utils/health.rs:112-151 | what each step makes of one endpoint's record |
| `StepEffects.ServingMetrics` | src/endpoint.rs:63-88 | a step changes an endpoint's metrics by exactly the updates addressed to its URL |
| `CooldownRuns.TriggerGuards` | src/utils/cooldown.rs:24-34 | a trigger sets the deadline to now plus the backoff of the incremented attempts, even when a health round combines a base it has read before a reload with a newer maximum |
| `CooldownRuns.CooldownExclusion` | src/strategy.rs:42-43 | after a trigger no request is routed to the endpoint before its deadline, which never moves earlier than that, in every run without recovery, removal, a 64th attempt, the commit of an older snapshot, or a further trigger with a shorter backoff |
| `StaleSnapshots.StaleCommitRestores` | src/config_reloader.rs:180-226 | whatever is served between snapshot and commit, the commit leaves the health and the cooldown there were at the snapshot |
| `StaleSnapshots.StaleCommitKeepsOutIff` | src/config_reloader.rs:180-226 | after the commit the endpoint stays out until a deadline if and only if it was unhealthy, or in cooldown that long, at the snapshot |
| `StaleSnapshots.TriggerUndoneIff` | src/config_reloader.rs:180-226 | a trigger between snapshot and commit holds up to the commit, which lets requests through before its deadline if and only if the endpoint was healthy and not in cooldown that long at the snapshot |
| `StaleSnapshots.TriggerUndone` | src/config_reloader.rs:180-226 | snapshot, 429, commit: out before the commit and available behind it at the same moment |
| `StaleSnapshots.UndoneIsRouted` | src/strategy.rs:42-43 | and the next request that only this endpoint could take is routed to it, at the moment of the 429 |
| `CooldownRuns.TriggerFailsIff` | src/utils/cooldown.rs:24-34 | a trigger leaves a healthy endpoint available if and only if 63 attempts are already counted or a setting is zero |
| `CooldownRuns.MarksFailIff` | src/balancer.rs:200-214 | after a run of 429 answers a healthy endpoint is available at once if and only if they bring its attempts to 64 or a setting is zero |
| `CooldownRuns.AttemptsCountTriggers` | src/utils/cooldown.rs:25 | with atomic reloads the attempts equal the triggers since creation or the last recovery, capped at the u32 maximum |
| `CooldownRuns.BurstCountsOnce` | src/balancer.rs:216-233 | a burst of network failures of any length counts as at most one trigger |
| `MetricsRuns.NoUpdateLost` | src/config_reloader.rs:180-186 | for every interleaving with reloads, of updates as a whole or operation by operation, every field of the metrics of a configured URL is the fold of all operations on it since its creation |
| `LimiterRuns.IndexAgrees` | src/config_reloader.rs:168-227 | outside the two writes of a reload the limiter index is exactly the endpoint list with matching capacity and period |
| `LimiterRuns.OnlyAddedLackLimiter` | src/config_reloader.rs:226-227 | between the two writes exactly the added endpoints lack a limiter |
| `LimiterRuns.AddedEndpointUnlimited` | src/config_reloader.rs:226-227 | in that window an added endpoint grants every batch that fits a u32, and nothing is charged for it |
| `LimiterRuns.BucketAfterStep` | src/strategy.rs:119-127 | only requests routed to a URL take tokens from its limiter, as many as granted |
| `LimiterRuns.GrantsServed` | src/config_reloader.rs:188-197 | all grants of a run are served by the one bucket it started with, across any number of reloads that keep the limits |
| `LimiterRuns.RateBound` | src/config_reloader.rs:188-197 | in any window of any run with any reloads in between, a URL with unchanged limits gets at most burst tokens plus rate per second, within 0.01 percent |
| `SelectionRuns.LeaderWins` | src/strategy.rs:76-100 | a usable leader of its weight loses only to heavier endpoints |
| `SelectionRuns.SelectionMakesLeader` | src/balancer.rs:171-188 | in a tier that ignores cost a selection stamped later than the others of its weight makes a leader |
| `SelectionRuns.SelectionSticks` | src/balancer.rs:171-188 | once leading in tier 1 or 3, and while usable, an endpoint keeps every request that no heavier endpoint takes |
| `SelectionRuns.RivalSelectedIff` | src/strategy.rs:64-103 | beside a leader somebody of the same or lower weight is selected if and only if the leader is not usable, nobody heavier is, and somebody of the same or lower weight is |
| `ReloadRuns.CommonEndpointsKeepState` | src/config_reloader.rs:180-186 | a common endpoint keeps health, cooldown, attempts, last check and metrics object; limits and weight become the new ones |
| `ReloadRuns.LimiterKeptIff` | src/config_reloader.rs:188-197 | a common endpoint keeps its limiter object if and only if its limits are unchanged |
| `ReloadRuns.UninterruptedReload` | src/config_reloader.rs:225-233 | the separate steps of a reload, done without interruption, amount to what the reload method promises |
| `ReloadRuns.ReloadConfigures` | src/config_reloader.rs:175-222 | every plan lists the endpoints as configured |
| `SecondReload.RunInstalls` | src/config_reloader.rs:168-233 | a reload keeps its configuration through every interleaving until it is finished, and afterwards it stays in force until another reload |
| `ReloadRuns.SameConfigChangesNothing` | src/config_reloader.rs:143-223 | a snapshot of the configured list plans the records and limiter objects there are; only a client difference can be reported |
| `SecondReload.SecondReloadChangesNothing` | src/config_reloader.rs:86-265 | a second reload of the same finalized configuration, after a first one in any interleaving and any run, reports no endpoint change and no client rebuild, and changes no record, limiter or setting |
| `ErrorScan.FindKey` | src/forwarder.rs:23-24 | finds the first occurrence of the key, if any |
| `ErrorScan.ResponseHasError` | src/forwarder.rs:22-36 | flags exactly if what follows the first key and any whitespace is not `null`; no index is out of bounds |
| `ErrorScan.WhitespaceSkippedIff` | src/forwarder.rs:26-29 | between key and `null` exactly eight characters below 256 are skipped |
| `Json.QuotesAreEscaped` | src/forwarder.rs:19-21 | in a string escaped per section 7 of RFC 8259 every quote follows a backslash |
| `Json.DecodeEscape` | src/forwarder.rs:19-21 | decoding an escaped string, per section 7 of RFC 8259, gives the string back |
| `JsonScan.KeyInLiteral` | src/forwarder.rs:23-24 | in a string literal the key starts exactly where the literal ends in it with a colon right behind |
| `JsonScan.TokensFindKey` | src/forwarder.rs:23-24 | the first occurrence of the key in the bytes is the first such literal among the tokens |
| `JsonScan.FlaggedIff` | src/forwarder.rs:19-36 | every JSON text, however laid out and escaped, is flagged if and only if its first keyed member, in text order and at any depth, has a value other than `null` |
| `JsonScan.ScanReportsIff` | src/forwarder.rs:19-36 | the scan reports a top-level member, for every value it may have, if and only if its name ends in the key with the colon right behind and nothing keyed precedes it |
| `JsonScan.ErrorReportedIff` | src/forwarder.rs:19-36 | a top-level member whose decoded name is `error` is reported if and only if it is spelled without escapes, has no whitespace before the colon, and nothing keyed precedes it |
| `JsonScan.BatchFlaggedIff` | src/forwarder.rs:19-36 | a batch is flagged if and only if the first of its items that holds a keyed member is |
| `JsonScan.NullHidesLaterErrors` | src/forwarder.rs:22-36 | a `null` behind the first key of a batch hides every error in later items |
| `JsonScan.ResultDecidesIff` | src/forwarder.rs:19-36 | a response whose other members hold nothing keyed is flagged if and only if the first keyed member inside its result is not `null` |
| `JsonScan.StringResultNeverFlagged` | src/forwarder.rs:19-36 | such a response is never flagged for the contents of a string result |
| `JsonScan.NestedErrorIsFlagged` | src/forwarder.rs:22-36 | instance: `error` nested in a result |
| `JsonScan.SpacedColonIsMissed` | src/forwarder.rs:22-36 | instance: a space before the colon |
| `JsonScan.QuotedNameIsFlagged` | src/forwarder.rs:22-36 | instance: a name other than `error` that ends in an escaped quote and `error` |
| `JsonScan.EscapedSpellingIsMissed` | src/forwarder.rs:22-36 | instance: a name that decodes to `error` but is spelled with an escape |
| `Forwarder.EveryExitCountsOnce` | src/forwarder.rs:75-172 | every exit increments exactly one outcome counter; which responses count as success, throttle, blame, and how metrics classify them |
| `Forwarder.RequestLeaves` | src/forwarder.rs:71-172 | what each kind of answer does to the metrics (penalty samples of 30, 20, 15, 10 and 5 seconds; the latency and the penalty of a success) and to the record of its endpoint, and that nothing else changes |
| `Forwarder.RemovedEndpointIsLeft` | src/forwarder.rs:71-172 | a request to a URL that is no longer configured leaves the balancer as it is |
| `Forwarder.ForwardIsRun` | src/forwarder.rs:47-174 | forwarding is a run of the system, so the theorems on runs cover it |
| `Forwarder.Settle` | src/forwarder.rs:123-174 | marking, counting and reply for every response |
| `Forwarder.ForwardRequest` | src/forwarder.rs:47-174 | one request from start to end: total, metrics, marking, one outcome counter, reply |
| `Accounting.EventKeepsBalance` | src/config_reloader.rs:48-58 | every event keeps the balance of every URL |
| `Accounting.OutcomeIsCounted` | src/forwarder.rs:165-169 | an undisturbed count raises the counter of its outcome, and no other, by one |
| `Accounting.RequestsConserved` | src/forwarder.rs:56-172 | over every interleaving, per URL: arrived = succeeded + failed + discarded by reloads + abandoned by clients + in flight; a counter may be deleted between being looked up and being incremented |
| `Accounting.TotalForwards` | src/forwarder.rs:56-172 | without cancelled handlers the total is succeeded + failed + discarded + in flight |
| `Locks.ProgramsOrdered` | src/config_reloader.rs:117-241 | every operation but the status report acquires its locks in ascending order |
| `Locks.Progress` | src/balancer.rs:172-233 | among ordered operations a state in which nothing can step has finished everything, although readers queue behind waiting writers |
| `Locks.RunsEnd` | src/balancer.rs:172-233 | a run is never longer than the work there is |
| `Locks.RunsKeepExclusion` | src/balancer.rs:200-233 | a write guard excludes every other guard of its lock in every run |
| `Deadlock.JamReachable` | src/balancer.rs:305-331 | a status report and any operation that writes the endpoints can reach a state in which each waits for the other |
| `Deadlock.JamLasts` | src/balancer.rs:305-331 | and no continuation of the run gets them out |
| `Deadlock.DeadlockFreeIff` | src/balancer.rs:172-331 | any mix of any number of operations always runs to its end if and only if it contains no status report or no operation that writes the endpoints |
| `LockUse.JammersByCode` | src/balancer.rs:172-331 | the operations that write-lock the endpoints, and the one that locks them inside a scope that holds them, read off their code |
| `LockUse.DeadlockFreeByCode` | src/balancer.rs:172-331 | a mix always runs to its end if and only if no code in it locks the endpoints twice, or none write-locks them |
| `Deadlock.EveryRunIsFinite` | src/balancer.rs:172-331 | and no run goes on for ever |

## Left out

- HTTP, TOML parsing, command line, signal handling, shutdown and logging: a parsed configuration and a response are inputs.
- Prometheus metrics other than the request counters, and the gauge values.
- `get_status` and `get_endpoint_priority_stats` as reports; only their lock operations are modelled.
- IEEE 754 rounding and NaN: averages use exact real arithmetic with halves rounded away from zero.
- `Instant` overflow for extremely long cooldowns, and the panics of `2u64.pow` and `secs * 1000` in debug builds.
- Two reloads at the same time: the code does not serialise them, and the limiter index needs one at a time.
- Ticker timing of the health loop and the gauge updater: a health commit may come at any time.
- Non-ASCII case folding in URLs: the scheme comparison folds ASCII letters only, which is all that can match.
- `Settings` and `Client` are records in the model, while each of their fields has a lock of its own in the code; the writes at the end of a reload are separate steps all the same, those of the client are one.
- Finding the key, and the exits of `forward_request`, are methods of their own here, while the source has them inline.
- RateLimiter.DirectRateLimiter.CheckN: states the assumed contract of the limiter library, whose code is not part of this model.
- Balancer.LoadBalancer.GetNextEndpoint: one selection is one step; interleavings of two selections between their limiter checks are not modelled.
- CooldownRuns.AttemptsCountTriggers: assumes that a snapshot is committed before anything else happens; otherwise a stale commit restores an older count.
- Strategy.ComparatorIsTotalPreorder: keys are fixed while a list is sorted; the source reads the atomics again at every comparison, and the metrics block of a concurrent request, which is a read scope too, may change a cost in between.
- The access keys at the end of the first three default URLs: the constants end before them.
