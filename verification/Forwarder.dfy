/** `forward_request` of `src/forwarder.rs`: what one response does to the balancer and to the request counters. */
module Forwarder {
  import opened Prelude
  import opened Endpoint
  import opened State
  import opened Invariants
  import opened Balancer
  import opened ErrorScan
  import Cooldown
  import Smoothing

  /** What comes back from the upstream endpoint. A body of `None` could not be read. */
  datatype Upstream =
    | TimedOut
    | Unreachable
    | Responded(status: nat, body: Option<seq<u8>>)

  const TOO_MANY_REQUESTS: nat := 429

  predicate IsSuccess(status: nat) {
    200 <= status < 300
  }

  /** How the metrics classify a response. A timeout is charged the whole client timeout. */
  function OutcomeOf(up: Upstream, elapsedMs: u64, timeoutSecs: u64): RequestOutcome {
    match up
    case TimedOut => Failure(Timeout, Millis(timeoutSecs))
    case Unreachable => Failure(ConnectionError, elapsedMs)
    case Responded(status, _) =>
      if IsSuccess(status) then Success(elapsedMs)
      else if status == TOO_MANY_REQUESTS then Failure(RateLimit, elapsedMs)
      else if 500 <= status < 600 then Failure(Http5xx, elapsedMs)
      else if 400 <= status < 500 then Failure(Http4xx, elapsedMs)
      else Failure(ConnectionError, elapsedMs)
  }

  /** The separate actions of a handler on shared state; between two of them anything may happen. */
  datatype Effect =
    | Measure(outcome: RequestOutcome)
    | Blame
    | Throttle
    | CountFailed
    | CountSucceeded

  /** The actions of the metrics block and everything after it, in program order. */
  ghost function Effects(up: Upstream, elapsedMs: u64, timeoutSecs: u64): seq<Effect> {
    [Measure(OutcomeOf(up, elapsedMs, timeoutSecs))] + Aftermath(up)
  }

  ghost function Aftermath(up: Upstream): seq<Effect> {
    match up
    case TimedOut => [Blame, CountFailed]
    case Unreachable => [Blame, CountFailed]
    case Responded(status, body) =>
      if status == TOO_MANY_REQUESTS then [CountFailed, Throttle]
      else if !IsSuccess(status) || body.None? then [Blame, CountFailed]
      else if Flagged(body.value) then [CountFailed]
      else [CountSucceeded]
  }

  predicate IsCount(effect: Effect) {
    effect == CountFailed || effect == CountSucceeded
  }

  function Counts(effects: seq<Effect>): nat {
    if effects == [] then 0 else (if IsCount(effects[0]) then 1 else 0) + Counts(effects[1..])
  }

  /**
   * Every exit increments exactly one outcome counter. The endpoint is blamed for every non-success status but 429,
   * for network errors and timeouts, and for a body that cannot be read; a JSON-RPC error in a readable success
   * response fails the request but does not blame the endpoint.
   */
  lemma EveryExitCountsOnce(up: Upstream, elapsedMs: u64, timeoutSecs: u64)
    ensures var effects := Effects(up, elapsedMs, timeoutSecs);
      && Counts(effects) == 1
      && (CountSucceeded in effects <==>
            up.Responded? && IsSuccess(up.status) && up.body.Some? && !Flagged(up.body.value))
      && (Throttle in effects <==> up.Responded? && up.status == TOO_MANY_REQUESTS)
      && (Blame in effects <==> Throttle !in effects && !(up.Responded? && IsSuccess(up.status) && up.body.Some?))
      && effects[0].Measure?
      && (effects[0].outcome.Success? <==> up.Responded? && IsSuccess(up.status))
  {
    var effects := Effects(up, elapsedMs, timeoutSecs);
    assert effects[1..] == Aftermath(up);
    assert [CountFailed, Throttle][1..] == [Throttle];
    assert [Blame, CountFailed][1..] == [CountFailed];
  }

  // ---- What a request leaves behind ----

  /** The penalty sample of an answer that is not a success: at least as long as it took. */
  function PenaltySample(up: Upstream, elapsedMs: u64, timeoutSecs: u64): nat
    requires up.Responded? ==> !(200 <= up.status < 300)
  {
    match up
    case TimedOut => Max(30_000, timeoutSecs * 1000 % 0x1_0000_0000_0000_0000)
    case Unreachable => Max(20_000, elapsedMs)
    case Responded(status, _) =>
      if status == 429 then Max(10_000, elapsedMs)
      else if 400 <= status <= 499 then Max(5_000, elapsedMs)
      else if 500 <= status <= 599 then Max(15_000, elapsedMs)
      else Max(20_000, elapsedMs)
  }

  /** What a request does to the metrics `m` of its endpoint. */
  ghost predicate Measured(m: Metrics, after: Metrics, up: Upstream, elapsedMs: u64, timeoutSecs: u64, alpha: Factor) {
    && after.lastSelected == m.lastSelected
    && if up.Responded? && 200 <= up.status < 300 then
         var v := m.emaLatencyMs as real;
         && -0.5 <= after.emaLatencyMs as real - (v + alpha * (elapsedMs as real - v)) <= 0.5
         && after.emaErrorPenaltyMs == (m.emaErrorPenaltyMs + 1) / 2
         && after.consecutiveFailures == 0
       else
         var q := PenaltySample(up, elapsedMs, timeoutSecs);
         && after.emaLatencyMs == m.emaLatencyMs
         && Smoothing.Distance(after.emaErrorPenaltyMs, q) == (Smoothing.Distance(m.emaErrorPenaltyMs, q) + 2) / 5
         && after.consecutiveFailures == (m.consecutiveFailures + 1) % 0x1_0000_0000
  }

  lemma OutcomeMeasures(m: Metrics, up: Upstream, elapsedMs: u64, timeoutSecs: u64, alpha: Factor)
    ensures Measured(m, Updated(m, OutcomeOf(up, elapsedMs, timeoutSecs), alpha), up, elapsedMs, timeoutSecs, alpha)
  {
    match OutcomeOf(up, elapsedMs, timeoutSecs)
    case Success(latencyMs) => Smoothing.SuccessSmooths(m, latencyMs, alpha);
    case Failure(kind, latencyMs) => Smoothing.AttackContracts(m.emaErrorPenaltyMs, CalculatePenalty(kind, latencyMs));
  }

  /** In cooldown for `min(base * 2^attempts, max)` seconds, one attempt later; from the 64th on for no time at all. */
  ghost predicate PutInCooldown(c: Core, ep: RpcEndpoint, after: RpcEndpoint, now: nat) {
    && after.cooldownAttempts == Min(ep.cooldownAttempts + 1, 0xFFFF_FFFF)
    && after.lastCheck == now
    && var secs := if after.cooldownAttempts >= 64 then 0
                   else Min(c.settings.baseCooldownSecs * Pow2(after.cooldownAttempts), c.settings.maxCooldownSecs);
    after.cooldownUntil == Some(now + secs * 1_000_000_000)
  }

  lemma CoolingPutsInCooldown(c: Core, ep: RpcEndpoint, now: nat)
    ensures PutInCooldown(c, ep, Cooling(c, ep, now), now)
  {
    var base, max := c.settings.baseCooldownSecs, c.settings.maxCooldownSecs;
    var attempts := Cooldown.SaturatingInc(ep.cooldownAttempts);
    if attempts < 64 {
      Cooldown.BackoffExact(base, max, attempts);
    } else {
      Cooldown.BackoffCollapses(base, max, attempts);
    }
  }

  /** What a request does to the record `ep` of its endpoint. */
  ghost predicate Settled(c: Core, ep: RpcEndpoint, after: RpcEndpoint, up: Upstream, now: nat) {
    && after == ep.(healthy := after.healthy, lastCheck := after.lastCheck, cooldownUntil := after.cooldownUntil,
                    cooldownAttempts := after.cooldownAttempts)
    && if up.Responded? && up.status == 429 then
         after.healthy == ep.healthy && PutInCooldown(c, ep, after, now)
       else if up.Responded? && 200 <= up.status < 300 && up.body.Some? then
         after == ep
       else if ep.healthy then
         !after.healthy && PutInCooldown(c, ep, after, now)
       else
         after == ep
  }

  /** What one request does to the balancer: to the metrics and the record of its endpoint, and to nothing else. */
  lemma {:induction false} RequestLeaves(c: Core, url: string, up: Upstream, elapsedMs: u64, timeoutSecs: u64,
                                         now: nat, i: nat)
    requires Closed(c) && i < |c.endpoints| && Find(c.endpoints, url) == Some(i)
    ensures var r, m := Applied(c, url, Effects(up, elapsedMs, timeoutSecs), now), c.endpoints[i].metrics;
      && |r.endpoints| == |c.endpoints| && r.metrics.Keys == c.metrics.Keys
      && Measured(c.metrics[m], r.metrics[m], up, elapsedMs, timeoutSecs, c.settings.smoothing)
      && Settled(c, c.endpoints[i], r.endpoints[i], up, now)
      && r == c.(endpoints := c.endpoints[i := r.endpoints[i]], metrics := c.metrics[m := r.metrics[m]])
  {
    MeasureFirst(c, url, up, elapsedMs, timeoutSecs, now);
    OutcomeMeasures(c.metrics[c.endpoints[i].metrics], up, elapsedMs, timeoutSecs, c.settings.smoothing);
    AftermathSettles(Observed(c, url, OutcomeOf(up, elapsedMs, timeoutSecs)), url, up, now, i);
  }

  lemma {:induction false} AftermathSettles(c: Core, url: string, up: Upstream, now: nat, i: nat)
    requires Closed(c) && i < |c.endpoints| && Find(c.endpoints, url) == Some(i)
    ensures var r := Applied(c, url, Aftermath(up), now);
      && |r.endpoints| == |c.endpoints|
      && Settled(c, c.endpoints[i], r.endpoints[i], up, now)
      && r == c.(endpoints := c.endpoints[i := r.endpoints[i]])
  {
    AftermathMarks(c, url, up, now);
    CoolingPutsInCooldown(c, c.endpoints[i], now);
    CoolingPutsInCooldown(c, c.endpoints[i].(healthy := false), now);
  }

  /** A request to an endpoint that a reload has removed in the meantime leaves the balancer as it is. */
  lemma {:induction false} RemovedEndpointIsLeft(c: Core, url: string, up: Upstream, elapsedMs: u64, timeoutSecs: u64,
                                                 now: nat)
    requires Closed(c) && Find(c.endpoints, url) == None
    ensures Applied(c, url, Effects(up, elapsedMs, timeoutSecs), now) == c
  {
    MeasureFirst(c, url, up, elapsedMs, timeoutSecs, now);
    AftermathMarks(c, url, up, now);
  }

  // ---- The actions as steps of the balancer ----

  function AppliedOne(c: Core, url: string, effect: Effect, now: nat): (r: Core)
    requires Closed(c)
    ensures Closed(r)
  {
    match effect
    case Measure(outcome) => Observed(c, url, outcome)
    case Blame => UnhealthyAt(c, url, now)
    case Throttle => RateLimitedAt(c, url, now)
    case _ => c
  }

  function Applied(c: Core, url: string, effects: seq<Effect>, now: nat): (r: Core)
    requires Closed(c)
    ensures Closed(r)
    decreases |effects|
  {
    if effects == [] then c else Applied(AppliedOne(c, url, effects[0], now), url, effects[1..], now)
  }

  function StepOf(url: string, effect: Effect, now: nat): Option<Step> {
    match effect
    case Measure(outcome) => Some(Step.Observe(url, outcome))
    case Blame => Some(Step.MarkUnhealthy(url, now))
    case Throttle => Some(Step.MarkRateLimited(url, now))
    case _ => None
  }

  function StepsOf(url: string, effects: seq<Effect>, now: nat): seq<Step> {
    if effects == [] then []
    else
      var step := StepOf(url, effects[0], now);
      (if step.Some? then [step.value] else []) + StepsOf(url, effects[1..], now)
  }

  /** Every action on the balancer is a step of the system. */
  lemma EffectIsStep(s: System, url: string, effect: Effect, now: nat)
    requires Inv(s) && s.clock <= now
    ensures match StepOf(url, effect, now)
      case None => AppliedOne(s.core, url, effect, now) == s.core
      case Some(step) =>
        && Enabled(s, step) && Inv(Next(s, step)) && Next(s, step).clock <= now
        && Next(s, step).core == AppliedOne(s.core, url, effect, now)
  {
    var step := StepOf(url, effect, now);
    if step.Some? {
      StepKeepsInv(s, step.value);
    }
  }

  /** Forwarding a request is a run of the system, so everything proved about runs covers it. */
  lemma {:induction false} ForwardIsRun(s: System, url: string, effects: seq<Effect>, now: nat)
    requires Inv(s) && s.clock <= now
    ensures Run(s, StepsOf(url, effects, now))
    ensures Exec(s, StepsOf(url, effects, now)).core == Applied(s.core, url, effects, now)
    decreases |effects|
  {
    if effects != [] {
      var step, steps := StepOf(url, effects[0], now), StepsOf(url, effects, now);
      var rest := StepsOf(url, effects[1..], now);
      EffectIsStep(s, url, effects[0], now);
      if step.Some? {
        assert steps[0] == step.value && steps[1..] == rest;
        ForwardIsRun(Next(s, step.value), url, effects[1..], now);
      } else {
        assert steps == rest;
        ForwardIsRun(s, url, effects[1..], now);
      }
    }
  }

  // ---- The handler itself ----

  /** The request counters that survive a handler: a total, and one outcome counter per URL. */
  class RequestCounters {
    var total: nat
    var succeeded: multiset<string>
    var failed: multiset<string>

    constructor ()
      ensures total == 0 && succeeded == multiset{} && failed == multiset{}
    {
      total, succeeded, failed := 0, multiset{}, multiset{};
    }
  }

  datatype Reply = Body(bytes: seq<u8>) | RateLimitedReply | UpstreamErrorReply

  /** The reply agrees with what was counted and marked. */
  ghost predicate Answers(reply: Reply, up: Upstream) {
    match reply
    case Body(bytes) => up.Responded? && IsSuccess(up.status) && up.body == Some(bytes)
    case RateLimitedReply => up.Responded? && up.status == TOO_MANY_REQUESTS
    case UpstreamErrorReply =>
      up.Responded? ==> up.status != TOO_MANY_REQUESTS && (IsSuccess(up.status) ==> up.body.None?)
  }

  /** The counters after a handler has counted `effects` for `url`. */
  ghost predicate CountedAs(counters: RequestCounters, url: string, effects: seq<Effect>,
                            succeeded: multiset<string>, failed: multiset<string>)
    reads counters
  {
    && counters.succeeded == succeeded + (if CountSucceeded in effects then multiset{url} else multiset{})
    && counters.failed == failed + (if CountFailed in effects then multiset{url} else multiset{})
  }

  lemma {:induction false} AppliedTwo(c: Core, url: string, first: Effect, second: Effect, now: nat)
    requires Closed(c)
    ensures Applied(c, url, [first], now) == AppliedOne(c, url, first, now)
    ensures Applied(c, url, [first, second], now) == AppliedOne(AppliedOne(c, url, first, now), url, second, now)
  {
    assert [first, second][1..] == [second];
    assert [first][1..] == [] && [second][1..] == [];
    var c' := AppliedOne(c, url, first, now);
    assert Applied(c', url, [second], now) == AppliedOne(c', url, second, now);
  }

  /** The aftermath marks the endpoint at most once. */
  lemma {:induction false} AftermathMarks(c: Core, url: string, up: Upstream, now: nat)
    requires Closed(c)
    ensures Applied(c, url, Aftermath(up), now) ==
      if up.Responded? && up.status == TOO_MANY_REQUESTS then RateLimitedAt(c, url, now)
      else if up.Responded? && IsSuccess(up.status) && up.body.Some? then c
      else UnhealthyAt(c, url, now)
  {
    AppliedTwo(c, url, Blame, CountFailed, now);
    AppliedTwo(c, url, CountFailed, Throttle, now);
    AppliedTwo(c, url, CountSucceeded, CountFailed, now);
  }

  /** The metrics block comes first and counts nothing. */
  lemma {:induction false} MeasureFirst(c: Core, url: string, up: Upstream, elapsedMs: u64, timeoutSecs: u64, now: nat)
    requires Closed(c)
    ensures Applied(c, url, Effects(up, elapsedMs, timeoutSecs), now)
         == Applied(Observed(c, url, OutcomeOf(up, elapsedMs, timeoutSecs)), url, Aftermath(up), now)
    ensures CountSucceeded in Effects(up, elapsedMs, timeoutSecs) <==> CountSucceeded in Aftermath(up)
    ensures CountFailed in Effects(up, elapsedMs, timeoutSecs) <==> CountFailed in Aftermath(up)
  {
    assert Effects(up, elapsedMs, timeoutSecs)[1..] == Aftermath(up);
  }

  /** The body decides which counter a readable success response goes to. */
  method Conclude(counters: RequestCounters, url: string, body: seq<u8>)
    modifies counters`succeeded, counters`failed
    ensures CountedAs(counters, url, [if Flagged(body) then CountFailed else CountSucceeded],
                      old(counters.succeeded), old(counters.failed))
  {
    var flagged := ResponseHasError(body);
    if flagged {
      counters.failed := counters.failed + multiset{url};
    } else {
      counters.succeeded := counters.succeeded + multiset{url};
    }
  }

  /** The common exit of network errors, bad statuses and unreadable bodies. */
  method Fail(balancer: LoadBalancer, counters: RequestCounters, url: string, now: nat) returns (reply: Reply)
    requires balancer.Valid()
    modifies balancer`endpoints, counters`failed
    ensures balancer.Valid() && balancer.Abs() == UnhealthyAt(old(balancer.Abs()), url, now)
    ensures counters.failed == old(counters.failed) + multiset{url}
    ensures reply == UpstreamErrorReply
  {
    balancer.MarkUnhealthy(url, now);
    counters.failed := counters.failed + multiset{url};
    reply := UpstreamErrorReply;
  }

  /** The exit for a 429. */
  method Defer(balancer: LoadBalancer, counters: RequestCounters, url: string, now: nat) returns (reply: Reply)
    requires balancer.Valid()
    modifies balancer`endpoints, counters`failed
    ensures balancer.Valid() && balancer.Abs() == RateLimitedAt(old(balancer.Abs()), url, now)
    ensures counters.failed == old(counters.failed) + multiset{url}
    ensures reply == RateLimitedReply
  {
    counters.failed := counters.failed + multiset{url};
    balancer.MarkRateLimited(url, now);
    reply := RateLimitedReply;
  }

  /** Everything after the metrics block, when nothing interleaves. */
  method Settle(balancer: LoadBalancer, counters: RequestCounters, url: string, up: Upstream, now: nat)
    returns (reply: Reply)
    requires balancer.Valid()
    modifies balancer`endpoints, counters`succeeded, counters`failed
    ensures balancer.Valid() && Answers(reply, up)
    ensures balancer.Abs() == Applied(old(balancer.Abs()), url, Aftermath(up), now)
    ensures CountedAs(counters, url, Aftermath(up), old(counters.succeeded), old(counters.failed))
  {
    AftermathMarks(balancer.Abs(), url, up, now);
    if !up.Responded? {
      reply := Fail(balancer, counters, url, now);
      return;
    }
    if up.status == TOO_MANY_REQUESTS {
      reply := Defer(balancer, counters, url, now);
      return;
    }
    if !IsSuccess(up.status) || up.body.None? {
      reply := Fail(balancer, counters, url, now);
      return;
    }
    Conclude(counters, url, up.body.value);
    return Body(up.body.value);
  }

  /** The total, and the metrics block. */
  method Begin(balancer: LoadBalancer, counters: RequestCounters, url: string, up: Upstream, elapsedMs: u64)
    requires balancer.Valid()
    modifies balancer.metricsObjects, counters`total
    ensures balancer.Valid()
    ensures balancer.Abs() == Observed(old(balancer.Abs()), url, OutcomeOf(up, elapsedMs, balancer.client.timeoutSecs))
    ensures counters.total == old(counters.total) + 1
  {
    counters.total := counters.total + 1;
    balancer.Observe(url, OutcomeOf(up, elapsedMs, balancer.client.timeoutSecs));
  }

  /** One request, start to end. */
  method ForwardRequest(balancer: LoadBalancer, counters: RequestCounters, url: string,
                        up: Upstream, elapsedMs: u64, now: nat)
    returns (reply: Reply)
    requires balancer.Valid()
    modifies balancer`endpoints, balancer.metricsObjects, counters
    ensures balancer.Valid() && Answers(reply, up)
    ensures balancer.Abs()
         == Applied(old(balancer.Abs()), url, Effects(up, elapsedMs, old(balancer.client.timeoutSecs)), now)
    ensures counters.total == old(counters.total) + 1
    ensures CountedAs(counters, url, Effects(up, elapsedMs, old(balancer.client.timeoutSecs)),
                      old(counters.succeeded), old(counters.failed))
  {
    MeasureFirst(balancer.Abs(), url, up, elapsedMs, balancer.client.timeoutSecs, now);
    Begin(balancer, counters, url, up, elapsedMs);
    reply := Settle(balancer, counters, url, up, now);
  }
}
