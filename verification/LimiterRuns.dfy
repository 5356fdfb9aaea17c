/** Rate limits over whole runs, across any number of interleaved reloads. */
module LimiterRuns {
  import opened Prelude
  import opened Endpoint
  import opened RateLimiter
  import opened State
  import opened Invariants
  import opened StepEffects
  import Config

  // ---- The limiter index ----

  /** Outside the two writes of a reload the limiter index is exactly the endpoint list, with matching limits. */
  lemma {:induction false} IndexAgrees(s: System, steps: seq<Step>)
    requires Inv(s) && Run(s, steps)
    ensures var t := Exec(s, steps);
      !t.phase.EndpointsWritten? ==> Indexed(t.core, t.core.endpoints, t.core.limiters)
  {
  }

  lemma {:induction false} ServingRunKeepsIndex(s: System, steps: seq<Step>)
    requires Inv(s) && Run(s, steps) && AllServing(steps)
    ensures Exec(s, steps).core.limiters == s.core.limiters
    ensures Urls(Exec(s, steps).core.endpoints) == Urls(s.core.endpoints)
    decreases |steps|
  {
    if steps != [] {
      StepKeepsInv(s, steps[0]);
      ServingFrame(s, steps[0]);
      SameUrls(s.core.endpoints, NextCore(s, steps[0]).endpoints);
      assert AllServing(steps[1..]);
      ServingRunKeepsIndex(Next(s, steps[0]), steps[1..]);
    }
  }

  /** Between the two writes, however long that takes, exactly the endpoints the reload added lack a limiter. */
  lemma {:induction false} OnlyAddedLackLimiter(s: System, t: System, steps: seq<Step>, url: string)
    requires Inv(s) && Enabled(s, CommitEndpoints) && t == Next(s, CommitEndpoints)
    requires Inv(t) && Run(t, steps) && AllServing(steps)
    requires Present(t.core, url)
    ensures Present(Exec(t, steps).core, url)
    ensures url !in Exec(t, steps).core.limiters <==> !Present(s.core, url)
  {
    ServingRunKeepsIndex(t, steps);
  }

  /**
   * Until its limiter is written, an added endpoint has no limit: every batch that fits a `u32` is granted, for free.
   */
  lemma {:induction false} AddedEndpointUnlimited(s: System, t: System, steps: seq<Step>, i: nat, batchSize: nat,
                                                  now: nat, secs: u64)
    requires Inv(s) && Enabled(s, CommitEndpoints) && t == Next(s, CommitEndpoints)
    requires Inv(t) && Run(t, steps) && AllServing(steps)
    requires i < |Exec(t, steps).core.endpoints| && !Present(s.core, Exec(t, steps).core.endpoints[i].url)
    ensures var c := Exec(t, steps).core;
      && (View(c, batchSize, now)[i].admits <==> batchSize <= U32_MAX)
      && SelectedAt(c, i, batchSize, now, secs).buckets == c.buckets
  {
    var c := Exec(t, steps).core;
    RecordIs(c, i);
    ServingRunKeepsIndex(t, steps);
    OnlyAddedLackLimiter(s, t, steps, c.endpoints[i].url);
  }

  // ---- The rate bound ----

  /** The tokens a step takes for requests routed to `url`. */
  ghost function GrantOf(s: System, step: Step, url: string): seq<Grant>
    requires Inv(s)
  {
    if step.Select? && step.batchSize > 0 && Routed(s, step) == Some(url) then [Grant(step.batchSize, step.now)] else []
  }

  ghost function Grants(s: System, steps: seq<Step>, url: string): seq<Grant>
    requires Inv(s) && Run(s, steps)
    decreases |steps|
  {
    if steps == [] then []
    else
      StepKeepsInv(s, steps[0]);
      GrantOf(s, steps[0], url) + Grants(Next(s, steps[0]), steps[1..], url)
  }

  ghost predicate HasLimits(ep: RpcEndpoint, burst: u32, rate: u32) {
    ep.burstSize == burst && ep.rateLimitPerSec == rate
  }

  /** `url` is configured with these limits and served by limiter `l`, now and in any plan under way. */
  ghost predicate Held(s: System, url: string, l: DirectRateLimiter, burst: u32, rate: u32) {
    && Present(s.core, url)
    && url in s.core.limiters && s.core.limiters[url] == l
    && HasLimits(RecordOf(s.core, url), burst, rate)
    && match s.phase
       case Snapshotted(plan) =>
         exists j ::
           0 <= j < |plan.endpoints| && plan.endpoints[j].url == url && HasLimits(plan.endpoints[j], burst, rate)
       case EndpointsWritten(plan) => url in plan.limiters && plan.limiters[url] == l
       case _ => true
  }

  /** Every reload in the run keeps `url` with the same limits. */
  ghost predicate LimitsKept(steps: seq<Step>, url: string, burst: u32, rate: u32) {
    forall k :: 0 <= k < |steps| && steps[k].TakeSnapshot? ==> ConfiguredWith(steps[k].cfg, url, burst, rate)
  }

  ghost predicate ConfiguredWith(cfg: seq<Config.EndpointConfig>, url: string, burst: u32, rate: u32) {
    exists k :: 0 <= k < |cfg| && cfg[k].url == url && cfg[k].burstSize == burst && cfg[k].rateLimitPerSec == rate
  }

  lemma ServingKeepsHeld(s: System, step: Step, url: string, l: DirectRateLimiter, burst: u32, rate: u32)
    requires Inv(s) && Enabled(s, step) && Serving(step) && Held(s, url, l, burst, rate)
    ensures Held(Next(s, step), url, l, burst, rate)
  {
    ServingRecordOf(s, step, url);
    ServingFrame(s, step);
  }

  lemma ReloadKeepsHeld(s: System, step: Step, url: string, l: DirectRateLimiter, burst: u32, rate: u32)
    requires Inv(s) && Enabled(s, step) && !Serving(step) && Held(s, url, l, burst, rate)
    requires step.TakeSnapshot? ==> ConfiguredWith(step.cfg, url, burst, rate)
    ensures Held(Next(s, step), url, l, burst, rate)
  {
    if step.TakeSnapshot? {
      var cfg := step.cfg;
      var k :| 0 <= k < |cfg| && cfg[k].url == url && cfg[k].burstSize == burst && cfg[k].rateLimitPerSec == rate;
      var found := PlannedOrigin(s, step, k);
      assert HasLimits(step.plan.endpoints[k], burst, rate);
    } else if step.CommitEndpoints? {
      var plan := s.phase.plan;
      var j :| 0 <= j < |plan.endpoints| && plan.endpoints[j].url == url && HasLimits(plan.endpoints[j], burst, rate);
      RecordIs(NextCore(s, step), j);
      var i := Find(s.core.endpoints, url).value;
      assert KeepsLimiter(s.core, plan, i, j);
    }
  }

  /** Only requests routed to `url` take tokens from its limiter, and they take what they were granted. */
  lemma BucketAfterStep(s: System, step: Step, url: string, l: DirectRateLimiter)
    requires Inv(s) && Enabled(s, step) && url in s.core.limiters && s.core.limiters[url] == l
    ensures l in NextCore(s, step).buckets
    ensures var b, grant := s.core.buckets[l], GrantOf(s, step, url);
      && (grant != [] ==> b.Admits(grant[0].tokens, grant[0].at))
      && NextCore(s, step).buckets[l] == if grant == [] then b else AfterGrant(b, grant[0])
  {
    if step.Select? {
      var best := Best(s.core, step.batchSize, step.now);
      if best.Some? {
        assert View(s.core, step.batchSize, step.now)[best.value].admits;
      }
    } else if step.CommitHealth? {
      HealthKeepsBuckets(WithBase(s.core, step.base), step.results, step.timeoutSecs, step.now);
    }
  }

  lemma {:induction false} HealthKeepsBuckets(c: Core, results: seq<HealthResult>, timeoutSecs: u64, now: nat)
    requires Closed(c)
    ensures HealthCommitted(c, results, timeoutSecs, now).buckets == c.buckets
    decreases |results|
  {
    if results != [] {
      HealthKeepsBuckets(c, results[..|results| - 1], timeoutSecs, now);
    }
  }

  lemma StepKeepsHeld(s: System, step: Step, url: string, l: DirectRateLimiter, burst: u32, rate: u32)
    requires Inv(s) && Enabled(s, step) && Held(s, url, l, burst, rate)
    requires step.TakeSnapshot? ==> ConfiguredWith(step.cfg, url, burst, rate)
    ensures Held(Next(s, step), url, l, burst, rate)
  {
    if Serving(step) {
      ServingKeepsHeld(s, step, url, l, burst, rate);
    } else {
      ReloadKeepsHeld(s, step, url, l, burst, rate);
    }
  }

  lemma {:induction false} ServedPrepend(b: Bucket, grant: seq<Grant>, later: seq<Grant>, b': Bucket)
    requires |grant| <= 1
    requires grant != [] ==> b.Admits(grant[0].tokens, grant[0].at)
    requires b' == if grant == [] then b else AfterGrant(b, grant[0])
    requires Served(b', later)
    ensures Served(b, grant + later)
  {
    if grant == [] {
      assert grant + later == later;
    } else {
      assert (grant + later)[0] == grant[0] && (grant + later)[1..] == later;
    }
  }

  /** A run throughout which `url` keeps its limits. */
  ghost predicate HeldRun(s: System, steps: seq<Step>, url: string, l: DirectRateLimiter, burst: u32, rate: u32) {
    Inv(s) && Run(s, steps) && Held(s, url, l, burst, rate) && LimitsKept(steps, url, burst, rate)
  }

  lemma HeldRunTail(s: System, steps: seq<Step>, url: string, l: DirectRateLimiter, burst: u32, rate: u32)
    requires HeldRun(s, steps, url, l, burst, rate) && steps != []
    ensures Enabled(s, steps[0]) && HeldRun(Next(s, steps[0]), steps[1..], url, l, burst, rate)
  {
    StepKeepsInv(s, steps[0]);
    StepKeepsHeld(s, steps[0], url, l, burst, rate);
    assert forall k :: 0 <= k < |steps[1..]| ==> steps[1..][k] == steps[k + 1];
  }

  /** All grants of a run come, one after the other, from the one bucket the run started with. */
  lemma {:induction false} GrantsServed(s: System, steps: seq<Step>, url: string, l: DirectRateLimiter, burst: u32,
                                        rate: u32)
    requires HeldRun(s, steps, url, l, burst, rate)
    ensures l in s.core.buckets && Served(s.core.buckets[l], Grants(s, steps, url))
    decreases |steps|
  {
    if steps != [] {
      HeldRunTail(s, steps, url, l, burst, rate);
      var next := Next(s, steps[0]);
      GrantsServed(next, steps[1..], url, l, burst, rate);
      BucketAfterStep(s, steps[0], url, l);
      ServedPrepend(s.core.buckets[l], GrantOf(s, steps[0], url), Grants(next, steps[1..], url), next.core.buckets[l]);
    }
  }

  lemma HeldBucketFits(s: System, url: string, l: DirectRateLimiter, burst: u32, rate: u32)
    requires Inv(s) && Held(s, url, l, burst, rate)
    ensures ValidLimits(burst, rate)
    ensures var b := s.core.buckets[l];
      b.capacity == burst && b.period == PeriodNanos(burst, rate) && b.Valid() && b.last <= s.clock
  {
    var i := Find(s.core.endpoints, url).value;
    assert ValidLimits(s.core.endpoints[i].burstSize, s.core.endpoints[i].rateLimitPerSec);
  }

  lemma {:induction false} LaterStart(grants: seq<Grant>, start: nat, earlier: nat)
    requires Chronological(grants, start) && earlier <= start
    ensures Chronological(grants, earlier)
  {
  }

  lemma {:induction false} GrantsChronological(s: System, steps: seq<Step>, url: string)
    requires Inv(s) && Run(s, steps)
    ensures Chronological(Grants(s, steps, url), s.clock)
    decreases |steps|
  {
    if steps != [] {
      StepKeepsInv(s, steps[0]);
      var later, grant := Grants(Next(s, steps[0]), steps[1..], url), GrantOf(s, steps[0], url);
      GrantsChronological(Next(s, steps[0]), steps[1..], url);
      if grant == [] {
        LaterStart(later, Next(s, steps[0]).clock, s.clock);
        assert grant + later == later;
      } else {
        assert (grant + later)[1..] == later;
      }
    }
  }

  /**
   * For an endpoint that stays configured with unchanged limits: in any window of any run, with any
   * number of reloads in between, requests get at most `burst` tokens plus `rate` per second, exceeded
   * by at most 0.01 percent because the limiter's period is rounded down to nanoseconds.
   */
  lemma {:induction false} RateBound(s: System, steps: seq<Step>, url: string, l: DirectRateLimiter, burst: u32,
                                     rate: u32, from: nat, to: nat)
    requires HeldRun(s, steps, url, l, burst, rate) && from <= to
    ensures ValidLimits(burst, rate)
    ensures var tokens := TokensIn(Grants(s, steps, url), from, to);
      && tokens * PeriodNanos(burst, rate) <= burst * PeriodNanos(burst, rate) + burst * (to - from)
      && (tokens - burst) * (NANOS_PER_SEC * 10_000) <= (to - from) * rate * 10_001
  {
    GrantsServed(s, steps, url, l, burst, rate);
    HeldBucketFits(s, url, l, burst, rate);
    var b, grants := s.core.buckets[l], Grants(s, steps, url);
    GrantsChronological(s, steps, url);
    LaterStart(grants, s.clock, b.last);
    GrantedInWindow(b, grants, from, to);
    GrantedAtConfiguredRate(b, grants, from, to, burst, rate);
  }
}
