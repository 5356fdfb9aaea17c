/** What every reachable state satisfies, for every interleaving of the steps. */
module Invariants {
  import opened Prelude
  import opened Endpoint
  import opened RateLimiter
  import opened State
  import Config

  /** An endpoint has been put into cooldown at least once since it last recovered exactly when it has a deadline. */
  predicate RecordOk(ep: RpcEndpoint) {
    && (ep.cooldownAttempts == 0 <==> ep.cooldownUntil.None?)
    && (!ep.healthy ==> 1 <= ep.cooldownAttempts)
  }

  ghost predicate Sound(c: Core, eps: seq<RpcEndpoint>) {
    && DistinctUrls(eps)
    && (forall i :: 0 <= i < |eps| ==> eps[i].metrics in c.metrics)
    && (forall i, j :: 0 <= i < j < |eps| ==> eps[i].metrics != eps[j].metrics)
    && (forall i :: 0 <= i < |eps| ==> RecordOk(eps[i]))
    && (forall i :: 0 <= i < |eps| ==> ValidLimits(eps[i].burstSize, eps[i].rateLimitPerSec))
  }

  ghost predicate LimitersOk(c: Core, clock: nat, limiters: map<string, DirectRateLimiter>) {
    && (forall u :: u in limiters ==> limiters[u] in c.buckets)
    && (forall u :: u in limiters ==> c.buckets[limiters[u]].Valid() && c.buckets[limiters[u]].last <= clock)
    && (forall u, v :: u in limiters && v in limiters && u != v ==> limiters[u] != limiters[v])
  }

  predicate Fits(b: Bucket, ep: RpcEndpoint)
    requires 1 <= ep.rateLimitPerSec
  {
    b.capacity == ep.burstSize && b.period == PeriodNanos(ep.burstSize, ep.rateLimitPerSec)
  }

  /** Exactly the endpoints have a limiter, and each limiter has its endpoint's limits. */
  ghost predicate Indexed(c: Core, eps: seq<RpcEndpoint>, limiters: map<string, DirectRateLimiter>) {
    && limiters.Keys == Urls(eps)
    && (forall i :: 0 <= i < |eps| ==>
          && 1 <= eps[i].rateLimitPerSec
          && eps[i].url in limiters
          && limiters[eps[i].url] in c.buckets
          && Fits(c.buckets[limiters[eps[i].url]], eps[i]))
  }

  /**
   * A pending plan shares the metrics object, and if its limits are unchanged the limiter, of every common endpoint.
   */
  ghost predicate Aligned(c: Core, plan: Plan) {
    && (forall i, j :: 0 <= i < |c.endpoints| && 0 <= j < |plan.endpoints| ==>
          (c.endpoints[i].url == plan.endpoints[j].url <==> c.endpoints[i].metrics == plan.endpoints[j].metrics))
    && (forall i, j :: 0 <= i < |c.endpoints| && 0 <= j < |plan.endpoints| ==> KeepsLimiter(c, plan, i, j))
    && (forall j :: 0 <= j < |plan.endpoints| && plan.endpoints[j].url !in Urls(c.endpoints) ==>
          plan.endpoints[j].metrics in c.metrics
          && c.metrics[plan.endpoints[j].metrics] == InitMetrics(c.client.timeoutSecs))
  }

  ghost predicate KeepsLimiter(c: Core, plan: Plan, i: nat, j: nat)
    requires i < |c.endpoints| && j < |plan.endpoints|
  {
    var ep, new' := c.endpoints[i], plan.endpoints[j];
    ep.url == new'.url && ep.rateLimitPerSec == new'.rateLimitPerSec && ep.burstSize == new'.burstSize ==>
      ep.url in c.limiters && ep.url in plan.limiters && c.limiters[ep.url] == plan.limiters[ep.url]
  }

  ghost predicate PlanOk(c: Core, clock: nat, plan: Plan) {
    && Sound(c, plan.endpoints)
    && LimitersOk(c, clock, plan.limiters)
    && Indexed(c, plan.endpoints, plan.limiters)
    && Aligned(c, plan)
  }

  /** The invariant of the whole system. */
  ghost predicate Inv(s: System) {
    && Closed(s.core)
    && Sound(s.core, s.core.endpoints)
    && LimitersOk(s.core, s.clock, s.core.limiters)
    && match s.phase
       case Idle => Indexed(s.core, s.core.endpoints, s.core.limiters)
       case WritingSettings(_, next) => next < SETTINGS_COUNT && Indexed(s.core, s.core.endpoints, s.core.limiters)
       case Snapshotted(plan) => Indexed(s.core, s.core.endpoints, s.core.limiters) && PlanOk(s.core, s.clock, plan)
       case EndpointsWritten(plan) =>
         LimitersOk(s.core, s.clock, plan.limiters) && Indexed(s.core, s.core.endpoints, plan.limiters)
  }

  // ---- What the serving steps leave alone ----

  predicate Serving(step: Step) {
    || step.Select? || step.Observe? || step.ObserveField?
    || step.MarkRateLimited? || step.MarkUnhealthy? || step.CommitHealth?
  }

  predicate SameIdentity(a: RpcEndpoint, b: RpcEndpoint) {
    a.url == b.url && a.rateLimitPerSec == b.rateLimitPerSec && a.burstSize == b.burstSize
    && a.weight == b.weight && a.metrics == b.metrics
  }

  ghost predicate SameIdentities(eps: seq<RpcEndpoint>, eps': seq<RpcEndpoint>) {
    |eps| == |eps'| && forall i :: 0 <= i < |eps| ==> SameIdentity(eps[i], eps'[i])
  }

  ghost predicate SameBuckets(b: map<DirectRateLimiter, Bucket>, b': map<DirectRateLimiter, Bucket>, clock: nat) {
    && b'.Keys == b.Keys
    && (forall l :: l in b ==> b'[l].capacity == b[l].capacity && b'[l].period == b[l].period)
    && (forall l :: l in b && b[l].Valid() ==> b'[l].Valid())
    && (forall l :: l in b && b[l].last <= clock ==> b'[l].last <= clock)
  }

  /** Metrics objects that no endpoint uses keep their contents. */
  ghost predicate OthersKept(c: Core, c': Core) {
    && c'.metrics.Keys == c.metrics.Keys
    && (forall m :: m in c.metrics && (forall i :: 0 <= i < |c.endpoints| ==> c.endpoints[i].metrics != m)
          ==> c'.metrics[m] == c.metrics[m])
  }

  ghost predicate Frame(c: Core, c': Core, clock: nat) {
    && SameIdentities(c.endpoints, c'.endpoints)
    && c'.limiters == c.limiters
    && c'.settings == c.settings
    && c'.client == c.client
    && SameBuckets(c.buckets, c'.buckets, clock)
    && OthersKept(c, c')
  }

  ghost predicate AllRecordsOk(eps: seq<RpcEndpoint>) {
    forall i :: 0 <= i < |eps| ==> RecordOk(eps[i])
  }

  lemma SelectedFrame(c: Core, batchSize: nat, now: nat, secs: u64)
    requires Closed(c)
    ensures Frame(c, Selected(c, batchSize, now, secs), now)
    ensures Selected(c, batchSize, now, secs).endpoints == c.endpoints
  {
    var best := Best(c, batchSize, now);
    if best.Some? {
      var url := c.endpoints[best.value].url;
      if url in c.limiters && batchSize > 0 {
        assert View(c, batchSize, now)[best.value].admits;
        TakeKeepsValid(c.buckets[c.limiters[url]], batchSize, now);
      }
    }
  }

  lemma TakeKeepsValid(b: Bucket, n: nat, now: nat)
    requires b.Admits(n, now)
    ensures b.Take(n, now).Valid()
    ensures b.last <= now ==> b.Take(n, now).last == now
  {
  }

  lemma RecordFrame(c: Core, i: nat, ep: RpcEndpoint, now: nat)
    requires Closed(c) && AllRecordsOk(c.endpoints) && i < |c.endpoints|
    requires SameIdentity(c.endpoints[i], ep) && RecordOk(ep)
    ensures var r := c.(endpoints := c.endpoints[i := ep]); Frame(c, r, now) && AllRecordsOk(r.endpoints)
  {
  }

  lemma RateLimitedFrame(c: Core, url: string, now: nat)
    requires Closed(c) && AllRecordsOk(c.endpoints)
    ensures Frame(c, RateLimitedAt(c, url, now), now) && AllRecordsOk(RateLimitedAt(c, url, now).endpoints)
  {
    var found := Find(c.endpoints, url);
    if found.Some? {
      RecordFrame(c, found.value, Cooling(c, c.endpoints[found.value], now), now);
    }
  }

  lemma UnhealthyFrame(c: Core, url: string, now: nat)
    requires Closed(c) && AllRecordsOk(c.endpoints)
    ensures Frame(c, UnhealthyAt(c, url, now), now) && AllRecordsOk(UnhealthyAt(c, url, now).endpoints)
  {
    var found := Find(c.endpoints, url);
    if found.Some? && c.endpoints[found.value].healthy {
      RecordFrame(c, found.value, Cooling(c, c.endpoints[found.value].(healthy := false), now), now);
    }
  }

  lemma CheckedFrame(c: Core, url: string, ok: bool, timeoutSecs: u64, now: nat)
    requires Closed(c) && AllRecordsOk(c.endpoints)
    ensures var r := Checked(c, url, ok, timeoutSecs, now); Frame(c, r, now) && AllRecordsOk(r.endpoints)
  {
  }

  lemma FrameTransitive(a: Core, b: Core, c: Core, clock: nat)
    requires Frame(a, b, clock) && Frame(b, c, clock)
    ensures Frame(a, c, clock)
  {
    forall m | m in a.metrics && (forall i :: 0 <= i < |a.endpoints| ==> a.endpoints[i].metrics != m)
      ensures c.metrics[m] == a.metrics[m]
    {
      assert forall i :: 0 <= i < |a.endpoints| ==> SameIdentity(a.endpoints[i], b.endpoints[i]);
    }
  }

  lemma {:induction false} HealthFrame(c: Core, results: seq<HealthResult>, timeoutSecs: u64, now: nat)
    requires Closed(c) && AllRecordsOk(c.endpoints)
    ensures Frame(c, HealthCommitted(c, results, timeoutSecs, now), now)
    ensures AllRecordsOk(HealthCommitted(c, results, timeoutSecs, now).endpoints)
    decreases |results|
  {
    if results != [] {
      var front, last := results[..|results| - 1], results[|results| - 1];
      HealthFrame(c, front, timeoutSecs, now);
      var mid := HealthCommitted(c, front, timeoutSecs, now);
      CheckedFrame(mid, last.url, last.ok, timeoutSecs, now);
      FrameTransitive(c, mid, HealthCommitted(c, results, timeoutSecs, now), now);
    }
  }

  lemma {:induction false} RoundFrame(c: Core, results: seq<HealthResult>, timeoutSecs: u64, base: u64, now: nat)
    requires Closed(c) && AllRecordsOk(c.endpoints)
    ensures Frame(c, RoundCommitted(c, results, timeoutSecs, base, now), now)
    ensures AllRecordsOk(RoundCommitted(c, results, timeoutSecs, base, now).endpoints)
  {
    HealthFrame(WithBase(c, base), results, timeoutSecs, now);
  }

  /** Serving requests, marking and health commits never touch what the configuration determines. */
  lemma ServingFrame(s: System, step: Step)
    requires Closed(s.core) && AllRecordsOk(s.core.endpoints) && Enabled(s, step) && Serving(step)
    ensures Frame(s.core, NextCore(s, step), TimeOf(s, step)) && AllRecordsOk(NextCore(s, step).endpoints)
    ensures Closed(NextCore(s, step))
  {
    match step
    case Select(batchSize, now, secs) => SelectedFrame(s.core, batchSize, now, secs);
    case Observe(_, _) =>
    case ObserveField(_, _) =>
    case MarkRateLimited(url, now) => RateLimitedFrame(s.core, url, now);
    case MarkUnhealthy(url, now) => UnhealthyFrame(s.core, url, now);
    case CommitHealth(results, timeoutSecs, base, now) => RoundFrame(s.core, results, timeoutSecs, base, now);
  }

  lemma FrameKeeps(c: Core, c': Core, clock: nat, clock': nat, limiters: map<string, DirectRateLimiter>)
    requires clock <= clock' && Frame(c, c', clock')
    requires Sound(c, c.endpoints) && AllRecordsOk(c'.endpoints)
    ensures Sound(c', c'.endpoints) && Urls(c'.endpoints) == Urls(c.endpoints)
    ensures LimitersOk(c, clock, limiters) ==> LimitersOk(c', clock', limiters)
    ensures LimitersOk(c, clock, limiters) && Indexed(c, c.endpoints, limiters) ==> Indexed(c', c'.endpoints, limiters)
  {
    assert forall i :: 0 <= i < |c.endpoints| ==> SameIdentity(c.endpoints[i], c'.endpoints[i]);
    SameUrls(c.endpoints, c'.endpoints);
  }

  lemma SameUrls(eps: seq<RpcEndpoint>, eps': seq<RpcEndpoint>)
    requires SameIdentities(eps, eps')
    ensures Urls(eps) == Urls(eps')
  {
    assert forall i :: 0 <= i < |eps| ==> SameIdentity(eps[i], eps'[i]);
    forall u | u in Urls(eps)
      ensures u in Urls(eps')
    {
      var i :| 0 <= i < |eps| && eps[i].url == u;
      assert eps'[i].url == u;
    }
    forall u | u in Urls(eps')
      ensures u in Urls(eps)
    {
      var i :| 0 <= i < |eps'| && eps'[i].url == u;
      assert eps[i].url == u;
    }
  }

  lemma FrameKeepsAligned(c: Core, c': Core, clock: nat, plan: Plan)
    requires Frame(c, c', clock) && Aligned(c, plan)
    ensures Aligned(c', plan)
  {
    SameUrls(c.endpoints, c'.endpoints);
    forall i, j | 0 <= i < |c'.endpoints| && 0 <= j < |plan.endpoints|
      ensures c'.endpoints[i].url == plan.endpoints[j].url <==> c'.endpoints[i].metrics == plan.endpoints[j].metrics
      ensures KeepsLimiter(c', plan, i, j)
    {
      assert SameIdentity(c.endpoints[i], c'.endpoints[i]);
      assert KeepsLimiter(c, plan, i, j);
    }
    forall j | 0 <= j < |plan.endpoints| && plan.endpoints[j].url !in Urls(c'.endpoints)
      ensures plan.endpoints[j].metrics in c'.metrics
      ensures c'.metrics[plan.endpoints[j].metrics] == InitMetrics(c'.client.timeoutSecs)
    {
      assert forall i :: 0 <= i < |c.endpoints| ==> c.endpoints[i].url in Urls(c.endpoints);
    }
  }

  lemma FrameKeepsPlan(c: Core, c': Core, clock: nat, clock': nat, plan: Plan)
    requires clock <= clock' && Frame(c, c', clock') && PlanOk(c, clock, plan)
    ensures PlanOk(c', clock', plan)
  {
    FrameKeepsAligned(c, c', clock', plan);
  }

  lemma ServingKeepsInv(s: System, step: Step)
    requires Inv(s) && Enabled(s, step) && Serving(step)
    ensures Inv(Next(s, step))
  {
    ServingFrame(s, step);
    var c, c', now := s.core, NextCore(s, step), TimeOf(s, step);
    FrameKeeps(c, c', s.clock, now, c.limiters);
    match s.phase
    case Idle =>
    case WritingSettings(_, _) =>
    case Snapshotted(plan) => FrameKeepsPlan(c, c', s.clock, now, plan);
    case EndpointsWritten(plan) => FrameKeeps(c, c', s.clock, now, plan.limiters);
  }

  // ---- Reload ----

  ghost predicate PlanStep(s: System, step: Step) {
    && step.TakeSnapshot?
    && s.phase.Idle? && Inv(s) && Enabled(s, step)
  }

  /** Where the record of the `k`-th entry of a configuration comes from. */
  lemma PlannedOrigin(s: System, step: Step, k: nat) returns (found: Option<nat>)
    requires PlanStep(s, step) && k < |step.cfg|
    ensures step.plan.endpoints[k].url == step.cfg[k].url
    ensures found == Find(s.core.endpoints, step.cfg[k].url)
    ensures found.Some? ==> step.plan.endpoints[k] == Reconfigured(s.core.endpoints[found.value], step.cfg[k])
    ensures found.None? ==> step.plan.endpoints[k].metrics in step.newMetrics
    ensures found.None? ==> step.newMetrics[step.plan.endpoints[k].metrics] == InitMetrics(s.core.client.timeoutSecs)
    ensures RecordOk(step.plan.endpoints[k])
    ensures ValidLimits(step.plan.endpoints[k].burstSize, step.plan.endpoints[k].rateLimitPerSec)
    ensures step.plan.endpoints[k].metrics in NextCore(s, step).metrics
  {
    found := Find(s.core.endpoints, step.cfg[k].url);
    assert PlannedRecord(s.core, step.cfg[k], step.now, step.plan.endpoints[k], step.newMetrics);
    assert Config.Usable(step.cfg[k]);
  }

  lemma PlannedSound(s: System, step: Step)
    requires PlanStep(s, step)
    ensures Sound(NextCore(s, step), step.plan.endpoints)
  {
    forall i | 0 <= i < |step.plan.endpoints|
      ensures step.plan.endpoints[i].metrics in NextCore(s, step).metrics
      ensures RecordOk(step.plan.endpoints[i])
      ensures ValidLimits(step.plan.endpoints[i].burstSize, step.plan.endpoints[i].rateLimitPerSec)
    {
      var found := PlannedOrigin(s, step, i);
    }
    forall i, j | 0 <= i < j < |step.plan.endpoints|
      ensures step.plan.endpoints[i].url != step.plan.endpoints[j].url
      ensures step.plan.endpoints[i].metrics != step.plan.endpoints[j].metrics
    {
      var a := PlannedOrigin(s, step, i);
      var b := PlannedOrigin(s, step, j);
      assert step.cfg[i].url != step.cfg[j].url;
    }
  }

  /** A bucket as an endpoint with these limits may find it. */
  ghost predicate UsableBucket(b: Bucket, burst: u32, rate: u32, clock: nat)
    requires 1 <= rate
  {
    b.capacity == burst && b.period == PeriodNanos(burst, rate) && b.Valid() && b.last <= clock
  }

  lemma CurrentLimiterUsable(s: System, i: nat)
    requires Inv(s) && s.phase.Idle? && i < |s.core.endpoints|
    ensures var ep := s.core.endpoints[i];
      && ep.url in s.core.limiters && s.core.limiters[ep.url] in s.core.buckets
      && 1 <= ep.rateLimitPerSec
      && UsableBucket(s.core.buckets[s.core.limiters[ep.url]], ep.burstSize, ep.rateLimitPerSec, s.clock)
  {
    assert Indexed(s.core, s.core.endpoints, s.core.limiters);
  }

  lemma NewBucketUsable(burst: u32, rate: u32, clock: nat)
    requires 1 <= rate
    ensures UsableBucket(NewBucket(burst, PeriodNanos(burst, rate)), burst, rate, clock)
  {
    assert 0 <= burst * PeriodNanos(burst, rate);
  }

  /** The planned limiter of the `k`-th entry is there, and it has the right limits. */
  lemma PlannedLimiterOrigin(s: System, step: Step, k: nat)
    requires PlanStep(s, step) && k < |step.cfg|
    ensures var u, e, buckets := step.cfg[k].url, step.cfg[k], s.core.buckets + step.newBuckets;
      && u in step.plan.limiters && 1 <= e.rateLimitPerSec
      && step.plan.limiters[u] in buckets
      && UsableBucket(buckets[step.plan.limiters[u]], e.burstSize, e.rateLimitPerSec, s.clock)
      && (step.plan.limiters[u] !in step.newBuckets ==>
        u in s.core.limiters && s.core.limiters[u] == step.plan.limiters[u])
  {
    var e := step.cfg[k];
    assert PlannedLimiter(s.core, e, step.plan.limiters, step.newBuckets);
    assert Config.Usable(e);
    var found := Find(s.core.endpoints, e.url);
    if found.Some? && LimitsUnchanged(s.core.endpoints[found.value], e) {
      CurrentLimiterUsable(s, found.value);
    } else {
      NewBucketUsable(e.burstSize, e.rateLimitPerSec, s.clock);
    }
  }

  lemma PlannedLimitersOk(s: System, step: Step)
    requires PlanStep(s, step)
    ensures LimitersOk(NextCore(s, step), step.now, step.plan.limiters)
  {
    var limiters, c' := step.plan.limiters, NextCore(s, step);
    forall u | u in limiters
      ensures limiters[u] in c'.buckets && c'.buckets[limiters[u]].Valid() && c'.buckets[limiters[u]].last <= step.now
      ensures limiters[u] !in step.newBuckets ==> u in s.core.limiters && s.core.limiters[u] == limiters[u]
    {
      assert u in Config.Urls(step.cfg);
      var k :| 0 <= k < |step.cfg| && step.cfg[k].url == u;
      PlannedLimiterOrigin(s, step, k);
    }
    forall u, v | u in limiters && v in limiters && u != v
      ensures limiters[u] != limiters[v]
    {
      if limiters[u] !in step.newBuckets && limiters[v] !in step.newBuckets {
        assert s.core.limiters[u] != s.core.limiters[v];
      }
    }
  }

  lemma PlannedIndexedAt(s: System, step: Step, k: nat)
    requires PlanStep(s, step) && k < |step.plan.endpoints|
    ensures var ep, limiters, buckets := step.plan.endpoints[k], step.plan.limiters, NextCore(s, step).buckets;
      && ep.url == step.cfg[k].url && 1 <= ep.rateLimitPerSec
      && ep.url in limiters && limiters[ep.url] in buckets && Fits(buckets[limiters[ep.url]], ep)
  {
    var found := PlannedOrigin(s, step, k);
    PlannedLimiterOrigin(s, step, k);
  }

  lemma PlannedIndexed(s: System, step: Step)
    requires PlanStep(s, step)
    ensures Indexed(NextCore(s, step), step.plan.endpoints, step.plan.limiters)
  {
    var eps, limiters := step.plan.endpoints, step.plan.limiters;
    forall k | 0 <= k < |eps|
      ensures eps[k].url == step.cfg[k].url
      ensures 1 <= eps[k].rateLimitPerSec && eps[k].url in limiters && limiters[eps[k].url] in NextCore(s, step).buckets
      ensures Fits(NextCore(s, step).buckets[limiters[eps[k].url]], eps[k])
    {
      PlannedIndexedAt(s, step, k);
    }
    forall u | u in limiters
      ensures u in Urls(eps)
    {
      assert u in Config.Urls(step.cfg);
      var k :| 0 <= k < |step.cfg| && step.cfg[k].url == u;
      assert eps[k].url == u;
    }
  }

  /** A planned record shares the metrics object of the endpoint it came from, and of no other. */
  lemma PlannedSharesMetrics(s: System, step: Step, i: nat, j: nat)
    requires PlanStep(s, step) && i < |s.core.endpoints| && j < |step.plan.endpoints|
    ensures s.core.endpoints[i].url == step.plan.endpoints[j].url
      <==> s.core.endpoints[i].metrics == step.plan.endpoints[j].metrics
  {
    var found := PlannedOrigin(s, step, j);
    if found.Some? {
      SharesUrlAndMetrics(s.core, i, found.value);
    }
  }

  lemma SharesUrlAndMetrics(c: Core, i: nat, k: nat)
    requires Sound(c, c.endpoints) && i < |c.endpoints| && k < |c.endpoints|
    ensures c.endpoints[i].url == c.endpoints[k].url <==> i == k
    ensures c.endpoints[i].metrics == c.endpoints[k].metrics <==> i == k
  {
  }

  lemma PlannedKeepsLimiter(s: System, step: Step, i: nat, j: nat)
    requires PlanStep(s, step) && i < |s.core.endpoints| && j < |step.plan.endpoints|
    ensures KeepsLimiter(s.core, step.plan, i, j)
  {
    var found := PlannedOrigin(s, step, j);
    PlannedLimiterOrigin(s, step, j);
    assert PlannedLimiter(s.core, step.cfg[j], step.plan.limiters, step.newBuckets);
  }

  lemma PlannedMetrics(s: System, step: Step, j: nat)
    requires PlanStep(s, step) && j < |step.plan.endpoints|
    requires step.plan.endpoints[j].url !in Urls(s.core.endpoints)
    ensures var m := step.plan.endpoints[j].metrics;
      m in NextCore(s, step).metrics && NextCore(s, step).metrics[m] == InitMetrics(s.core.client.timeoutSecs)
  {
    var found := PlannedOrigin(s, step, j);
  }

  /** Alignment only looks at the endpoints, the limiter index, the client settings and the added metrics. */
  lemma AlignedAssembled(c: Core, c': Core, plan: Plan)
    requires c'.endpoints == c.endpoints && c'.limiters == c.limiters && c'.client == c.client
    requires forall i, j :: 0 <= i < |c.endpoints| && 0 <= j < |plan.endpoints| ==>
      (c.endpoints[i].url == plan.endpoints[j].url <==> c.endpoints[i].metrics == plan.endpoints[j].metrics)
    requires forall i, j :: 0 <= i < |c.endpoints| && 0 <= j < |plan.endpoints| ==> KeepsLimiter(c, plan, i, j)
    requires forall j :: 0 <= j < |plan.endpoints| && plan.endpoints[j].url !in Urls(c.endpoints) ==>
      && plan.endpoints[j].metrics in c'.metrics
      && c'.metrics[plan.endpoints[j].metrics] == InitMetrics(c.client.timeoutSecs)
    ensures Aligned(c', plan)
  {
    forall i, j | 0 <= i < |c'.endpoints| && 0 <= j < |plan.endpoints|
      ensures KeepsLimiter(c', plan, i, j)
    {
      assert KeepsLimiter(c, plan, i, j);
    }
  }

  lemma PlannedPairs(s: System, step: Step)
    requires PlanStep(s, step)
    ensures forall i, j :: 0 <= i < |s.core.endpoints| && 0 <= j < |step.plan.endpoints| ==>
      (s.core.endpoints[i].url == step.plan.endpoints[j].url
       <==> s.core.endpoints[i].metrics == step.plan.endpoints[j].metrics)
    ensures forall i, j :: 0 <= i < |s.core.endpoints| && 0 <= j < |step.plan.endpoints| ==>
      KeepsLimiter(s.core, step.plan, i, j)
  {
    forall i, j | 0 <= i < |s.core.endpoints| && 0 <= j < |step.plan.endpoints|
      ensures s.core.endpoints[i].url == step.plan.endpoints[j].url
        <==> s.core.endpoints[i].metrics == step.plan.endpoints[j].metrics
    {
      PlannedSharesMetrics(s, step, i, j);
    }
    forall i, j | 0 <= i < |s.core.endpoints| && 0 <= j < |step.plan.endpoints|
      ensures KeepsLimiter(s.core, step.plan, i, j)
    {
      PlannedKeepsLimiter(s, step, i, j);
    }
  }

  lemma PlannedAligned(s: System, step: Step)
    requires PlanStep(s, step)
    ensures Aligned(NextCore(s, step), step.plan)
  {
    PlannedPairs(s, step);
    forall j | 0 <= j < |step.plan.endpoints| && step.plan.endpoints[j].url !in Urls(s.core.endpoints)
      ensures var m := step.plan.endpoints[j].metrics;
        m in NextCore(s, step).metrics && NextCore(s, step).metrics[m] == InitMetrics(s.core.client.timeoutSecs)
    {
      PlannedMetrics(s, step, j);
    }
    AlignedAssembled(s.core, NextCore(s, step), step.plan);
  }

  lemma SnapshotKeepsInv(s: System, step: Step)
    requires PlanStep(s, step)
    ensures Inv(Next(s, step))
  {
    PlannedSound(s, step);
    PlannedLimitersOk(s, step);
    PlannedIndexed(s, step);
    PlannedAligned(s, step);
    AllocationKeeps(s.core, step.newMetrics, step.newBuckets, s.clock, step.now);
  }

  lemma AllocationKeeps(c: Core, newMetrics: map<EndpointMetrics, Metrics>,
                        newBuckets: map<DirectRateLimiter, Bucket>, clock: nat, clock': nat)
    requires Closed(c) && Sound(c, c.endpoints)
    requires LimitersOk(c, clock, c.limiters) && Indexed(c, c.endpoints, c.limiters)
    requires newMetrics.Keys !! c.metrics.Keys && newBuckets.Keys !! c.buckets.Keys && clock <= clock'
    ensures var c' := Allocated(c, newMetrics, newBuckets);
      && Closed(c') && Sound(c', c'.endpoints)
      && LimitersOk(c', clock', c'.limiters) && Indexed(c', c'.endpoints, c'.limiters)
  {
    var c' := Allocated(c, newMetrics, newBuckets);
    assert forall l :: l in c.buckets ==> c'.buckets[l] == c.buckets[l];
  }

  lemma CommitKeepsInv(s: System, step: Step)
    requires Inv(s) && Enabled(s, step)
    requires step.CommitEndpoints? || step.CommitLimiters? || step.CommitSetting? || step.RebuildClient?
    ensures Inv(Next(s, step))
  {
  }

  /** Every step of every operation keeps the invariant. */
  lemma StepKeepsInv(s: System, step: Step)
    requires Inv(s) && Enabled(s, step)
    ensures Inv(Next(s, step))
  {
    if Serving(step) {
      ServingKeepsInv(s, step);
    } else if step.TakeSnapshot? {
      SnapshotKeepsInv(s, step);
    } else {
      CommitKeepsInv(s, step);
    }
  }

  // ---- Runs ----

  /** Each step is possible in the state the steps before it lead to. */
  ghost predicate Run(s: System, steps: seq<Step>)
    requires Inv(s)
    decreases |steps|
  {
    steps == [] || (Enabled(s, steps[0]) && (StepKeepsInv(s, steps[0]); Run(Next(s, steps[0]), steps[1..])))
  }

  ghost function Exec(s: System, steps: seq<Step>): (t: System)
    requires Inv(s) && Run(s, steps)
    ensures Inv(t)
    decreases |steps|
  {
    if steps == [] then s else
      StepKeepsInv(s, steps[0]);
      Exec(Next(s, steps[0]), steps[1..])
  }

  /** A run is a step and a run from where it leads. */
  lemma {:induction false} RunTail(s: System, steps: seq<Step>)
    requires Inv(s) && Run(s, steps) && steps != []
    ensures Enabled(s, steps[0]) && Inv(Next(s, steps[0])) && Run(Next(s, steps[0]), steps[1..])
    ensures Exec(s, steps) == Exec(Next(s, steps[0]), steps[1..])
  {
    StepKeepsInv(s, steps[0]);
  }

  /** The other way round. */
  lemma {:induction false} RunCons(s: System, steps: seq<Step>)
    requires Inv(s) && steps != [] && Enabled(s, steps[0])
    requires Inv(Next(s, steps[0])) && Run(Next(s, steps[0]), steps[1..])
    ensures Run(s, steps) && Exec(s, steps) == Exec(Next(s, steps[0]), steps[1..])
  {
  }

  lemma {:induction false} RunPrepend(s: System, step: Step, rest: seq<Step>)
    requires Inv(s) && Enabled(s, step) && Inv(Next(s, step)) && Run(Next(s, step), rest)
    ensures Run(s, [step] + rest) && Exec(s, [step] + rest) == Exec(Next(s, step), rest)
  {
    assert ([step] + rest)[1..] == rest;
    RunCons(s, [step] + rest);
  }

  lemma AppendFront(first: seq<Step>, rest: seq<Step>)
    requires first != []
    ensures first + rest == [first[0]] + (first[1..] + rest)
  {
  }

  lemma {:induction false} RunFront(s: System, first: seq<Step>, rest: seq<Step>)
    requires Inv(s) && first != [] && Enabled(s, first[0])
    requires Inv(Next(s, first[0])) && Run(Next(s, first[0]), first[1..] + rest)
    ensures Run(s, first + rest) && Exec(s, first + rest) == Exec(Next(s, first[0]), first[1..] + rest)
  {
    RunPrepend(s, first[0], first[1..] + rest);
    AppendFront(first, rest);
  }

  /** A run goes on where another one has ended. */
  lemma {:induction false} RunAppend(s: System, first: seq<Step>, rest: seq<Step>)
    requires Inv(s) && Run(s, first) && Run(Exec(s, first), rest)
    ensures Run(s, first + rest) && Exec(s, first + rest) == Exec(Exec(s, first), rest)
    decreases |first|
  {
    if first == [] {
      assert first + rest == rest;
    } else {
      RunTail(s, first);
      RunAppend(Next(s, first[0]), first[1..], rest);
      RunFront(s, first, rest);
    }
  }

  /** Nothing in the run belongs to a reload. */
  ghost predicate AllServing(steps: seq<Step>) {
    forall k :: 0 <= k < |steps| ==> Serving(steps[k])
  }

  lemma {:induction false} ServingRunKeepsPhase(s: System, steps: seq<Step>)
    requires Inv(s) && Run(s, steps) && AllServing(steps)
    ensures Exec(s, steps).phase == s.phase
    decreases |steps|
  {
    if steps != [] {
      StepKeepsInv(s, steps[0]);
      assert AllServing(steps[1..]);
      ServingRunKeepsPhase(Next(s, steps[0]), steps[1..]);
    }
  }
}
