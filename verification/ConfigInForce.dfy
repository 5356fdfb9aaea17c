/** What is in force after startup and after a reload, field by field, and what a reload reports. */
module ConfigInForce {
  import opened Prelude
  import opened Endpoint
  import opened RateLimiter
  import opened State
  import opened Balancer
  import opened ConfigReloader
  import opened ReloadRuns
  import Config
  import Cooldown

  /** Every setting, and every setting of the client, is the one of that name in the configuration. */
  ghost predicate InForce(c: Core, b: Config.BalancerConfig) {
    && b.maxBatchSize == Some(c.settings.maxBatchSize)
    && b.baseCooldownSecs == Some(c.settings.baseCooldownSecs)
    && b.maxCooldownSecs == Some(c.settings.maxCooldownSecs)
    && b.healthCheckIntervalSecs == Some(c.settings.healthCheckIntervalSecs)
    && b.healthCheckTimeoutSecs == Some(c.settings.healthCheckTimeoutSecs)
    && b.latencySmoothingFactor == Some(c.settings.smoothing)
    && b.connectTimeoutMs == Some(c.client.connectTimeoutMs)
    && b.timeoutSecs == Some(c.client.timeoutSecs)
    && b.poolIdleTimeoutSecs == Some(c.client.poolIdleTimeoutSecs)
    && b.poolMaxIdlePerHost == Some(c.client.poolMaxIdlePerHost)
  }

  lemma InForceIff(c: Core, b: Config.BalancerConfig)
    requires Config.Complete(b)
    ensures InForce(c, b) <==> c.settings == SettingsOf(b) && c.client == ClientOf(b)
  {
  }

  /** The limiter of the entry lets through exactly the batches up to its burst, at any time. */
  ghost predicate FullLimiter(c: Core, e: Config.EndpointConfig) {
    && e.url in c.limiters && c.limiters[e.url] in c.buckets
    && forall n: nat, now: nat :: c.buckets[c.limiters[e.url]].Admits(n, now) <==> n <= e.burstSize
  }

  /** In use at once, and with nothing in its metrics but the client timeout as latency. */
  ghost predicate StartsFresh(c: Core, ep: RpcEndpoint, timeoutSecs: u64) {
    && ep.healthy && ep.cooldownUntil == None && ep.cooldownAttempts == 0
    && ep.metrics in c.metrics
    && var m := c.metrics[ep.metrics];
    && m.emaLatencyMs == timeoutSecs * 1000 % 0x1_0000_0000_0000_0000
    && m.emaErrorPenaltyMs == 0 && m.consecutiveFailures == 0 && m.lastSelected == 0
  }

  lemma NewLimiterIsFull(c: Core, e: Config.EndpointConfig)
    requires Config.Usable(e) && e.url in c.limiters && c.limiters[e.url] in c.buckets
    requires c.buckets[c.limiters[e.url]] == NewBucket(e.burstSize, PeriodNanos(e.burstSize, e.rateLimitPerSec))
    ensures FullLimiter(c, e)
  {
    PeriodAccuracy(e.burstSize, e.rateLimitPerSec);
    forall n: nat, now: nat
      ensures c.buckets[c.limiters[e.url]].Admits(n, now) <==> n <= e.burstSize
    {
      RestedAdmitsIff(c.buckets[c.limiters[e.url]], n, now);
    }
  }

  /** After startup the configuration is in force, setting by setting and endpoint by endpoint. */
  lemma StartupInstalls(c: Core, b: Config.BalancerConfig, now: nat)
    requires Closed(c) && Config.Complete(b) && IsInitial(c, b, now)
    ensures InForce(c, b) && Configured(c.endpoints, b.endpoints.value)
    ensures forall k :: 0 <= k < |c.endpoints| ==> StartsFresh(c, c.endpoints[k], b.timeoutSecs.value)
    ensures forall k :: 0 <= k < |c.endpoints| ==> FullLimiter(c, b.endpoints.value[k])
  {
    var es := b.endpoints.value;
    InForceIff(c, b);
    forall k | 0 <= k < |es|
      ensures ConfiguredAs(c.endpoints[k], es[k]) && StartsFresh(c, c.endpoints[k], b.timeoutSecs.value)
      ensures FullLimiter(c, es[k])
    {
      assert IsInitialEndpoint(c, c.endpoints[k], es[k], now);
      NewLimiterIsFull(c, es[k]);
    }
  }

  /** The report names the URLs that have come and gone, and tells whether the client has been replaced. */
  ghost predicate Reported(before: Core, after: Core, changes: Changes) {
    && (forall u :: u in changes.added <==> u in Urls(after.endpoints) && u !in Urls(before.endpoints))
    && (forall u :: u in changes.removed <==> u in Urls(before.endpoints) && u !in Urls(after.endpoints))
    && (changes.clientRebuilt <==> before.client != after.client)
  }

  /** A reload that finds `e` configured with the same limits. */
  ghost predicate SameLimits(eps: seq<RpcEndpoint>, e: Config.EndpointConfig) {
    exists i :: 0 <= i < |eps| && eps[i].url == e.url
                && eps[i].rateLimitPerSec == e.rateLimitPerSec && eps[i].burstSize == e.burstSize
  }

  /**
   * After a reload the configuration is in force too; added endpoints start fresh, and whatever is added or
   * has other limits than before has a full limiter.
   */
  lemma ReloadInstalls(before: Core, b: Config.BalancerConfig, now: nat, changes: Changes, plan: Plan,
                       newMetrics: map<EndpointMetrics, Metrics>, newBuckets: map<DirectRateLimiter, Bucket>,
                       after: Core)
    requires Closed(before) && DistinctUrls(before.endpoints) && Config.Complete(b)
    requires ReloadedWith(before, b, now, changes, plan, newMetrics, newBuckets, after)
    ensures InForce(after, b) && Configured(after.endpoints, b.endpoints.value)
    ensures forall k :: 0 <= k < |after.endpoints| && after.endpoints[k].url in changes.added ==>
      StartsFresh(after, after.endpoints[k], b.timeoutSecs.value)
    ensures forall e :: e in b.endpoints.value && !SameLimits(before.endpoints, e) ==> FullLimiter(after, e)
  {
    var start, es := before.(client := ClientOf(b)), b.endpoints.value;
    InForceIff(after, b);
    forall k | 0 <= k < |es|
      ensures ConfiguredAs(after.endpoints[k], es[k])
      ensures es[k].url in changes.added ==> StartsFresh(after, after.endpoints[k], b.timeoutSecs.value)
      ensures !SameLimits(before.endpoints, es[k]) ==> FullLimiter(after, es[k])
    {
      EntryInstalled(start, es, SettingsOf(b), now, plan, newMetrics, newBuckets, k);
    }
  }

  /** And the report is about what has happened. */
  lemma ReloadReports(before: Core, b: Config.BalancerConfig, now: nat, changes: Changes, plan: Plan,
                      newMetrics: map<EndpointMetrics, Metrics>, newBuckets: map<DirectRateLimiter, Bucket>,
                      after: Core)
    requires Closed(before) && DistinctUrls(before.endpoints) && Config.Complete(b)
    requires ReloadedWith(before, b, now, changes, plan, newMetrics, newBuckets, after)
    ensures Reported(before, after, changes)
  {
    ReloadInstalls(before, b, now, changes, plan, newMetrics, newBuckets, after);
    var es := b.endpoints.value;
    forall k | 0 <= k < |es|
      ensures es[k].url == after.endpoints[k].url
    {
      assert ConfiguredAs(after.endpoints[k], es[k]);
    }
    SameUrlSets(after.endpoints, es);
  }

  lemma EntryInstalled(start: Core, es: seq<Config.EndpointConfig>, settings: Settings, now: nat, plan: Plan,
                       newMetrics: map<EndpointMetrics, Metrics>, newBuckets: map<DirectRateLimiter, Bucket>, k: nat)
    requires Closed(start) && DistinctUrls(start.endpoints) && Config.UsableEndpoints(es) && k < |es|
    requires IsPlan(start, es, settings, now, plan, newMetrics, newBuckets)
    ensures var after := Reloaded(start, plan, newMetrics, newBuckets);
      && ConfiguredAs(after.endpoints[k], es[k])
      && (es[k].url !in Urls(start.endpoints) ==> StartsFresh(after, after.endpoints[k], start.client.timeoutSecs))
      && (!SameLimits(start.endpoints, es[k]) ==> FullLimiter(after, es[k]))
  {
    assert PlannedRecord(start, es[k], now, plan.endpoints[k], newMetrics);
    assert PlannedLimiter(start, es[k], plan.limiters, newBuckets);
    if !SameLimits(start.endpoints, es[k]) {
      NewLimiterIsFull(Reloaded(start, plan, newMetrics, newBuckets), es[k]);
    }
  }

  /** The first trigger of an endpoint keeps it out for twice the configured base, or the configured maximum. */
  lemma FirstCooldown(c: Core, b: Config.BalancerConfig, url: string, i: nat, now: nat)
    requires InForce(c, b) && i < |c.endpoints| && Find(c.endpoints, url) == Some(i)
    requires c.endpoints[i].cooldownAttempts == 0 && c.endpoints[i].healthy
    ensures var until := Some(now + Min(2 * b.baseCooldownSecs.value, b.maxCooldownSecs.value) * 1_000_000_000);
      && |RateLimitedAt(c, url, now).endpoints| == |UnhealthyAt(c, url, now).endpoints| == |c.endpoints|
      && RateLimitedAt(c, url, now).endpoints[i].cooldownUntil == until
      && UnhealthyAt(c, url, now).endpoints[i].cooldownUntil == until
      && RateLimitedAt(c, url, now).endpoints[i].healthy && !UnhealthyAt(c, url, now).endpoints[i].healthy
  {
    assert Pow2(1) == 2;
    Cooldown.BackoffExact(b.baseCooldownSecs.value, b.maxCooldownSecs.value, 1);
  }

  /**
   * The same in terms of what has been written in the file: the base is 3 seconds if none is given, the maximum 60.
   * `FinalizedKeepsSettings` says that finalizing yields such a `b`.
   */
  lemma FirstCooldownAsWritten(c: Core, given: Config.BalancerConfig, b: Config.BalancerConfig, url: string, i: nat,
                               now: nat)
    requires Config.SettingsFinalized(given, b) && InForce(c, b)
    requires i < |c.endpoints| && Find(c.endpoints, url) == Some(i)
    requires c.endpoints[i].cooldownAttempts == 0 && c.endpoints[i].healthy
    ensures var base := if given.baseCooldownSecs.Some? then given.baseCooldownSecs.value else 3;
      var max := if given.maxCooldownSecs.Some? then given.maxCooldownSecs.value else 60;
      && |RateLimitedAt(c, url, now).endpoints| == |c.endpoints|
      && RateLimitedAt(c, url, now).endpoints[i].cooldownUntil == Some(now + Min(2 * base, max) * 1_000_000_000)
  {
    FirstCooldown(c, b, url, i, now);
  }

  /** A configured URL is not reported as modified if and only if its record already says what the entry says. */
  lemma {:induction false} UnmodifiedIff(eps: seq<RpcEndpoint>, cfg: seq<Config.EndpointConfig>, i: nat, k: nat)
    requires forall l :: 0 <= l < |cfg| ==> cfg[l].weight.Some?
    requires DistinctUrls(eps) && Config.DistinctUrls(cfg)
    requires i < |eps| && k < |cfg| && eps[i].url == cfg[k].url
    ensures cfg[k].url !in ModifiedUrls(eps, cfg) <==> ConfiguredAs(eps[i], cfg[k])
  {
    ModifiedExactly(eps, cfg, cfg[k].url);
  }
}
