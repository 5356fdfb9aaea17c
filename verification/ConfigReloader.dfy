/** `src/config_reloader.rs`: hot reload. */
module ConfigReloader {
  import opened Prelude
  import opened Endpoint
  import opened RateLimiter
  import opened State
  import opened Balancer
  import Config

  datatype Changes = Changes(added: set<string>, removed: set<string>, modified: seq<string>, clientRebuilt: bool)

  /** The configuration says something else about this endpoint than its record does. */
  predicate IsModified(ep: RpcEndpoint, e: Config.EndpointConfig)
    requires e.weight.Some?
  {
    ep.rateLimitPerSec != e.rateLimitPerSec || ep.burstSize != e.burstSize || ep.weight != e.weight.value
  }

  ghost predicate ModifiedAt(eps: seq<RpcEndpoint>, e: Config.EndpointConfig)
    requires e.weight.Some?
  {
    exists i :: 0 <= i < |eps| && eps[i].url == e.url && IsModified(eps[i], e)
  }

  /** The URLs whose record differs from the configuration, in configuration order. */
  function ModifiedUrls(eps: seq<RpcEndpoint>, cfg: seq<Config.EndpointConfig>): seq<string>
    requires forall k :: 0 <= k < |cfg| ==> cfg[k].weight.Some?
  {
    if cfg == [] then []
    else
      var e := cfg[|cfg| - 1];
      var found := Find(eps, e.url);
      ModifiedUrls(eps, cfg[..|cfg| - 1])
      + if found.Some? && IsModified(eps[found.value], e) then [e.url] else []
  }

  /** `modified` lists exactly the common URLs whose rate, burst or weight changed. */
  lemma {:induction false} ModifiedExactly(eps: seq<RpcEndpoint>, cfg: seq<Config.EndpointConfig>, url: string)
    requires forall k :: 0 <= k < |cfg| ==> cfg[k].weight.Some?
    requires DistinctUrls(eps)
    ensures url in ModifiedUrls(eps, cfg)
      <==> exists k :: 0 <= k < |cfg| && cfg[k].url == url && ModifiedAt(eps, cfg[k])
  {
    if cfg != [] {
      var last := |cfg| - 1;
      ModifiedExactly(eps, cfg[..last], url);
      if k :| 0 <= k < |cfg| && cfg[k].url == url && ModifiedAt(eps, cfg[k]) {
        assert k < last ==> cfg[..last][k] == cfg[k];
      }
    }
  }

  /** What is removed and what is added turns the old URLs into the new ones, and the two never overlap. */
  method Diff(balancer: LoadBalancer, cfg: seq<Config.EndpointConfig>)
    returns (added: set<string>, removed: set<string>, modified: seq<string>)
    requires forall k :: 0 <= k < |cfg| ==> cfg[k].weight.Some?
    ensures added == Config.Urls(cfg) - Urls(balancer.endpoints)
    ensures removed == Urls(balancer.endpoints) - Config.Urls(cfg)
    ensures (Urls(balancer.endpoints) - removed) + added == Config.Urls(cfg) && added !! removed
    ensures modified == ModifiedUrls(balancer.endpoints, cfg)
  {
    var current := set i | 0 <= i < |balancer.endpoints| :: balancer.endpoints[i].url;
    var wanted := set k | 0 <= k < |cfg| :: cfg[k].url;
    added, removed := wanted - current, current - wanted;
    modified := [];
    for k := 0 to |cfg|
      invariant modified == ModifiedUrls(balancer.endpoints, cfg[..k])
    {
      assert cfg[..k + 1][..k] == cfg[..k];
      var found := Find(balancer.endpoints, cfg[k].url);
      if found.Some? {
        var ep := balancer.endpoints[found.value];
        if
          || ep.rateLimitPerSec != cfg[k].rateLimitPerSec
          || ep.burstSize != cfg[k].burstSize
          || ep.weight != cfg[k].weight.value
        {
          modified := modified + [cfg[k].url];
        }
      }
    }
    assert cfg[..|cfg|] == cfg;
  }

  /** The new record list: common endpoints keep their state, added ones start fresh. */
  method PlanEndpoints(balancer: LoadBalancer, cfg: seq<Config.EndpointConfig>, now: nat)
    returns (eps: seq<RpcEndpoint>, ghost newMetrics: map<EndpointMetrics, Metrics>)
    requires balancer.Valid() && Config.UsableEndpoints(cfg)
    ensures |eps| == |cfg|
    ensures forall m :: m in newMetrics ==> fresh(m) && m.Value() == newMetrics[m]
    ensures forall k :: 0 <= k < |cfg| ==> PlannedRecord(balancer.Abs(), cfg[k], now, eps[k], newMetrics)
    ensures forall k, l :: 0 <= k < l < |cfg| && eps[k].metrics in newMetrics ==> eps[k].metrics != eps[l].metrics
  {
    var current := balancer.endpoints;
    ghost var c := balancer.Abs();
    eps, newMetrics := [], map[];
    for i := 0 to |cfg|
      invariant |eps| == i
      invariant forall m :: m in newMetrics ==> fresh(m) && m.Value() == newMetrics[m]
      invariant forall k :: 0 <= k < i ==> eps[k].metrics in newMetrics || eps[k].metrics in balancer.metricsObjects
      invariant forall k :: 0 <= k < i ==> PlannedRecord(c, cfg[k], now, eps[k], newMetrics)
      invariant forall k, l :: 0 <= k < l < i && eps[k].metrics in newMetrics ==> eps[k].metrics != eps[l].metrics
    {
      var e := cfg[i];
      var found := Find(current, e.url);
      if found.Some? {
        var updated := current[found.value];
        updated := updated.(rateLimitPerSec := e.rateLimitPerSec);
        updated := updated.(burstSize := e.burstSize);
        updated := updated.(weight := e.weight.value);
        eps := eps + [updated];
      } else {
        var metrics := new EndpointMetrics(balancer.client.timeoutSecs);
        newMetrics := newMetrics[metrics := metrics.Value()];
        eps := eps + [NewEndpoint(e.url, e.rateLimitPerSec, e.burstSize, e.weight.value, now, metrics)];
      }
    }
  }

  /** The limiter one entry asks for: its present one if the limits are unchanged, a new one otherwise. */
  method LimiterFor(current: seq<RpcEndpoint>, currentLimiters: map<string, DirectRateLimiter>,
                    e: Config.EndpointConfig)
    returns (limiter: Option<DirectRateLimiter>, isNew: bool)
    requires Config.Usable(e)
    ensures isNew <==> !(exists i :: Find(current, e.url) == Some(i) && LimitsUnchanged(current[i], e))
    ensures isNew ==> limiter.Some? && fresh(limiter.value)
    ensures isNew ==> limiter.value.Value() == NewBucket(e.burstSize, PeriodNanos(e.burstSize, e.rateLimitPerSec))
    ensures !isNew ==> limiter == if e.url in currentLimiters then Some(currentLimiters[e.url]) else None
  {
    var found := Find(current, e.url);
    if
      && found.Some?
      && current[found.value].rateLimitPerSec == e.rateLimitPerSec
      && current[found.value].burstSize == e.burstSize
    {
      limiter := if e.url in currentLimiters then Some(currentLimiters[e.url]) else None;
      isNew := false;
    } else {
      var created := CreateRateLimiter(e.burstSize, e.rateLimitPerSec);
      limiter, isNew := Some(created), true;
    }
  }

  /** The limiter index planned for the first `n` entries of a configuration. */
  ghost predicate LimitersPlanned(c: Core, cfg: seq<Config.EndpointConfig>, n: nat,
                                  limiters: map<string, DirectRateLimiter>, newBuckets: map<DirectRateLimiter, Bucket>)
    requires Closed(c) && n <= |cfg|
  {
    && (forall u :: u in limiters ==> exists k :: 0 <= k < n && cfg[k].url == u)
    && (forall u :: u in limiters ==> limiters[u] in newBuckets || limiters[u] in c.buckets)
    && (forall k :: 0 <= k < n ==> PlannedLimiter(c, cfg[k], limiters, newBuckets))
    && (forall u, v :: u in limiters && v in limiters && u != v && limiters[u] in newBuckets ==>
      limiters[u] != limiters[v])
  }

  lemma KeepLimiter(c: Core, cfg: seq<Config.EndpointConfig>, n: nat, limiters: map<string, DirectRateLimiter>,
                    newBuckets: map<DirectRateLimiter, Bucket>, kept: Option<DirectRateLimiter>)
    requires Closed(c) && n < |cfg| && Config.DistinctUrls(cfg)
    requires LimitersPlanned(c, cfg, n, limiters, newBuckets) && newBuckets.Keys !! c.buckets.Keys
    requires exists i :: Find(c.endpoints, cfg[n].url) == Some(i) && LimitsUnchanged(c.endpoints[i], cfg[n])
    requires kept == if cfg[n].url in c.limiters then Some(c.limiters[cfg[n].url]) else None
    ensures var kept' := if kept.Some? then limiters[cfg[n].url := kept.value] else limiters;
      LimitersPlanned(c, cfg, n + 1, kept', newBuckets)
  {
    var kept' := if kept.Some? then limiters[cfg[n].url := kept.value] else limiters;
    assert cfg[n].url !in limiters;
    forall k | 0 <= k <= n
      ensures PlannedLimiter(c, cfg[k], kept', newBuckets)
    {
      if k < n {
        assert cfg[k].url != cfg[n].url && PlannedLimiter(c, cfg[k], limiters, newBuckets);
      }
    }
  }

  lemma AddLimiter(c: Core, cfg: seq<Config.EndpointConfig>, n: nat, limiters: map<string, DirectRateLimiter>,
                   newBuckets: map<DirectRateLimiter, Bucket>, limiter: DirectRateLimiter)
    requires Closed(c) && n < |cfg| && Config.DistinctUrls(cfg) && Config.Usable(cfg[n])
    requires LimitersPlanned(c, cfg, n, limiters, newBuckets)
    requires !exists i :: Find(c.endpoints, cfg[n].url) == Some(i) && LimitsUnchanged(c.endpoints[i], cfg[n])
    requires limiter !in newBuckets && limiter !in c.buckets
    ensures LimitersPlanned(c, cfg, n + 1, limiters[cfg[n].url := limiter],
      newBuckets[limiter := NewBucket(cfg[n].burstSize, PeriodNanos(cfg[n].burstSize, cfg[n].rateLimitPerSec))])
  {
    assert cfg[n].url !in limiters;
    var found := Find(c.endpoints, cfg[n].url);
    assert !(found.Some? && LimitsUnchanged(c.endpoints[found.value], cfg[n]));
  }

  /** The new limiter index: unchanged limits keep the very same limiter object. */
  method PlanLimiters(balancer: LoadBalancer, cfg: seq<Config.EndpointConfig>)
    returns (limiters: map<string, DirectRateLimiter>, ghost newBuckets: map<DirectRateLimiter, Bucket>)
    requires balancer.Valid() && Config.UsableEndpoints(cfg)
    ensures forall l :: l in newBuckets ==> fresh(l) && l.Value() == newBuckets[l]
    ensures LimitersPlanned(balancer.Abs(), cfg, |cfg|, limiters, newBuckets)
  {
    ghost var c := balancer.Abs();
    limiters, newBuckets := map[], map[];
    for i := 0 to |cfg|
      invariant forall l :: l in newBuckets ==> fresh(l) && l.Value() == newBuckets[l]
      invariant LimitersPlanned(c, cfg, i, limiters, newBuckets)
    {
      ghost var before := limiters;
      var limiter, isNew := LimiterFor(balancer.endpoints, balancer.rateLimiters, cfg[i]);
      if limiter.Some? {
        limiters := limiters[cfg[i].url := limiter.value];
      }
      if isNew {
        AddLimiter(c, cfg, i, before, newBuckets, limiter.value);
        newBuckets := newBuckets[limiter.value := limiter.value.Value()];
      } else {
        KeepLimiter(c, cfg, i, before, newBuckets, limiter);
      }
    }
  }

  lemma PlanAssembled(c: Core, cfg: seq<Config.EndpointConfig>, settings: Settings, now: nat, plan: Plan,
                      newMetrics: map<EndpointMetrics, Metrics>, newBuckets: map<DirectRateLimiter, Bucket>)
    requires Closed(c) && Config.UsableEndpoints(cfg)
    requires newMetrics.Keys !! c.metrics.Keys && newBuckets.Keys !! c.buckets.Keys
    requires plan.settings == settings && |plan.endpoints| == |cfg|
    requires forall k :: 0 <= k < |cfg| ==> PlannedRecord(c, cfg[k], now, plan.endpoints[k], newMetrics)
    requires forall k, l :: 0 <= k < l < |cfg| && plan.endpoints[k].metrics in newMetrics ==>
      plan.endpoints[k].metrics != plan.endpoints[l].metrics
    requires LimitersPlanned(c, cfg, |cfg|, plan.limiters, newBuckets)
    ensures PlanFrom(c, cfg, settings, now, plan, newMetrics, newBuckets)
  {
    forall u | u in plan.limiters
      ensures u in Config.Urls(cfg)
    {
      var k :| 0 <= k < |cfg| && cfg[k].url == u;
    }
    forall k | 0 <= k < |cfg|
      ensures plan.endpoints[k].metrics in c.metrics || plan.endpoints[k].metrics in newMetrics
    {
      assert PlannedRecord(c, cfg[k], now, plan.endpoints[k], newMetrics);
    }
  }

  /** Everything a reload computes under its read locks. Nothing the balancer refers to changes. */
  method ComputePlan(balancer: LoadBalancer, cfg: seq<Config.EndpointConfig>, settings: Settings, now: nat)
    returns (plan: Plan, ghost newMetrics: map<EndpointMetrics, Metrics>,
             ghost newBuckets: map<DirectRateLimiter, Bucket>)
    requires balancer.Valid() && Config.UsableEndpoints(cfg)
    ensures forall m :: m in newMetrics ==> fresh(m) && m.Value() == newMetrics[m]
    ensures forall l :: l in newBuckets ==> fresh(l) && l.Value() == newBuckets[l]
    ensures PlanFrom(balancer.Abs(), cfg, settings, now, plan, newMetrics, newBuckets)
  {
    var eps, limiters;
    eps, newMetrics := PlanEndpoints(balancer, cfg, now);
    limiters, newBuckets := PlanLimiters(balancer, cfg);
    plan := Plan(eps, limiters, settings);
    PlanAssembled(balancer.Abs(), cfg, settings, now, plan, newMetrics, newBuckets);
  }

  /** The plan, and that it refers only to what there was and what has been allocated for it. */
  ghost predicate PlanFrom(c: Core, cfg: seq<Config.EndpointConfig>, settings: Settings, now: nat, plan: Plan,
                           newMetrics: map<EndpointMetrics, Metrics>, newBuckets: map<DirectRateLimiter, Bucket>)
    requires Config.UsableEndpoints(cfg)
  {
    && IsPlan(c, cfg, settings, now, plan, newMetrics, newBuckets)
    && (forall k :: 0 <= k < |plan.endpoints| ==>
          plan.endpoints[k].metrics in c.metrics || plan.endpoints[k].metrics in newMetrics)
    && (forall u :: u in plan.limiters ==> plan.limiters[u] in c.buckets || plan.limiters[u] in newBuckets)
  }

  /** The snapshot phase of a reload: only allocation has happened when it is over. */
  method BuildPlan(balancer: LoadBalancer, cfg: seq<Config.EndpointConfig>, settings: Settings, now: nat)
    returns (plan: Plan, ghost newMetrics: map<EndpointMetrics, Metrics>,
             ghost newBuckets: map<DirectRateLimiter, Bucket>)
    requires balancer.Valid() && Config.UsableEndpoints(cfg)
    modifies balancer`metricsObjects, balancer`limiterObjects
    ensures balancer.Valid()
    ensures IsPlan(old(balancer.Abs()), cfg, settings, now, plan, newMetrics, newBuckets)
    ensures balancer.Abs() == Allocated(old(balancer.Abs()), newMetrics, newBuckets)
    ensures forall k :: 0 <= k < |plan.endpoints| ==> plan.endpoints[k].metrics in balancer.metricsObjects
    ensures forall u :: u in plan.limiters ==> plan.limiters[u] in balancer.limiterObjects
  {
    plan, newMetrics, newBuckets := ComputePlan(balancer, cfg, settings, now);
    Extend(balancer, newMetrics, newBuckets);
  }

  /** Bookkeeping of allocations. */
  ghost method Extend(balancer: LoadBalancer, newMetrics: map<EndpointMetrics, Metrics>,
                      newBuckets: map<DirectRateLimiter, Bucket>)
    requires balancer.Valid()
    requires forall m :: m in newMetrics ==> m.Value() == newMetrics[m]
    requires forall l :: l in newBuckets ==> l.Value() == newBuckets[l]
    modifies balancer`metricsObjects, balancer`limiterObjects
    ensures balancer.Valid()
    ensures balancer.Abs() == Allocated(old(balancer.Abs()), newMetrics, newBuckets)
    ensures balancer.metricsObjects == old(balancer.metricsObjects) + newMetrics.Keys
    ensures balancer.limiterObjects == old(balancer.limiterObjects) + newBuckets.Keys
  {
    ghost var before := balancer.Abs();
    balancer.metricsObjects := balancer.metricsObjects + newMetrics.Keys;
    balancer.limiterObjects := balancer.limiterObjects + newBuckets.Keys;
    assert balancer.Abs().metrics == before.metrics + newMetrics;
    assert balancer.Abs().buckets == before.buckets + newBuckets;
  }

  method WriteSettings(balancer: LoadBalancer, target: Settings)
    modifies balancer`settings
    ensures balancer.settings == target
  {
    balancer.settings := balancer.settings.(maxBatchSize := target.maxBatchSize);
    balancer.settings := balancer.settings.(baseCooldownSecs := target.baseCooldownSecs);
    balancer.settings := balancer.settings.(maxCooldownSecs := target.maxCooldownSecs);
    balancer.settings := balancer.settings.(healthCheckIntervalSecs := target.healthCheckIntervalSecs);
    balancer.settings := balancer.settings.(healthCheckTimeoutSecs := target.healthCheckTimeoutSecs);
    balancer.settings := balancer.settings.(smoothing := target.smoothing);
  }

  /** What a reload of `plan` makes of `start` when nothing else happens in between. */
  function Reloaded(start: Core, plan: Plan, newMetrics: map<EndpointMetrics, Metrics>,
                    newBuckets: map<DirectRateLimiter, Bucket>): Core {
    Allocated(start, newMetrics, newBuckets)
      .(endpoints := plan.endpoints, limiters := plan.limiters, settings := plan.settings)
  }

  ghost function ChangesOf(start: Core, client: Client, cfg: seq<Config.EndpointConfig>): Changes
    requires forall k :: 0 <= k < |cfg| ==> cfg[k].weight.Some?
  {
    Changes(
      Config.Urls(cfg) - Urls(start.endpoints),
      Urls(start.endpoints) - Config.Urls(cfg),
      ModifiedUrls(start.endpoints, cfg),
      start.client != client)
  }

  /** Writes the plan over the balancer, one locked field after the other. */
  method CommitPlan(balancer: LoadBalancer, plan: Plan)
    requires balancer.Valid()
    requires forall k :: 0 <= k < |plan.endpoints| ==> plan.endpoints[k].metrics in balancer.metricsObjects
    requires forall u :: u in plan.limiters ==> plan.limiters[u] in balancer.limiterObjects
    modifies balancer`endpoints, balancer`rateLimiters, balancer`settings
    ensures balancer.Valid()
    ensures balancer.Abs()
         == old(balancer.Abs()).(endpoints := plan.endpoints, limiters := plan.limiters, settings := plan.settings)
  {
    balancer.endpoints := plan.endpoints;
    balancer.rateLimiters := plan.limiters;
    WriteSettings(balancer, plan.settings);
  }

  /** Everything `reload` promises when it succeeds with the finalized configuration `b`. */
  ghost predicate ReloadedWith(before: Core, b: Config.BalancerConfig, now: nat, changes: Changes, plan: Plan,
                               newMetrics: map<EndpointMetrics, Metrics>, newBuckets: map<DirectRateLimiter, Bucket>,
                               after: Core)
    requires Config.Complete(b)
  {
    var start := before.(client := ClientOf(b));
    && IsPlan(start, b.endpoints.value, SettingsOf(b), now, plan, newMetrics, newBuckets)
    && after == Reloaded(start, plan, newMetrics, newBuckets)
    && changes == ChangesOf(before, ClientOf(b), b.endpoints.value)
  }

  /** The part of `reload` after the configuration has been finalized. */
  method ApplyConfig(balancer: LoadBalancer, b: Config.BalancerConfig, now: nat)
    returns (changes: Changes, ghost plan: Plan, ghost newMetrics: map<EndpointMetrics, Metrics>,
             ghost newBuckets: map<DirectRateLimiter, Bucket>)
    requires balancer.Valid() && Config.Complete(b)
    modifies balancer
    ensures balancer.Valid()
    ensures ReloadedWith(old(balancer.Abs()), b, now, changes, plan, newMetrics, newBuckets, balancer.Abs())
  {
    ghost var before := balancer.Abs();
    var clientRebuilt := RebuildClient(balancer, ClientOf(b));
    var added, removed, modified := Diff(balancer, b.endpoints.value);
    changes := Changes(added, removed, modified, clientRebuilt);
    assert changes == ChangesOf(before, ClientOf(b), b.endpoints.value);
    plan, newMetrics, newBuckets := PlanAndCommit(balancer, b.endpoints.value, SettingsOf(b), now);
  }

  /** Snapshot and commits, with nothing in between. */
  method PlanAndCommit(balancer: LoadBalancer, cfg: seq<Config.EndpointConfig>, settings: Settings, now: nat)
    returns (ghost plan: Plan, ghost newMetrics: map<EndpointMetrics, Metrics>,
             ghost newBuckets: map<DirectRateLimiter, Bucket>)
    requires balancer.Valid() && Config.UsableEndpoints(cfg)
    modifies balancer
    ensures balancer.Valid()
    ensures IsPlan(old(balancer.Abs()), cfg, settings, now, plan, newMetrics, newBuckets)
    ensures balancer.Abs() == Reloaded(old(balancer.Abs()), plan, newMetrics, newBuckets)
  {
    var computed;
    computed, newMetrics, newBuckets := BuildPlan(balancer, cfg, settings, now);
    plan := computed;
    CommitPlan(balancer, computed);
  }

  /** Replaces the HTTP client when its settings have changed. */
  method RebuildClient(balancer: LoadBalancer, client: Client) returns (rebuilt: bool)
    requires balancer.Valid()
    modifies balancer`client
    ensures balancer.Valid()
    ensures balancer.Abs() == old(balancer.Abs()).(client := client)
    ensures rebuilt == (old(balancer.client) != client)
  {
    rebuilt := balancer.client.connectTimeoutMs != client.connectTimeoutMs
      || balancer.client.timeoutSecs != client.timeoutSecs
      || balancer.client.poolIdleTimeoutSecs != client.poolIdleTimeoutSecs
      || balancer.client.poolMaxIdlePerHost != client.poolMaxIdlePerHost;
    if rebuilt {
      balancer.client := client;
    }
  }

  ghost function FinalizedBalancer(config: Config.Config): (b: Config.BalancerConfig)
    requires Config.Finalized(config).Ok?
    ensures Config.Complete(b)
  {
    Config.FinalizedIsComplete(config);
    Config.Finalized(config).value.balancer.value
  }

  lemma FinalizedHasBalancer(config: Config.Config)
    requires Config.Finalized(config).Ok?
    ensures var b := Config.Finalized(config).value.balancer;
      b.Some? && b.value == FinalizedBalancer(config) && Config.Complete(b.value)
  {
    Config.FinalizedIsComplete(config);
  }

  method ApplyFinalized(balancer: LoadBalancer, ghost config: Config.Config, finalized: Config.Config, now: nat)
    returns (changes: Changes, ghost plan: Plan, ghost newMetrics: map<EndpointMetrics, Metrics>,
             ghost newBuckets: map<DirectRateLimiter, Bucket>)
    requires balancer.Valid() && Config.Finalized(config) == Config.Ok(finalized)
    modifies balancer
    ensures balancer.Valid()
    ensures ReloadedWith(old(balancer.Abs()), FinalizedBalancer(config), now,
                         changes, plan, newMetrics, newBuckets, balancer.Abs())
  {
    FinalizedHasBalancer(config);
    changes, plan, newMetrics, newBuckets := ApplyConfig(balancer, finalized.balancer.value, now);
  }

  /** What a reload of a parsed configuration promises: when nothing valid is configured, nothing changes. */
  ghost predicate ReloadOutcome(before: Core, config: Config.Config, now: nat, r: Config.Result<Changes>, plan: Plan,
                                newMetrics: map<EndpointMetrics, Metrics>, newBuckets: map<DirectRateLimiter, Bucket>,
                                after: Core)
  {
    && (r.Ok? <==> Config.Finalized(config).Ok?)
    && if r.Ok?
       then ReloadedWith(before, FinalizedBalancer(config), now, r.value, plan, newMetrics, newBuckets, after)
       else after == before
  }

  lemma FailedOutcome(before: Core, config: Config.Config, now: nat, plan: Plan,
                      newMetrics: map<EndpointMetrics, Metrics>, newBuckets: map<DirectRateLimiter, Bucket>)
    requires !Config.Finalized(config).Ok?
    ensures ReloadOutcome(before, config, now, Config.NoValidEndpoints, plan, newMetrics, newBuckets, before)
  {
  }

  lemma SucceededOutcome(before: Core, config: Config.Config, now: nat, changes: Changes, plan: Plan,
                         newMetrics: map<EndpointMetrics, Metrics>, newBuckets: map<DirectRateLimiter, Bucket>,
                         after: Core)
    requires Config.Finalized(config).Ok?
    requires ReloadedWith(before, FinalizedBalancer(config), now, changes, plan, newMetrics, newBuckets, after)
    ensures ReloadOutcome(before, config, now, Config.Ok(changes), plan, newMetrics, newBuckets, after)
  {
  }

  /** `reload`, once the file has been parsed. */
  method Reload(balancer: LoadBalancer, config: Config.Config, now: nat)
    returns (r: Config.Result<Changes>, ghost plan: Plan, ghost newMetrics: map<EndpointMetrics, Metrics>,
             ghost newBuckets: map<DirectRateLimiter, Bucket>)
    requires balancer.Valid()
    modifies balancer
    ensures balancer.Valid()
    ensures ReloadOutcome(old(balancer.Abs()), config, now, r, plan, newMetrics, newBuckets, balancer.Abs())
  {
    ghost var before := balancer.Abs();
    var finalized := Config.Finalize(config);
    if finalized.NoValidEndpoints? {
      plan, newMetrics, newBuckets := Plan(balancer.endpoints, balancer.rateLimiters, balancer.settings), map[], map[];
      FailedOutcome(before, config, now, plan, newMetrics, newBuckets);
      return Config.NoValidEndpoints, plan, newMetrics, newBuckets;
    }
    var changes;
    changes, plan, newMetrics, newBuckets := ApplyFinalized(balancer, config, finalized.value, now);
    SucceededOutcome(before, config, now, changes, plan, newMetrics, newBuckets, balancer.Abs());
    r := Config.Ok(changes);
  }
}
