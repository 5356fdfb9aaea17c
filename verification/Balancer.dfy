/** `src/balancer.rs`: the mutable balancer. Every method does to the state what `State.dfy` says. */
module Balancer {
  import opened Prelude
  import opened Endpoint
  import opened RateLimiter
  import opened Strategy
  import opened State
  import Config
  import Cooldown

  class LoadBalancer {
    var endpoints: seq<RpcEndpoint>
    var rateLimiters: map<string, DirectRateLimiter>
    var settings: Settings
    var client: Client
    /** The shared objects that anyone may still refer to. */
    ghost var metricsObjects: set<EndpointMetrics>
    ghost var limiterObjects: set<DirectRateLimiter>

    ghost predicate Valid()
      reads this
    {
      && (forall i :: 0 <= i < |endpoints| ==> endpoints[i].metrics in metricsObjects)
      && (forall u :: u in rateLimiters ==> rateLimiters[u] in limiterObjects)
    }

    /** The state as a value. */
    ghost function Abs(): (c: Core)
      requires Valid()
      reads this, metricsObjects, limiterObjects
      ensures Closed(c)
    {
      Core(endpoints,
           map m | m in metricsObjects :: m.Value(),
           rateLimiters,
           map l | l in limiterObjects :: l.Value(),
           settings,
           client)
    }

    /** Startup from a finalized configuration: everything healthy, nothing in cooldown, every limiter full. */
    constructor (cfg: Config.BalancerConfig, now: nat)
      requires Config.Complete(cfg)
      ensures Valid() && fresh(metricsObjects) && fresh(limiterObjects)
      ensures IsInitial(Abs(), cfg, now)
    {
      var es := cfg.endpoints.value;
      var eps := InitialEndpoints(es, cfg.timeoutSecs.value, now);
      var limiters := InitialLimiters(es);
      endpoints, rateLimiters := eps, limiters;
      settings, client := SettingsOf(cfg), ClientOf(cfg);
      metricsObjects, limiterObjects := MetricsObjects(eps), limiters.Values;
      new;
      forall i | 0 <= i < |es|
        ensures IsInitialEndpoint(Abs(), endpoints[i], es[i], now)
      {
        assert es[i].url in Config.Urls(es);
      }
    }

    /** Runs the selection strategy on the current state. */
    method Pick(batchSize: nat, now: nat) returns (found: Option<nat>)
      requires Valid()
      modifies limiterObjects
      ensures Valid()
      ensures Picked(State.View(old(Abs()), batchSize, now), found)
      ensures Abs() == old(Abs()).(buckets := ChargeFor(old(Abs()), found, batchSize, now))
    {
      ghost var before := Abs();
      EntriesAgree(batchSize, now);
      found := SelectBestEndpoint(endpoints, rateLimiters, batchSize, now);
      assert Abs().buckets == ChargeFor(before, found, batchSize, now);
    }

    /** The same, named as the specification names it. */
    method Choose(batchSize: nat, now: nat) returns (found: Option<nat>)
      requires Valid()
      modifies limiterObjects
      ensures Valid()
      ensures found == Best(old(Abs()), batchSize, now)
      ensures Abs() == old(Abs()).(buckets := ChargeFor(old(Abs()), found, batchSize, now))
    {
      ghost var before := Abs();
      found := Pick(batchSize, now);
      PickedIsBest(before, batchSize, now, found);
    }

    /** Selects an endpoint and stamps it as the most recently selected one. */
    method GetNextEndpoint(batchSize: nat, now: nat, secs: u64) returns (url: Option<string>)
      requires Valid()
      modifies metricsObjects, limiterObjects
      ensures Valid()
      ensures url == Winner(old(Abs()), batchSize, now)
      ensures Abs() == Selected(old(Abs()), batchSize, now, secs)
    {
      var found := Choose(batchSize, now);
      url := None;
      if found.Some? {
        var endpoint := endpoints[found.value];
        ghost var charged := Abs();
        endpoint.metrics.Touch(secs);
        url := Some(endpoint.url);
        assert Abs().buckets == charged.buckets;
        ghost var stamped := charged.metrics[endpoint.metrics].(lastSelected := secs);
        assert Abs().metrics == charged.metrics[endpoint.metrics := stamped];
      }
    }

    /** The heap and its value show selection the same entries. */
    lemma EntriesAgree(batchSize: nat, now: nat)
      requires Valid()
      ensures Entries(endpoints, rateLimiters, batchSize, now) == State.View(Abs(), batchSize, now)
    {
      forall i | 0 <= i < |endpoints|
        ensures EntryOf(endpoints[i], rateLimiters, batchSize, now) == EntryAt(Abs(), i, batchSize, now)
      {
        assert endpoints[i].metrics in metricsObjects;
      }
    }

    method MarkRateLimited(url: string, now: nat)
      requires Valid()
      modifies this`endpoints
      ensures Valid()
      ensures Abs() == RateLimitedAt(old(Abs()), url, now)
    {
      var found := Find(endpoints, url);
      if found.Some? {
        var i := found.value;
        var ep := endpoints[i];
        ep := Cooldown.Triggered(ep, settings.baseCooldownSecs, settings.maxCooldownSecs, now);
        endpoints := endpoints[i := ep];
      }
    }

    method MarkUnhealthy(url: string, now: nat)
      requires Valid()
      modifies this`endpoints
      ensures Valid()
      ensures Abs() == UnhealthyAt(old(Abs()), url, now)
    {
      var found := Find(endpoints, url);
      if found.Some? {
        var i := found.value;
        if endpoints[i].healthy {
          var ep := endpoints[i].(healthy := false);
          ep := Cooldown.Triggered(ep, settings.baseCooldownSecs, settings.maxCooldownSecs, now);
          endpoints := endpoints[i := ep];
        }
      }
    }

    /** The metrics block of `forward_request`, under the endpoints read lock. */
    method Observe(url: string, outcome: RequestOutcome)
      requires Valid()
      modifies metricsObjects
      ensures Valid()
      ensures Abs() == Observed(old(Abs()), url, outcome)
    {
      var found := Find(endpoints, url);
      if found.Some? {
        var metrics := endpoints[found.value].metrics;
        metrics.Update(outcome, settings.smoothing);
        assert Abs().metrics == Observed(old(Abs()), url, outcome).metrics;
      }
    }

    /** `update_healthy_count`: how many endpoints are available. */
    method HealthyCount(now: nat) returns (count: nat)
      ensures count == |set i | 0 <= i < |endpoints| && endpoints[i].Available(now)|
    {
      count := 0;
      for i := 0 to |endpoints|
        invariant count == |set k | 0 <= k < i && endpoints[k].Available(now)|
      {
        ghost var counted := set k | 0 <= k < i && endpoints[k].Available(now);
        if endpoints[i].Available(now) {
          assert (set k | 0 <= k < i + 1 && endpoints[k].Available(now)) == counted + {i};
          count := count + 1;
        } else {
          assert (set k | 0 <= k < i + 1 && endpoints[k].Available(now)) == counted;
        }
      }
    }
  }

  /** What a choice takes from the limiters. */
  function ChargeFor(c: Core, found: Option<nat>, batchSize: nat, now: nat): map<DirectRateLimiter, Bucket>
    requires Closed(c) && (found.Some? ==> found.value < |c.endpoints|)
  {
    if found.Some? then Charge(c, c.endpoints[found.value].url, batchSize, now) else c.buckets
  }

  ghost predicate Picked(es: seq<Entry>, found: Option<nat>) {
    if found.Some? then IsBest(es, found.value) else NoneAdmits(es)
  }

  lemma PickedIsBest(c: Core, batchSize: nat, now: nat, found: Option<nat>)
    requires Closed(c) && Picked(State.View(c, batchSize, now), found)
    ensures Best(c, batchSize, now) == found
  {
    var best := Best(c, batchSize, now);
    if found.Some? {
      BestUnique(State.View(c, batchSize, now), found.value, best.value);
    }
  }

  /** The state `LoadBalancer::new` builds: every endpoint healthy and out of cooldown, every limiter full. */
  ghost predicate IsInitial(c: Core, cfg: Config.BalancerConfig, now: nat)
    requires Closed(c) && Config.Complete(cfg)
  {
    var es := cfg.endpoints.value;
    && c.settings == SettingsOf(cfg) && c.client == ClientOf(cfg)
    && |c.endpoints| == |es|
    && (forall i :: 0 <= i < |es| ==> IsInitialEndpoint(c, c.endpoints[i], es[i], now))
    && (forall i, j :: 0 <= i < j < |es| ==> c.endpoints[i].metrics != c.endpoints[j].metrics)
    && c.limiters.Keys == Config.Urls(es)
    && (forall u, v :: u in c.limiters && v in c.limiters && u != v ==> c.limiters[u] != c.limiters[v])
  }

  ghost predicate IsInitialEndpoint(c: Core, ep: RpcEndpoint, e: Config.EndpointConfig, now: nat)
    requires Closed(c)
  {
    && Config.Usable(e)
    && ep == NewEndpoint(e.url, e.rateLimitPerSec, e.burstSize, e.weight.value, now, ep.metrics)
    && ep.metrics in c.metrics && c.metrics[ep.metrics] == InitMetrics(c.client.timeoutSecs)
    && e.url in c.limiters
    && c.buckets[c.limiters[e.url]] == NewBucket(e.burstSize, PeriodNanos(e.burstSize, e.rateLimitPerSec))
  }

  /** The endpoint records of a configuration, each with a metrics object of its own. */
  method InitialEndpoints(es: seq<Config.EndpointConfig>, timeoutSecs: u64, now: nat) returns (eps: seq<RpcEndpoint>)
    requires Config.UsableEndpoints(es)
    ensures |eps| == |es|
    ensures fresh(MetricsObjects(eps))
    ensures forall k :: 0 <= k < |es| ==>
      eps[k] == NewEndpoint(es[k].url, es[k].rateLimitPerSec, es[k].burstSize, es[k].weight.value, now, eps[k].metrics)
    ensures forall k :: 0 <= k < |es| ==> eps[k].metrics.Value() == InitMetrics(timeoutSecs)
    ensures forall k, l :: 0 <= k < l < |es| ==> eps[k].metrics != eps[l].metrics
  {
    eps := [];
    for i := 0 to |es|
      invariant |eps| == i
      invariant forall k :: 0 <= k < i ==> fresh(eps[k].metrics)
      invariant forall k :: 0 <= k < i ==>
        eps[k]
        == NewEndpoint(es[k].url, es[k].rateLimitPerSec, es[k].burstSize, es[k].weight.value, now, eps[k].metrics)
      invariant forall k :: 0 <= k < i ==> eps[k].metrics.Value() == InitMetrics(timeoutSecs)
      invariant forall k, l :: 0 <= k < l < i ==> eps[k].metrics != eps[l].metrics
    {
      var metrics := new EndpointMetrics(timeoutSecs);
      var e := es[i];
      eps := eps + [NewEndpoint(e.url, e.rateLimitPerSec, e.burstSize, e.weight.value, now, metrics)];
    }
  }

  /** A full limiter for every endpoint of a configuration. */
  method InitialLimiters(es: seq<Config.EndpointConfig>) returns (limiters: map<string, DirectRateLimiter>)
    requires Config.UsableEndpoints(es)
    ensures limiters.Keys == Config.Urls(es)
    ensures fresh(limiters.Values)
    ensures forall u, v :: u in limiters && v in limiters && u != v ==> limiters[u] != limiters[v]
    ensures forall k :: 0 <= k < |es| && es[k].url in limiters ==>
      limiters[es[k].url].Value() == NewBucket(es[k].burstSize, PeriodNanos(es[k].burstSize, es[k].rateLimitPerSec))
  {
    limiters := map[];
    for i := 0 to |es|
      invariant limiters.Keys == set k | 0 <= k < i :: es[k].url
      invariant forall u :: u in limiters ==> fresh(limiters[u])
      invariant forall u, v :: u in limiters && v in limiters && u != v ==> limiters[u] != limiters[v]
      invariant forall k :: 0 <= k < i ==>
        && es[k].url in limiters
        && limiters[es[k].url].Value()
           == NewBucket(es[k].burstSize, PeriodNanos(es[k].burstSize, es[k].rateLimitPerSec))
    {
      var limiter := CreateRateLimiter(es[i].burstSize, es[i].rateLimitPerSec);
      limiters := limiters[es[i].url := limiter];
    }
  }

  function SettingsOf(cfg: Config.BalancerConfig): Settings
    requires Config.Complete(cfg)
  {
    Settings(cfg.maxBatchSize.value, cfg.baseCooldownSecs.value, cfg.maxCooldownSecs.value,
             cfg.healthCheckIntervalSecs.value, cfg.healthCheckTimeoutSecs.value, cfg.latencySmoothingFactor.value)
  }

  function ClientOf(cfg: Config.BalancerConfig): Client
    requires Config.Complete(cfg)
  {
    Client(cfg.connectTimeoutMs.value, cfg.timeoutSecs.value,
           cfg.poolIdleTimeoutSecs.value, cfg.poolMaxIdlePerHost.value)
  }
}
