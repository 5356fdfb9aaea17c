/** `LoadBalancer::new`: the initial state satisfies the system invariant. */
module Startup {
  import opened RateLimiter
  import opened State
  import opened Balancer
  import opened Invariants
  import opened ConfigReloader
  import opened ReloadRuns
  import opened ConfigInForce
  import Config

  /** Startup from a configuration that finalizes; one that does not stops the program. */
  method Start(config: Config.Config, now: nat) returns (balancer: LoadBalancer)
    requires Config.Finalized(config).Ok?
    ensures fresh(balancer) && balancer.Valid()
    ensures Inv(System(balancer.Abs(), now, Idle))
    ensures InForce(balancer.Abs(), FinalizedBalancer(config))
    ensures Configured(balancer.Abs().endpoints, FinalizedBalancer(config).endpoints.value)
    ensures forall k :: 0 <= k < |balancer.endpoints| ==>
      StartsFresh(balancer.Abs(), balancer.endpoints[k], FinalizedBalancer(config).timeoutSecs.value)
  {
    Config.FinalizedIsComplete(config);
    var finalized := Config.Finalize(config);
    var cfg := finalized.value.balancer.value;
    balancer := new LoadBalancer(cfg, now);
    InitialInv(balancer.Abs(), cfg, now);
    StartupInstalls(balancer.Abs(), cfg, now);
  }

  lemma InitialInv(c: Core, cfg: Config.BalancerConfig, now: nat)
    requires Closed(c) && Config.Complete(cfg) && IsInitial(c, cfg, now)
    ensures Inv(System(c, now, Idle))
  {
    var es := cfg.endpoints.value;
    forall i | 0 <= i < |c.endpoints|
      ensures c.endpoints[i].url == es[i].url && RecordOk(c.endpoints[i])
      ensures c.endpoints[i].url in c.limiters
      ensures ValidLimits(c.endpoints[i].burstSize, c.endpoints[i].rateLimitPerSec)
      ensures Fits(c.buckets[c.limiters[c.endpoints[i].url]], c.endpoints[i])
    {
      assert IsInitialEndpoint(c, c.endpoints[i], es[i], now);
    }
    forall u | u in c.limiters
      ensures u in Urls(c.endpoints) && c.buckets[c.limiters[u]].Valid() && c.buckets[c.limiters[u]].last == 0
    {
      assert u in Config.Urls(es);
      var i :| 0 <= i < |es| && es[i].url == u;
      assert IsInitialEndpoint(c, c.endpoints[i], es[i], now);
      NewBucketUsable(es[i].burstSize, es[i].rateLimitPerSec, 0);
    }
  }
}
