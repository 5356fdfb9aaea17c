/** `src/utils/health.rs`: a round of health checks, from its snapshot to its commit. */
module Health {
  import opened Prelude
  import opened Endpoint
  import opened State
  import opened Balancer
  import opened HealthRounds
  import Cooldown

  /** The results of a round start from the URLs under the read lock, in list order. */
  method SnapshotUrls(balancer: LoadBalancer) returns (urls: seq<string>)
    ensures |urls| == |balancer.endpoints|
    ensures forall i :: 0 <= i < |urls| ==> urls[i] == balancer.endpoints[i].url
  {
    var eps := balancer.endpoints;
    urls := seq(|eps|, i requires 0 <= i < |eps| => eps[i].url);
  }

  /**
   * Collects the results of the checks of a snapshot as they finish: `finished` is the order in which they
   * do, `answers` what they say.
   */
  method GatherResults(balancer: LoadBalancer, finished: seq<nat>, answers: seq<bool>)
    returns (results: seq<HealthResult>)
    requires DistinctUrls(balancer.endpoints)
    requires EachOnce(finished, |balancer.endpoints|) && |answers| == |finished|
    ensures ResultsOf(balancer.endpoints, finished, results) && DistinctResults(results)
    ensures forall j :: 0 <= j < |results| ==> results[j].ok == answers[j]
  {
    var urls := SnapshotUrls(balancer);
    results := [];
    for j := 0 to |finished|
      invariant |results| == j
      invariant forall k :: 0 <= k < j ==> results[k] == HealthResult(urls[finished[k]], answers[k])
    {
      results := results + [HealthResult(urls[finished[j]], answers[j])];
    }
    SnapshotResultsDistinct(balancer.endpoints, finished, results);
  }

  /** The commit block of `perform_health_checks`, under the endpoints write lock. */
  method CommitResults(balancer: LoadBalancer, results: seq<HealthResult>, timeoutSecs: u64, now: nat)
    requires balancer.Valid()
    modifies balancer`endpoints, balancer.metricsObjects
    ensures balancer.Valid()
    ensures balancer.Abs() == HealthCommitted(old(balancer.Abs()), results, timeoutSecs, now)
  {
    ghost var before := balancer.Abs();
    for k := 0 to |results|
      invariant balancer.Valid()
      invariant balancer.Abs() == HealthCommitted(before, results[..k], timeoutSecs, now)
    {
      assert results[..k + 1][..k] == results[..k];
      CommitResult(balancer, results[k], timeoutSecs, now);
    }
    assert results[..|results|] == results;
  }

  method CommitResult(balancer: LoadBalancer, result: HealthResult, timeoutSecs: u64, now: nat)
    requires balancer.Valid()
    modifies balancer`endpoints, balancer.metricsObjects
    ensures balancer.Valid()
    ensures balancer.Abs() == Checked(old(balancer.Abs()), result.url, result.ok, timeoutSecs, now)
  {
    var found := Find(balancer.endpoints, result.url);
    if found.Some? {
      UpdateMetrics(balancer, found.value, result.ok, timeoutSecs);
      UpdateRecord(balancer, found.value, result.ok, now);
    }
  }

  /** Health, check time, and the reset or the cooldown that goes with a transition. */
  method UpdateRecord(balancer: LoadBalancer, i: nat, ok: bool, now: nat)
    requires balancer.Valid() && i < |balancer.endpoints|
    modifies balancer`endpoints
    ensures balancer.Valid()
    ensures var c := old(balancer.Abs());
      balancer.Abs() == c.(endpoints := c.endpoints[i := CheckedRecord(c, c.endpoints[i], ok, now)])
  {
    var ep := balancer.endpoints[i];
    var wasHealthy := ep.healthy;
    ep := ep.(healthy := ok, lastCheck := now);
    if ok && !wasHealthy {
      ep := ep.(cooldownAttempts := 0, cooldownUntil := None);
    } else if !ok && wasHealthy {
      ep := Cooldown.Triggered(ep, balancer.settings.baseCooldownSecs, balancer.settings.maxCooldownSecs, now);
    }
    balancer.endpoints := balancer.endpoints[i := ep];
  }

  /** A recovery decays the penalty, a failed check counts as a timeout of the health check. */
  method UpdateMetrics(balancer: LoadBalancer, i: nat, ok: bool, timeoutSecs: u64)
    requires balancer.Valid() && i < |balancer.endpoints|
    modifies balancer.metricsObjects
    ensures balancer.Valid()
    ensures var c, ep := old(balancer.Abs()), balancer.endpoints[i];
      var m := CheckedMetrics(c, ep, c.metrics[ep.metrics], ok, timeoutSecs);
      balancer.Abs() == c.(metrics := c.metrics[ep.metrics := m])
  {
    ghost var c := balancer.Abs();
    var ep := balancer.endpoints[i];
    if ok {
      if !ep.healthy {
        ep.metrics.Recover();
      }
    } else {
      ep.metrics.Update(Failure(Timeout, Millis(timeoutSecs)), balancer.settings.smoothing);
    }
    ghost var m := CheckedMetrics(c, ep, c.metrics[ep.metrics], ok, timeoutSecs);
    assert balancer.Abs().metrics == c.metrics[ep.metrics := m];
  }
}
