/** A round of health checks as a whole: the order in which its results arrive does not matter. */
module HealthRounds {
  import opened Endpoint
  import opened Prelude
  import opened State
  import Cooldown
  import Smoothing

  ghost predicate DistinctMetrics(eps: seq<RpcEndpoint>) {
    forall i, j :: 0 <= i < j < |eps| ==> eps[i].metrics != eps[j].metrics
  }

  /** The result for a URL, if its check reported one. */
  function ResultFor(results: seq<HealthResult>, url: string): (r: Option<bool>)
    ensures r.None? ==> forall k :: 0 <= k < |results| ==> results[k].url != url
    ensures r.Some? ==> exists k :: 0 <= k < |results| && results[k] == HealthResult(url, r.value)
  {
    if results == [] then None
    else
      var last := results[|results| - 1];
      if last.url == url then Some(last.ok) else ResultFor(results[..|results| - 1], url)
  }

  /** Every check of a snapshot of `n` endpoints finishes once at most; one that was lost does not finish. */
  ghost predicate EachOnce(finished: seq<nat>, n: nat) {
    && (forall j :: 0 <= j < |finished| ==> finished[j] < n)
    && (forall j, k :: 0 <= j < k < |finished| ==> finished[j] != finished[k])
  }

  /** `results` are the results of checking a snapshot of `eps`, in the order in which the checks finished. */
  ghost predicate ResultsOf(eps: seq<RpcEndpoint>, finished: seq<nat>, results: seq<HealthResult>) {
    && EachOnce(finished, |eps|)
    && |results| == |finished|
    && forall j :: 0 <= j < |results| ==> results[j].url == eps[finished[j]].url
  }

  /** Because a snapshot has distinct URLs, no URL has two results. */
  lemma SnapshotResultsDistinct(eps: seq<RpcEndpoint>, finished: seq<nat>, results: seq<HealthResult>)
    requires DistinctUrls(eps) && ResultsOf(eps, finished, results)
    ensures DistinctResults(results)
  {
    forall j, k | 0 <= j < k < |results|
      ensures results[j].url != results[k].url
    {
      assert finished[j] < finished[k] || finished[k] < finished[j];
    }
  }

  /** The commit, stated endpoint by endpoint instead of result by result. */
  ghost predicate CommittedPointwise(c: Core, r: Core, results: seq<HealthResult>, timeoutSecs: u64, now: nat)
    requires Closed(c)
  {
    && r == c.(endpoints := r.endpoints, metrics := r.metrics)
    && |r.endpoints| == |c.endpoints|
    && r.metrics.Keys == c.metrics.Keys
    && (forall i :: 0 <= i < |c.endpoints| ==>
          r.endpoints[i] == match ResultFor(results, c.endpoints[i].url)
                            case Some(ok) => CheckedRecord(c, c.endpoints[i], ok, now)
                            case None => c.endpoints[i])
    && (forall i :: 0 <= i < |c.endpoints| ==>
          var ep := c.endpoints[i];
          r.metrics[ep.metrics] == match ResultFor(results, ep.url)
                                   case Some(ok) => CheckedMetrics(c, ep, c.metrics[ep.metrics], ok, timeoutSecs)
                                   case None => c.metrics[ep.metrics])
    && (forall m :: m in c.metrics && (forall i :: 0 <= i < |c.endpoints| ==> c.endpoints[i].metrics != m)
          ==> r.metrics[m] == c.metrics[m])
  }

  /** Each endpoint with a result is updated exactly once, by its own result; everything else is untouched. */
  lemma {:induction false} CommitIsPointwise(c: Core, results: seq<HealthResult>, timeoutSecs: u64, now: nat)
    requires Closed(c) && DistinctUrls(c.endpoints) && DistinctMetrics(c.endpoints) && DistinctResults(results)
    ensures CommittedPointwise(c, HealthCommitted(c, results, timeoutSecs, now), results, timeoutSecs, now)
    decreases |results|
  {
    if results != [] {
      CommitIsPointwise(c, results[..|results| - 1], timeoutSecs, now);
      LastCommitIsPointwise(c, results, timeoutSecs, now);
    }
  }

  lemma PointwiseKeepsIdentity(c: Core, r: Core, results: seq<HealthResult>, timeoutSecs: u64, now: nat, i: nat)
    requires Closed(c) && CommittedPointwise(c, r, results, timeoutSecs, now) && i < |c.endpoints|
    ensures r.endpoints[i].url == c.endpoints[i].url && r.endpoints[i].metrics == c.endpoints[i].metrics
  {
  }

  lemma {:induction false} LastCommitIsPointwise(c: Core, results: seq<HealthResult>, timeoutSecs: u64, now: nat)
    requires Closed(c) && DistinctUrls(c.endpoints) && DistinctMetrics(c.endpoints)
    requires DistinctResults(results) && results != []
    requires var front := results[..|results| - 1];
      CommittedPointwise(c, HealthCommitted(c, front, timeoutSecs, now), front, timeoutSecs, now)
    ensures CommittedPointwise(c, HealthCommitted(c, results, timeoutSecs, now), results, timeoutSecs, now)
  {
    var front := results[..|results| - 1];
    var mid := HealthCommitted(c, front, timeoutSecs, now);
    LastResultIsNew(results);
    forall i | 0 <= i < |c.endpoints|
      ensures mid.endpoints[i].url == c.endpoints[i].url && mid.endpoints[i].metrics == c.endpoints[i].metrics
    {
      PointwiseKeepsIdentity(c, mid, front, timeoutSecs, now, i);
    }
    CheckedPointwise(c, mid, results, timeoutSecs, now);
  }

  /** How a check that said `ok` may change a record. */
  ghost predicate Transition(c: Core, before: RpcEndpoint, after: RpcEndpoint, ok: bool, now: nat) {
    && after.healthy == ok && after.lastCheck == now
    && (ok && !before.healthy ==> after.cooldownAttempts == 0 && after.cooldownUntil == None)
    && (!ok && before.healthy ==>
          && after.cooldownAttempts == Min(before.cooldownAttempts + 1, U32_MAX)
          && after.cooldownUntil == Some(now + NANOS_PER_SEC * Cooldown.CooldownSecs(
               c.settings.baseCooldownSecs, c.settings.maxCooldownSecs, after.cooldownAttempts)))
    && (ok == before.healthy ==>
          after.cooldownAttempts == before.cooldownAttempts && after.cooldownUntil == before.cooldownUntil)
  }

  lemma CheckedTransition(c: Core, ep: RpcEndpoint, ok: bool, now: nat)
    ensures Transition(c, ep, CheckedRecord(c, ep, ok, now), ok, now)
  {
  }

  /** What a round of checks does to one endpoint's record, by what it was before and what the check said. */
  lemma {:induction false} RoundTransitions(c: Core, results: seq<HealthResult>, timeoutSecs: u64, now: nat, i: nat,
                                            ok: bool)
    requires Closed(c) && DistinctUrls(c.endpoints) && DistinctMetrics(c.endpoints) && DistinctResults(results)
    requires i < |c.endpoints| && ResultFor(results, c.endpoints[i].url) == Some(ok)
    ensures var r := HealthCommitted(c, results, timeoutSecs, now);
      |r.endpoints| == |c.endpoints| && Transition(c, c.endpoints[i], r.endpoints[i], ok, now)
  {
    CommitIsPointwise(c, results, timeoutSecs, now);
    CheckedTransition(c, c.endpoints[i], ok, now);
  }

  /** How a check that said `ok` may change the metrics. */
  ghost predicate CheckMeasured(m: Metrics, after: Metrics, wasHealthy: bool, ok: bool, timeoutSecs: u64) {
    && after.emaLatencyMs == m.emaLatencyMs && after.lastSelected == m.lastSelected
    && (ok && wasHealthy ==> after == m)
    && (ok && !wasHealthy ==>
          after.consecutiveFailures == 0 && after.emaErrorPenaltyMs == (m.emaErrorPenaltyMs + 1) / 2)
    && (!ok ==>
          && after.consecutiveFailures == (m.consecutiveFailures + 1) % 0x1_0000_0000
          && var q := Max(30_000, timeoutSecs * 1000 % 0x1_0000_0000_0000_0000);
          Smoothing.Distance(after.emaErrorPenaltyMs, q) == (Smoothing.Distance(m.emaErrorPenaltyMs, q) + 2) / 5)
  }

  lemma CheckMeasures(c: Core, ep: RpcEndpoint, m: Metrics, ok: bool, timeoutSecs: u64)
    ensures CheckMeasured(m, CheckedMetrics(c, ep, m, ok, timeoutSecs), ep.healthy, ok, timeoutSecs)
  {
    Smoothing.DecayHalves(m.emaErrorPenaltyMs);
    Smoothing.AttackContracts(m.emaErrorPenaltyMs, Max(30_000, Millis(timeoutSecs)));
  }

  /** And to its metrics: a recovery halves the penalty, a failed check is a timeout of the health check. */
  lemma {:induction false} RoundMetrics(c: Core, results: seq<HealthResult>, timeoutSecs: u64, now: nat, i: nat,
                                        ok: bool)
    requires Closed(c) && DistinctUrls(c.endpoints) && DistinctMetrics(c.endpoints) && DistinctResults(results)
    requires i < |c.endpoints| && ResultFor(results, c.endpoints[i].url) == Some(ok)
    ensures c.endpoints[i].metrics in HealthCommitted(c, results, timeoutSecs, now).metrics
    ensures var ep := c.endpoints[i];
      var after := HealthCommitted(c, results, timeoutSecs, now).metrics[ep.metrics];
      CheckMeasured(c.metrics[ep.metrics], after, ep.healthy, ok, timeoutSecs)
  {
    CommitIsPointwise(c, results, timeoutSecs, now);
    CheckMeasures(c, c.endpoints[i], c.metrics[c.endpoints[i].metrics], ok, timeoutSecs);
  }

  lemma LastResultIsNew(results: seq<HealthResult>)
    requires results != [] && DistinctResults(results)
    ensures ResultFor(results[..|results| - 1], results[|results| - 1].url) == None
  {
  }

  lemma CheckedPointwise(c: Core, mid: Core, results: seq<HealthResult>, timeoutSecs: u64, now: nat)
    requires Closed(c) && Closed(mid) && DistinctUrls(c.endpoints) && DistinctMetrics(c.endpoints) && results != []
    requires CommittedPointwise(c, mid, results[..|results| - 1], timeoutSecs, now)
    requires forall i :: 0 <= i < |c.endpoints| ==>
      mid.endpoints[i].url == c.endpoints[i].url && mid.endpoints[i].metrics == c.endpoints[i].metrics
    requires ResultFor(results[..|results| - 1], results[|results| - 1].url) == None
    ensures var last := results[|results| - 1];
      CommittedPointwise(c, Checked(mid, last.url, last.ok, timeoutSecs, now), results, timeoutSecs, now)
  {
    var last, front := results[|results| - 1], results[..|results| - 1];
    var r := Checked(mid, last.url, last.ok, timeoutSecs, now);
    var found := Find(mid.endpoints, last.url);
    forall i | 0 <= i < |c.endpoints|
      ensures c.endpoints[i].url == last.url <==> found == Some(i)
      ensures ResultFor(results, c.endpoints[i].url)
           == if found == Some(i) then Some(last.ok) else ResultFor(front, c.endpoints[i].url)
    {
    }
    if found.Some? {
      var k := found.value;
      var ep := c.endpoints[k];
      assert mid.endpoints[k] == ep && mid.metrics[ep.metrics] == c.metrics[ep.metrics];
      assert CheckedRecord(mid, ep, last.ok, now) == CheckedRecord(c, ep, last.ok, now);
      assert r.endpoints == mid.endpoints[k := CheckedRecord(c, ep, last.ok, now)];
      assert r.metrics == mid.metrics[ep.metrics := CheckedMetrics(c, ep, c.metrics[ep.metrics], last.ok, timeoutSecs)];
      UpdatePointwise(c, mid, r, results, timeoutSecs, now, k);
    }
  }

  /** The last result updates the record and the metrics at position `k`. */
  ghost predicate LastUpdates(c: Core, mid: Core, r: Core, results: seq<HealthResult>, timeoutSecs: u64, now: nat,
                              k: nat) {
    && Closed(c) && DistinctMetrics(c.endpoints) && results != [] && k < |c.endpoints|
    && (forall i :: 0 <= i < |c.endpoints| ==>
          ResultFor(results, c.endpoints[i].url)
          == if i == k then Some(results[|results| - 1].ok)
             else ResultFor(results[..|results| - 1], c.endpoints[i].url))
    && var ep, ok := c.endpoints[k], results[|results| - 1].ok;
    && k < |mid.endpoints|
    && r == mid.(endpoints := r.endpoints, metrics := r.metrics)
    && r.endpoints == mid.endpoints[k := CheckedRecord(c, ep, ok, now)]
    && r.metrics == mid.metrics[ep.metrics := CheckedMetrics(c, ep, c.metrics[ep.metrics], ok, timeoutSecs)]
  }

  lemma {:induction false} UpdatePointwise(c: Core, mid: Core, r: Core, results: seq<HealthResult>, timeoutSecs: u64,
                                           now: nat, k: nat)
    requires LastUpdates(c, mid, r, results, timeoutSecs, now, k)
    requires CommittedPointwise(c, mid, results[..|results| - 1], timeoutSecs, now)
    ensures CommittedPointwise(c, r, results, timeoutSecs, now)
  {
    forall i | 0 <= i < |c.endpoints|
      ensures c.endpoints[i].metrics == c.endpoints[k].metrics <==> i == k
      ensures r.endpoints[i] == if i == k then CheckedRecord(c, c.endpoints[k], results[|results| - 1].ok, now)
                                else mid.endpoints[i]
    {
    }
  }

  /** Two result lists that say the same about every URL commit to the same state. */
  lemma {:induction false} SameResultsSameCommit(c: Core, results: seq<HealthResult>, others: seq<HealthResult>,
                                                 timeoutSecs: u64, now: nat)
    requires Closed(c) && DistinctUrls(c.endpoints) && DistinctMetrics(c.endpoints)
    requires DistinctResults(results) && DistinctResults(others)
    requires forall i :: 0 <= i < |c.endpoints| ==>
      ResultFor(results, c.endpoints[i].url) == ResultFor(others, c.endpoints[i].url)
    ensures HealthCommitted(c, results, timeoutSecs, now) == HealthCommitted(c, others, timeoutSecs, now)
  {
    CommitIsPointwise(c, results, timeoutSecs, now);
    CommitIsPointwise(c, others, timeoutSecs, now);
    var r, o := HealthCommitted(c, results, timeoutSecs, now), HealthCommitted(c, others, timeoutSecs, now);
    assert r.endpoints == o.endpoints;
    forall m | m in c.metrics
      ensures r.metrics[m] == o.metrics[m]
    {
      if i :| 0 <= i < |c.endpoints| && c.endpoints[i].metrics == m {
        assert r.metrics[c.endpoints[i].metrics] == o.metrics[c.endpoints[i].metrics];
      }
    }
    assert r.metrics == o.metrics;
  }

  lemma {:induction false} ResultForMember(results: seq<HealthResult>, result: HealthResult)
    requires DistinctResults(results) && result in results
    ensures ResultFor(results, result.url) == Some(result.ok)
  {
  }

  /** The checks finish in any order: every permutation of the results commits to the same state. */
  lemma {:induction false} CommitOrderIrrelevant(c: Core, results: seq<HealthResult>, permuted: seq<HealthResult>,
                                                 timeoutSecs: u64, now: nat)
    requires Closed(c) && DistinctUrls(c.endpoints) && DistinctMetrics(c.endpoints)
    requires DistinctResults(results) && multiset(results) == multiset(permuted)
    ensures HealthCommitted(c, results, timeoutSecs, now) == HealthCommitted(c, permuted, timeoutSecs, now)
  {
    PermutedDistinct(results, permuted);
    forall i | 0 <= i < |c.endpoints|
      ensures ResultFor(results, c.endpoints[i].url) == ResultFor(permuted, c.endpoints[i].url)
    {
      SameResultFor(results, permuted, c.endpoints[i].url);
    }
    SameResultsSameCommit(c, results, permuted, timeoutSecs, now);
  }

  lemma {:induction false} SameResultFor(results: seq<HealthResult>, permuted: seq<HealthResult>, url: string)
    requires DistinctResults(results) && DistinctResults(permuted) && multiset(results) == multiset(permuted)
    ensures ResultFor(results, url) == ResultFor(permuted, url)
  {
    assert forall r :: r in results <==> r in multiset(results);
    assert forall r :: r in permuted <==> r in multiset(permuted);
    if ResultFor(results, url).Some? {
      ResultForMember(permuted, HealthResult(url, ResultFor(results, url).value));
    } else if ResultFor(permuted, url).Some? {
      ResultForMember(results, HealthResult(url, ResultFor(permuted, url).value));
    }
  }

  lemma PermutedDistinct(results: seq<HealthResult>, permuted: seq<HealthResult>)
    requires DistinctResults(results) && multiset(results) == multiset(permuted)
    ensures DistinctResults(permuted)
  {
    forall j, k | 0 <= j < k < |permuted|
      ensures permuted[j].url != permuted[k].url
    {
      assert permuted[j] in multiset(results) && permuted[k] in multiset(results);
      if permuted[j] == permuted[k] {
        TwiceInSeq(permuted, j, k);
        OnceInDistinct(results, permuted[j]);
      }
    }
  }

  lemma TwiceInSeq(s: seq<HealthResult>, j: nat, k: nat)
    requires j < k < |s| && s[j] == s[k]
    ensures multiset(s)[s[j]] >= 2
  {
    assert s == s[..k] + s[k..];
    assert s[..k][j] in multiset(s[..k]) && s[k..][0] in multiset(s[k..]);
  }

  lemma {:induction false} OnceInDistinct(s: seq<HealthResult>, r: HealthResult)
    requires DistinctResults(s)
    ensures multiset(s)[r] <= 1
  {
    if s != [] {
      var front := s[..|s| - 1];
      assert s == front + [s[|s| - 1]];
      OnceInDistinct(front, r);
      if s[|s| - 1] == r {
        assert r !in front;
      }
    }
  }
}
