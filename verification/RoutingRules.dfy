/** Which endpoint a request goes to, in terms of the records, metrics and buckets there are at that moment. */
module RoutingRules {
  import opened Prelude
  import opened Endpoint
  import opened State
  import opened Strategy
  import opened RateLimiter

  ghost function MetricsAt(c: Core, i: nat): Metrics
    requires Closed(c) && i < |c.endpoints|
  {
    c.metrics[c.endpoints[i].metrics]
  }

  /** Healthy, out of cooldown, of positive weight, and not short of tokens for the batch. */
  ghost predicate Ready(c: Core, i: nat, batchSize: nat, now: nat)
    requires Closed(c) && i < |c.endpoints|
  {
    var ep := c.endpoints[i];
    && ep.healthy
    && (ep.cooldownUntil.None? || ep.cooldownUntil.value <= now)
    && 1 <= ep.weight
    && batchSize <= 0xFFFF_FFFF
    && (batchSize > 0 && ep.url in c.limiters ==> HasRoom(c.buckets[c.limiters[ep.url]], batchSize, now))
  }

  /** Latency and penalty together, saturating, and never below 1000. */
  function Price(m: Metrics): nat {
    var sum := m.emaLatencyMs + m.emaErrorPenaltyMs;
    if sum < 1000 then 1000 else if sum > 0xFFFF_FFFF_FFFF_FFFF then 0xFFFF_FFFF_FFFF_FFFF else sum
  }

  /**
   * Why `i` comes before `j`: it is heavier; or, between weights 50 and 99, cheaper; or it was selected more
   * recently; or, all that being equal, it is listed first.
   */
  ghost predicate Prefers(c: Core, i: nat, j: nat)
    requires Closed(c) && i < |c.endpoints| && j < |c.endpoints|
  {
    var w, v := c.endpoints[i].weight, c.endpoints[j].weight;
    var m, n := MetricsAt(c, i), MetricsAt(c, j);
    || w > v
    || (w == v && 50 <= w < 100 && Price(m) < Price(n))
    || (w == v && (50 <= w < 100 ==> Price(m) == Price(n)) && m.lastSelected > n.lastSelected)
    || (w == v && (50 <= w < 100 ==> Price(m) == Price(n)) && m.lastSelected == n.lastSelected && i < j)
  }

  lemma BeforeMeansPrefers(c: Core, i: nat, j: nat, batchSize: nat, now: nat)
    requires Closed(c) && i < |c.endpoints| && j < |c.endpoints|
    ensures Before(ByWeight, Keys(View(c, batchSize, now)), i, j) <==> Prefers(c, i, j)
  {
    var es := View(c, batchSize, now);
    assert es[i] == EntryAt(c, i, batchSize, now) && es[j] == EntryAt(c, j, batchSize, now);
  }

  lemma EligibleMeansReady(c: Core, i: nat, batchSize: nat, now: nat)
    requires Closed(c) && i < |c.endpoints|
    ensures var es := View(c, batchSize, now); es[i].candidate && es[i].admits <==> Ready(c, i, batchSize, now)
  {
    var es, bucket := View(c, batchSize, now), BucketAt(c, c.endpoints[i].url);
    assert es[i] == EntryAt(c, i, batchSize, now);
    if bucket.Some? {
      AdmitsIff(bucket.value, batchSize, now);
    }
  }

  /** A request goes to `i` if and only if `i` is ready and preferred to everybody else who is. */
  lemma SelectedIff(c: Core, i: nat, batchSize: nat, now: nat)
    requires Closed(c) && i < |c.endpoints|
    ensures Best(c, batchSize, now) == Some(i)
      <==> Ready(c, i, batchSize, now)
           && forall j :: 0 <= j < |c.endpoints| && j != i && Ready(c, j, batchSize, now) ==> Prefers(c, i, j)
  {
    var es, best := View(c, batchSize, now), Best(c, batchSize, now);
    forall j | 0 <= j < |c.endpoints|
      ensures es[j].candidate && es[j].admits <==> Ready(c, j, batchSize, now)
      ensures Before(ByWeight, Keys(es), i, j) <==> Prefers(c, i, j)
    {
      EligibleMeansReady(c, j, batchSize, now);
      BeforeMeansPrefers(c, i, j, batchSize, now);
    }
    if IsBest(es, i) {
      BestUnique(es, i, best.value);
    }
  }

  /**
   * What a selection leaves: the chosen URL is returned and stamped, as many tokens as the batch has are gone from
   * its limiter, and nothing else has changed.
   */
  lemma SelectionLeaves(c: Core, i: nat, batchSize: nat, now: nat, secs: u64)
    requires Closed(c) && Best(c, batchSize, now) == Some(i)
    ensures Winner(c, batchSize, now) == Some(c.endpoints[i].url)
    ensures var r, m := Selected(c, batchSize, now, secs), c.endpoints[i].metrics;
      && r == c.(metrics := r.metrics, buckets := r.buckets)
      && r.metrics == c.metrics[m := c.metrics[m].(lastSelected := secs)]
      && r.buckets.Keys == c.buckets.Keys
      && (forall l :: l in c.buckets && !Charges(c.limiters, c.endpoints[i].url, l) ==> r.buckets[l] == c.buckets[l])
      && (forall l, more: nat :: l in c.buckets && Charges(c.limiters, c.endpoints[i].url, l) && batchSize > 0 ==>
            (r.buckets[l].Admits(more, now) <==> c.buckets[l].Admits(batchSize + more, now)))
      && (batchSize == 0 ==> r.buckets == c.buckets)
  {
    var url := c.endpoints[i].url;
    EligibleMeansReady(c, i, batchSize, now);
    if url in c.limiters && batchSize > 0 {
      var b := c.buckets[c.limiters[url]];
      AdmitsIff(b, batchSize, now);
      forall more: nat
        ensures b.Take(batchSize, now).Admits(more, now) <==> b.Admits(batchSize + more, now)
      {
        GrantedIsGone(b, batchSize, more, now);
      }
    }
  }

  /** A request is turned away if and only if nobody is ready. */
  lemma TurnedAwayIff(c: Core, batchSize: nat, now: nat)
    requires Closed(c)
    ensures Best(c, batchSize, now) == None <==> forall j :: 0 <= j < |c.endpoints| ==> !Ready(c, j, batchSize, now)
  {
    var es, best := View(c, batchSize, now), Best(c, batchSize, now);
    forall j | 0 <= j < |c.endpoints|
      ensures es[j].candidate && es[j].admits <==> Ready(c, j, batchSize, now)
    {
      EligibleMeansReady(c, j, batchSize, now);
    }
    if best.None? {
      NoBestMeansNoneAdmits(c, batchSize, now);
    }
  }
}
