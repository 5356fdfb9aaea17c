/** The effect of one step on one endpoint: on its record, and on its metrics object. */
module StepEffects {
  import opened Prelude
  import opened Endpoint
  import opened FieldUpdates
  import opened State
  import opened Invariants
  import opened HealthRounds
  import Smoothing

  ghost predicate Present(c: Core, url: string) {
    url in Urls(c.endpoints)
  }

  /** The record of a configured URL. */
  ghost function RecordOf(c: Core, url: string): (ep: RpcEndpoint)
    requires Present(c, url)
    ensures ep.url == url && exists i :: 0 <= i < |c.endpoints| && c.endpoints[i] == ep
  {
    c.endpoints[Find(c.endpoints, url).value]
  }

  lemma RecordIs(c: Core, i: nat)
    requires DistinctUrls(c.endpoints) && i < |c.endpoints|
    ensures Present(c, c.endpoints[i].url) && RecordOf(c, c.endpoints[i].url) == c.endpoints[i]
  {
  }

  /** What a serving step makes of one record. */
  ghost function RecordAfter(c: Core, step: Step, ep: RpcEndpoint): RpcEndpoint {
    match step
    case MarkRateLimited(url, now) => if url == ep.url then Cooling(c, ep, now) else ep
    case MarkUnhealthy(url, now) => if url == ep.url && ep.healthy then Cooling(c, ep.(healthy := false), now) else ep
    case CommitHealth(results, _, base, now) =>
      (match ResultFor(results, ep.url)
       case Some(ok) => CheckedRecord(WithBase(c, base), ep, ok, now)
       case None => ep)
    case _ => ep
  }

  /** The atomic operations a serving step applies to the metrics object of one endpoint. */
  ghost function OpsOn(c: Core, step: Step, ep: RpcEndpoint): seq<FieldOp>
    requires Closed(c)
  {
    match step
    case Select(batchSize, now, secs) =>
      if Winner(c, batchSize, now) == Some(ep.url) then FieldsOf(Smoothing.Touch(secs)) else []
    case Observe(url, outcome) =>
      if url == ep.url then FieldsOf(Smoothing.Observe(outcome, c.settings.smoothing)) else []
    case ObserveField(url, op) =>
      if url == ep.url then [op] else []
    case CommitHealth(results, timeoutSecs, _, _) =>
      (match ResultFor(results, ep.url)
       case None => []
       case Some(ok) =>
         if !ok then FieldsOf(Smoothing.Observe(Failure(Timeout, Millis(timeoutSecs)), c.settings.smoothing))
         else if ep.healthy then []
         else FieldsOf(Smoothing.Recover))
    case _ => []
  }

  lemma {:induction false} HealthRecord(c: Core, step: Step, i: nat)
    requires Closed(c) && Sound(c, c.endpoints) && i < |c.endpoints|
    requires step.CommitHealth? && DistinctResults(step.results)
    ensures var r := RoundCommitted(c, step.results, step.timeoutSecs, step.base, step.now);
      |r.endpoints| == |c.endpoints| && r.endpoints[i] == RecordAfter(c, step, c.endpoints[i])
  {
    CommitIsPointwise(WithBase(c, step.base), step.results, step.timeoutSecs, step.now);
  }

  lemma ServingRecord(s: System, step: Step, i: nat)
    requires Inv(s) && Enabled(s, step) && Serving(step) && i < |s.core.endpoints|
    ensures |NextCore(s, step).endpoints| == |s.core.endpoints|
    ensures NextCore(s, step).endpoints[i] == RecordAfter(s.core, step, s.core.endpoints[i])
  {
    if step.CommitHealth? {
      HealthRecord(s.core, step, i);
    }
  }

  /** The same, by URL. */
  lemma ServingRecordOf(s: System, step: Step, url: string)
    requires Inv(s) && Enabled(s, step) && Serving(step)
    ensures Present(NextCore(s, step), url) <==> Present(s.core, url)
    ensures Present(s.core, url) ==>
      RecordOf(NextCore(s, step), url) == RecordAfter(s.core, step, RecordOf(s.core, url))
  {
    ServingFrame(s, step);
    StepKeepsInv(s, step);
    SameUrls(s.core.endpoints, NextCore(s, step).endpoints);
    if Present(s.core, url) {
      var i := Find(s.core.endpoints, url).value;
      ServingRecord(s, step, i);
      RecordIs(NextCore(s, step), i);
    }
  }

  /** In `r`, the metrics of endpoint `i` are those of `c` after the updates of the step. */
  ghost predicate MetricsFollow(c: Core, step: Step, i: nat, r: Core)
    requires Closed(c) && i < |c.endpoints|
  {
    var ep := c.endpoints[i];
    ep.metrics in r.metrics && r.metrics[ep.metrics] == FoldFields(c.metrics[ep.metrics], OpsOn(c, step, ep))
  }

  lemma SelectMetrics(c: Core, step: Step, i: nat)
    requires Closed(c) && Sound(c, c.endpoints) && i < |c.endpoints| && step.Select?
    ensures MetricsFollow(c, step, i, Selected(c, step.batchSize, step.now, step.secs))
  {
    var ep, best := c.endpoints[i], Best(c, step.batchSize, step.now);
    if best.Some? && best.value != i {
      assert c.endpoints[best.value].metrics != ep.metrics && c.endpoints[best.value].url != ep.url;
    }
    FieldsOfUpdate(c.metrics[ep.metrics], Smoothing.Touch(step.secs));
  }

  lemma ObserveMetrics(c: Core, step: Step, i: nat)
    requires Closed(c) && Sound(c, c.endpoints) && i < |c.endpoints| && step.Observe?
    ensures MetricsFollow(c, step, i, Observed(c, step.url, step.outcome))
  {
    var ep, found := c.endpoints[i], Find(c.endpoints, step.url);
    if found.Some? && found.value != i {
      assert c.endpoints[found.value].metrics != ep.metrics && c.endpoints[found.value].url != ep.url;
    }
    FieldsOfUpdate(c.metrics[ep.metrics], Smoothing.Observe(step.outcome, c.settings.smoothing));
  }

  lemma ObserveFieldMetrics(c: Core, step: Step, i: nat)
    requires Closed(c) && Sound(c, c.endpoints) && i < |c.endpoints| && step.ObserveField?
    ensures MetricsFollow(c, step, i, FieldObserved(c, step.url, step.op))
  {
    var ep, found := c.endpoints[i], Find(c.endpoints, step.url);
    if found.Some? && found.value != i {
      assert c.endpoints[found.value].metrics != ep.metrics && c.endpoints[found.value].url != ep.url;
    }
    assert [step.op][1..] == [];
  }

  lemma {:induction false} HealthMetrics(c: Core, step: Step, i: nat)
    requires Closed(c) && Sound(c, c.endpoints) && i < |c.endpoints|
    requires step.CommitHealth? && DistinctResults(step.results)
    ensures MetricsFollow(c, step, i, RoundCommitted(c, step.results, step.timeoutSecs, step.base, step.now))
  {
    var ep := c.endpoints[i];
    CommitIsPointwise(WithBase(c, step.base), step.results, step.timeoutSecs, step.now);
    HealthOps(c, step, ep, c.metrics[ep.metrics]);
  }

  /** The operations of a check amount to what it does to the metrics as a whole. */
  lemma {:induction false} HealthOps(c: Core, step: Step, ep: RpcEndpoint, m: Metrics)
    requires Closed(c) && step.CommitHealth?
    ensures FoldFields(m, OpsOn(c, step, ep))
      == match ResultFor(step.results, ep.url)
         case Some(ok) => CheckedMetrics(WithBase(c, step.base), ep, m, ok, step.timeoutSecs)
         case None => m
  {
    FieldsOfUpdate(m, Smoothing.Recover);
    FieldsOfUpdate(m, Smoothing.Observe(Failure(Timeout, Millis(step.timeoutSecs)), c.settings.smoothing));
  }

  /** A serving step changes the metrics of an endpoint by exactly the updates addressed to its URL. */
  lemma ServingMetrics(s: System, step: Step, i: nat)
    requires Inv(s) && Enabled(s, step) && Serving(step) && i < |s.core.endpoints|
    ensures MetricsFollow(s.core, step, i, NextCore(s, step))
  {
    match step
    case Select(_, _, _) => SelectMetrics(s.core, step, i);
    case Observe(_, _) => ObserveMetrics(s.core, step, i);
    case ObserveField(_, _) => ObserveFieldMetrics(s.core, step, i);
    case CommitHealth(_, _, _, _) => HealthMetrics(s.core, step, i);
    case _ =>
  }

  /** A round whose snapshot was taken in any reachable state may commit in any later one, whatever was reloaded. */
  lemma RoundMayCommit(s: System, t: System, finished: seq<nat>, results: seq<HealthResult>, timeoutSecs: u64,
                       base: u64, now: nat)
    requires Inv(s) && ResultsOf(s.core.endpoints, finished, results) && t.clock <= now
    ensures Enabled(t, CommitHealth(results, timeoutSecs, base, now))
  {
    SnapshotResultsDistinct(s.core.endpoints, finished, results);
  }
}
