/** No metrics update is lost across reloads: clones of a record share its metrics object. */
module MetricsRuns {
  import opened Endpoint
  import opened State
  import opened Invariants
  import opened StepEffects
  import opened FieldUpdates

  /** Every atomic operation on the metrics of a URL since its endpoint was last created, in the order they happened. */
  datatype History = Absent | Since(initial: Metrics, ops: seq<FieldOp>)

  ghost function HistoryAfter(s: System, step: Step, url: string, h: History): History
    requires Inv(s) && Enabled(s, step)
  {
    if step.CommitEndpoints? then
      if url !in Urls(s.phase.plan.endpoints) then Absent
      else if Present(s.core, url) then h
      else Since(InitMetrics(s.core.client.timeoutSecs), [])
    else if Serving(step) && Present(s.core, url) && h.Since? then
      h.(ops := h.ops + OpsOn(s.core, step, RecordOf(s.core, url)))
    else h
  }

  ghost function HistoryOf(s: System, steps: seq<Step>, url: string, h: History): History
    requires Inv(s) && Run(s, steps)
    decreases |steps|
  {
    if steps == [] then h
    else
      StepKeepsInv(s, steps[0]);
      HistoryOf(Next(s, steps[0]), steps[1..], url, HistoryAfter(s, steps[0], url, h))
  }

  /** The metrics of a configured URL are the fold of its history. */
  ghost predicate Explains(c: Core, url: string, h: History)
    requires Closed(c)
  {
    Present(c, url) ==> h.Since? && c.metrics[RecordOf(c, url).metrics] == FoldFields(h.initial, h.ops)
  }

  lemma ServingExplains(s: System, step: Step, url: string, h: History)
    requires Inv(s) && Enabled(s, step) && Serving(step) && Closed(NextCore(s, step))
    requires Explains(s.core, url, h)
    ensures Explains(NextCore(s, step), url, HistoryAfter(s, step, url, h))
  {
    ServingRecordOf(s, step, url);
    if Present(s.core, url) {
      var i := Find(s.core.endpoints, url).value;
      ServingMetrics(s, step, i);
      ServingFrame(s, step);
      assert SameIdentity(s.core.endpoints[i], NextCore(s, step).endpoints[i]);
      ServingRecord(s, step, i);
      FoldFieldsAppend(h.initial, h.ops, OpsOn(s.core, step, RecordOf(s.core, url)));
    }
  }

  lemma CommitExplains(s: System, url: string, h: History)
    requires Inv(s) && Enabled(s, CommitEndpoints) && Closed(NextCore(s, CommitEndpoints))
    requires Explains(s.core, url, h)
    ensures Explains(NextCore(s, CommitEndpoints), url, HistoryAfter(s, CommitEndpoints, url, h))
  {
    var plan := s.phase.plan;
    if url in Urls(plan.endpoints) {
      var j :| 0 <= j < |plan.endpoints| && plan.endpoints[j].url == url;
      RecordIs(NextCore(s, CommitEndpoints), j);
      if Present(s.core, url) {
        var i := Find(s.core.endpoints, url).value;
        assert s.core.endpoints[i].metrics == plan.endpoints[j].metrics;
      }
    }
  }

  lemma StepExplains(s: System, step: Step, url: string, h: History)
    requires Inv(s) && Enabled(s, step) && Inv(Next(s, step))
    requires Explains(s.core, url, h)
    ensures Explains(Next(s, step).core, url, HistoryAfter(s, step, url, h))
  {
    if Serving(step) {
      ServingExplains(s, step, url, h);
    } else if step.CommitEndpoints? {
      CommitExplains(s, url, h);
    } else if step.TakeSnapshot? {
      assert Present(s.core, url) ==> RecordOf(s.core, url).metrics !in step.newMetrics;
    }
  }

  /** Every field of the metrics is the fold of the operations on it. */
  ghost predicate FieldwiseExplains(c: Core, url: string, h: History)
    requires Closed(c)
  {
    Present(c, url) ==> h.Since? && forall field ::
      SameField(c.metrics[RecordOf(c, url).metrics], FoldFields(h.initial, Only(h.ops, field)), field)
  }

  lemma {:induction false} ExplainsFields(c: Core, url: string, h: History)
    requires Closed(c) && Explains(c, url, h)
    ensures FieldwiseExplains(c, url, h)
  {
    if Present(c, url) {
      forall field: Field
        ensures SameField(c.metrics[RecordOf(c, url).metrics], FoldFields(h.initial, Only(h.ops, field)), field)
      {
        FieldTakesItsOperations(h.initial, h.initial, h.ops, field);
      }
    }
  }

  /**
   * In every interleaving of outcomes, whole or operation by operation, selections, health commits and the
   * separate steps of reloads: every field of the metrics of a configured endpoint is the fold of all
   * operations on that field since the endpoint was created.
   */
  lemma {:induction false} NoUpdateLost(s: System, steps: seq<Step>, url: string, h: History)
    requires Inv(s) && Run(s, steps) && Explains(s.core, url, h)
    ensures Explains(Exec(s, steps).core, url, HistoryOf(s, steps, url, h))
    ensures FieldwiseExplains(Exec(s, steps).core, url, HistoryOf(s, steps, url, h))
    decreases |steps|
  {
    if steps == [] {
      ExplainsFields(s.core, url, h);
    } else {
      StepKeepsInv(s, steps[0]);
      StepExplains(s, steps[0], url, h);
      NoUpdateLost(Next(s, steps[0]), steps[1..], url, HistoryAfter(s, steps[0], url, h));
    }
  }
}
