/** Selection over whole runs prefers the most recently used endpoint. */
module SelectionRuns {
  import opened Prelude
  import opened Endpoint
  import opened FieldUpdates
  import opened Strategy
  import opened State
  import opened Invariants
  import opened StepEffects
  import Smoothing

  ghost function LastSelected(c: Core, i: nat): u64
    requires Closed(c) && i < |c.endpoints|
  {
    c.metrics[c.endpoints[i].metrics].lastSelected
  }

  /** Endpoint `k` has a weight whose tier ignores cost, and was selected later than every other of its weight. */
  ghost predicate Leads(c: Core, k: nat)
    requires Closed(c) && k < |c.endpoints|
  {
    && 0 < c.endpoints[k].weight
    && !UsesCost(ByWeight, c.endpoints[k].weight)
    && forall i :: 0 <= i < |c.endpoints| && i != k && c.endpoints[i].weight == c.endpoints[k].weight ==>
         LastSelected(c, i) < LastSelected(c, k)
  }

  /** At every selection endpoint `k` is available, its limiter admits, and the wall clock has not gone back. */
  ghost predicate StaysUsable(s: System, steps: seq<Step>, k: nat)
    requires Inv(s) && Run(s, steps)
    decreases |steps|
  {
    steps == []
    || (k < |s.core.endpoints|
        && (steps[0].Select? ==>
              && s.core.endpoints[k].Available(steps[0].now)
              && Reservable(BucketAt(s.core, s.core.endpoints[k].url), steps[0].batchSize, steps[0].now)
              && LastSelected(s.core, k) <= steps[0].secs)
        && (StepKeepsInv(s, steps[0]); StaysUsable(Next(s, steps[0]), steps[1..], k)))
  }

  /** Every selection goes to endpoint `k` or to a heavier one. */
  ghost predicate Sticks(s: System, steps: seq<Step>, k: nat)
    requires Inv(s) && Run(s, steps)
    decreases |steps|
  {
    steps == []
    || (k < |s.core.endpoints|
        && (steps[0].Select? ==>
              var best := Best(s.core, steps[0].batchSize, steps[0].now);
              best.Some? && (best.value == k || s.core.endpoints[best.value].weight > s.core.endpoints[k].weight))
        && (StepKeepsInv(s, steps[0]); Sticks(Next(s, steps[0]), steps[1..], k)))
  }

  /** Nobody of the same or lower weight is ahead of a usable leader. */
  lemma LeaderWins(c: Core, k: nat, batchSize: nat, now: nat)
    requires Closed(c) && k < |c.endpoints| && Leads(c, k)
    requires c.endpoints[k].Available(now) && Reservable(BucketAt(c, c.endpoints[k].url), batchSize, now)
    ensures var best := Best(c, batchSize, now);
      best.Some? && (best.value == k || c.endpoints[best.value].weight > c.endpoints[k].weight)
  {
    var es := View(c, batchSize, now);
    assert es[k].candidate && es[k].admits;
    var best := Best(c, batchSize, now);
    if best.None? {
      NoBestMeansNoneAdmits(c, batchSize, now);
    } else if best.value != k {
      assert Before(ByWeight, Keys(es), best.value, k);
    }
  }

  /** Available, of positive weight, and its limiter admits the batch. */
  ghost predicate Eligible(c: Core, i: nat, batchSize: nat, now: nat)
    requires Closed(c) && i < |c.endpoints|
  {
    var entry := EntryAt(c, i, batchSize, now);
    entry.candidate && entry.admits
  }

  ghost predicate HeavierEligible(c: Core, k: nat, batchSize: nat, now: nat)
    requires Closed(c) && k < |c.endpoints|
  {
    exists i ::
      0 <= i < |c.endpoints| && c.endpoints[i].weight > c.endpoints[k].weight && Eligible(c, i, batchSize, now)
  }

  /** An endpoint other than `k` of the same or lower weight can be used. */
  ghost predicate RivalEligible(c: Core, k: nat, batchSize: nat, now: nat)
    requires Closed(c) && k < |c.endpoints|
  {
    exists i ::
      && 0 <= i < |c.endpoints| && i != k
      && c.endpoints[i].weight <= c.endpoints[k].weight && Eligible(c, i, batchSize, now)
  }

  /**
   * Exactly when somebody of the same or lower weight gets a request instead of the leader: the leader is
   * not usable itself, nobody heavier is, and somebody of the same or lower weight is.
   */
  lemma RivalSelectedIff(c: Core, k: nat, batchSize: nat, now: nat)
    requires Closed(c) && k < |c.endpoints| && Leads(c, k)
    ensures var best := Best(c, batchSize, now);
      best.Some? && best.value != k && c.endpoints[best.value].weight <= c.endpoints[k].weight
      <==> (!Eligible(c, k, batchSize, now) && !HeavierEligible(c, k, batchSize, now)
            && RivalEligible(c, k, batchSize, now))
  {
    var es := View(c, batchSize, now);
    var best := Best(c, batchSize, now);
    assert forall i :: 0 <= i < |es| ==> es[i] == EntryAt(c, i, batchSize, now);
    if best.None? {
      NoBestMeansNoneAdmits(c, batchSize, now);
    } else {
      forall i | 0 <= i < |es| && i != best.value && es[i].candidate && es[i].admits
        ensures c.endpoints[i].weight <= c.endpoints[best.value].weight
      {
        assert Before(ByWeight, Keys(es), best.value, i);
      }
      if Eligible(c, k, batchSize, now) {
        LeaderWins(c, k, batchSize, now);
      }
    }
  }

  lemma {:induction false} FoldLastSelected(m: Metrics, ops: seq<FieldOp>)
    requires forall k :: 0 <= k < |ops| ==> !ops[k].Stamp?
    ensures FoldFields(m, ops).lastSelected == m.lastSelected
    decreases |ops|
  {
    if ops != [] {
      FoldLastSelected(ApplyField(m, ops[0]), ops[1..]);
    }
  }

  lemma {:induction false} OnlySelectionStamps(s: System, step: Step, ep: RpcEndpoint, m: Metrics)
    requires Closed(s.core) && Enabled(s, step)
    ensures FoldFields(m, OpsOn(s.core, step, ep)).lastSelected
      == if step.Select? && Winner(s.core, step.batchSize, step.now) == Some(ep.url) then step.secs else m.lastSelected
  {
    if step.Select? && Winner(s.core, step.batchSize, step.now) == Some(ep.url) {
      FieldsOfUpdate(m, Smoothing.Touch(step.secs));
    } else {
      FoldLastSelected(m, OpsOn(s.core, step, ep));
    }
  }

  lemma WinnerIs(c: Core, batchSize: nat, now: nat, i: nat)
    requires Closed(c) && DistinctUrls(c.endpoints) && i < |c.endpoints|
    ensures Winner(c, batchSize, now) == Some(c.endpoints[i].url) <==> Best(c, batchSize, now) == Some(i)
  {
  }

  /** Only a selection writes the time of the last selection. */
  lemma LastSelectedAfter(s: System, step: Step, i: nat)
    requires Inv(s) && Enabled(s, step) && Serving(step) && i < |s.core.endpoints|
    requires Closed(NextCore(s, step)) && i < |NextCore(s, step).endpoints|
    ensures LastSelected(NextCore(s, step), i)
      == if step.Select? && Best(s.core, step.batchSize, step.now) == Some(i)
         then step.secs
         else LastSelected(s.core, i)
  {
    var ep := s.core.endpoints[i];
    ServingFrame(s, step);
    assert SameIdentity(ep, NextCore(s, step).endpoints[i]);
    ServingMetrics(s, step, i);
    OnlySelectionStamps(s, step, ep, s.core.metrics[ep.metrics]);
    if step.Select? {
      WinnerIs(s.core, step.batchSize, step.now, i);
    }
  }

  /** In a tier that ignores cost, the first selection stamped later than the others of its weight makes a leader. */
  lemma SelectionMakesLeader(s: System, step: Step, k: nat)
    requires Inv(s) && Enabled(s, step) && step.Select? && Inv(Next(s, step))
    requires Best(s.core, step.batchSize, step.now) == Some(k) && !UsesCost(ByWeight, s.core.endpoints[k].weight)
    requires var eps := s.core.endpoints;
      forall i :: 0 <= i < |eps| && i != k && eps[i].weight == eps[k].weight ==>
      LastSelected(s.core, i) < step.secs
    ensures k < |NextCore(s, step).endpoints| && Leads(NextCore(s, step), k)
  {
    ServingFrame(s, step);
    var c, c' := s.core, NextCore(s, step);
    assert View(c, step.batchSize, step.now)[k].candidate;
    assert SameIdentity(c.endpoints[k], c'.endpoints[k]);
    LastSelectedAfter(s, step, k);
    forall i | 0 <= i < |c'.endpoints| && i != k && c'.endpoints[i].weight == c'.endpoints[k].weight
      ensures LastSelected(c', i) < LastSelected(c', k)
    {
      assert SameIdentity(c.endpoints[i], c'.endpoints[i]);
      LastSelectedAfter(s, step, i);
    }
  }

  lemma StepKeepsLead(s: System, step: Step, k: nat)
    requires Inv(s) && Enabled(s, step) && Serving(step) && Inv(Next(s, step))
    requires k < |s.core.endpoints| && Leads(s.core, k)
    requires step.Select? ==>
      && s.core.endpoints[k].Available(step.now)
      && Reservable(BucketAt(s.core, s.core.endpoints[k].url), step.batchSize, step.now)
      && LastSelected(s.core, k) <= step.secs
    ensures k < |NextCore(s, step).endpoints| && Leads(NextCore(s, step), k)
  {
    ServingFrame(s, step);
    var c, c' := s.core, NextCore(s, step);
    if step.Select? {
      LeaderWins(c, k, step.batchSize, step.now);
    }
    assert SameIdentity(c.endpoints[k], c'.endpoints[k]);
    LastSelectedAfter(s, step, k);
    forall i | 0 <= i < |c'.endpoints| && i != k && c'.endpoints[i].weight == c'.endpoints[k].weight
      ensures LastSelected(c', i) < LastSelected(c', k)
    {
      assert SameIdentity(c.endpoints[i], c'.endpoints[i]);
      LastSelectedAfter(s, step, i);
    }
  }

  /**
   * Once a tier 1 or tier 3 endpoint is the strictly most recently selected one of its weight, it keeps
   * getting every request that no heavier endpoint takes, for as long as it stays available, its
   * limiter keeps admitting, the clock does not go back and nothing is reloaded: endpoints of equal or
   * lower weight are never selected.
   */
  lemma {:induction false} SelectionSticks(s: System, steps: seq<Step>, k: nat)
    requires Inv(s) && Run(s, steps) && AllServing(steps)
    requires k < |s.core.endpoints| && Leads(s.core, k) && StaysUsable(s, steps, k)
    ensures Sticks(s, steps, k)
    decreases |steps|
  {
    if steps != [] {
      var step := steps[0];
      StepKeepsInv(s, step);
      if step.Select? {
        LeaderWins(s.core, k, step.batchSize, step.now);
      }
      StepKeepsLead(s, step, k);
      assert AllServing(steps[1..]);
      SelectionSticks(Next(s, step), steps[1..], k);
    }
  }
}
