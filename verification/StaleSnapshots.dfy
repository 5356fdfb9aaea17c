/**
 * A reload that commits a snapshot taken before a trigger: exactly when that undoes a cooldown, and a run in
 * which it does.
 */
module StaleSnapshots {
  import opened Prelude
  import opened Endpoint
  import opened State
  import opened Strategy
  import opened Invariants
  import opened StepEffects
  import opened CooldownRuns
  import opened SelectionRuns
  import Config

  lemma CommittedRecord(s: System, j: nat)
    requires Inv(s) && s.phase.Snapshotted? && j < |s.phase.plan.endpoints|
    ensures var t, ep := Next(s, CommitEndpoints), s.phase.plan.endpoints[j];
      Present(t.core, ep.url) && RecordOf(t.core, ep.url) == ep
  {
    RecordIs(NextCore(s, CommitEndpoints), j);
  }

  /** A reload takes its snapshot of `url`, and `steps` are served before it commits. */
  ghost predicate ServedMeanwhile(s: System, snapshot: Step, url: string, steps: seq<Step>, t: System) {
    && PlanStep(s, snapshot) && Present(s.core, url) && url in Config.Urls(snapshot.cfg)
    && Inv(Next(s, snapshot)) && Run(Next(s, snapshot), steps) && AllServing(steps)
    && t == Exec(Next(s, snapshot), steps)
  }

  /** What the commit leaves of a record is what the snapshot had of it. */
  ghost predicate Restored(c: Core, url: string, ep: RpcEndpoint) {
    Present(c, url) && RecordOf(c, url).healthy == ep.healthy && RecordOf(c, url).cooldownUntil == ep.cooldownUntil
  }

  /** The commit puts the record of the snapshot in place, whatever has happened to the endpoint since. */
  lemma {:induction false} StaleCommitRestores(s: System, snapshot: Step, url: string, steps: seq<Step>, t: System)
    requires ServedMeanwhile(s, snapshot, url, steps, t)
    ensures Inv(t) && Enabled(t, CommitEndpoints)
    ensures Restored(NextCore(t, CommitEndpoints), url, RecordOf(s.core, url))
  {
    ServingRunKeepsPhase(Next(s, snapshot), steps);
    var k :| 0 <= k < |snapshot.cfg| && snapshot.cfg[k].url == url;
    PlannedKeepsCooldown(s, snapshot, url, k);
    CommittedRecord(t, k);
  }

  lemma PlannedKeepsCooldown(s: System, snapshot: Step, url: string, k: nat)
    requires PlanStep(s, snapshot) && Present(s.core, url)
    requires k < |snapshot.cfg| && snapshot.cfg[k].url == url
    ensures var planned, ep := snapshot.plan.endpoints[k], RecordOf(s.core, url);
      planned.url == url && planned.healthy == ep.healthy && planned.cooldownUntil == ep.cooldownUntil
  {
    var found := PlannedOrigin(s, snapshot, k);
  }

  /** Unavailable at every moment of `[from, until)`. */
  ghost predicate OutBetween(ep: RpcEndpoint, from: nat, until: nat) {
    forall now :: from <= now < until ==> !ep.Available(now)
  }

  lemma OutBetweenIff(ep: RpcEndpoint, from: nat, until: nat)
    requires from < until
    ensures OutBetween(ep, from, until)
      <==> !ep.healthy || (ep.cooldownUntil.Some? && until <= ep.cooldownUntil.value)
  {
    var last := until - 1;
    assert ep.healthy && (ep.cooldownUntil.None? || ep.cooldownUntil.value < until) ==> ep.Available(last);
  }

  ghost predicate StaysOut(c: Core, url: string, from: nat, until: nat) {
    Present(c, url) && OutBetween(RecordOf(c, url), from, until)
  }

  /**
   * Whatever is served between a snapshot and its commit, and whatever deadline that sets: after the commit
   * the endpoint stays out until the deadline if and only if it was unhealthy, or in cooldown that long,
   * already when the snapshot was taken.
   */
  lemma {:induction false} StaleCommitKeepsOutIff(s: System, snapshot: Step, url: string, steps: seq<Step>, t: System,
                                                  until: nat)
    requires ServedMeanwhile(s, snapshot, url, steps, t) && t.clock < until
    ensures Inv(t) && Enabled(t, CommitEndpoints)
    ensures var ep := RecordOf(s.core, url);
      StaysOut(NextCore(t, CommitEndpoints), url, t.clock, until)
      <==> !ep.healthy || (ep.cooldownUntil.Some? && until <= ep.cooldownUntil.value)
  {
    StaleCommitRestores(s, snapshot, url, steps, t);
    RestoredStaysOutIff(NextCore(t, CommitEndpoints), url, RecordOf(s.core, url), t.clock, until);
  }

  lemma RestoredStaysOutIff(c: Core, url: string, ep: RpcEndpoint, from: nat, until: nat)
    requires Restored(c, url, ep) && from < until
    ensures StaysOut(c, url, from, until)
      <==> !ep.healthy || (ep.cooldownUntil.Some? && until <= ep.cooldownUntil.value)
  {
    OutBetweenIff(RecordOf(c, url), from, until);
  }

  // ---- A trigger that is undone ----

  /** From `u`, `first` and then `rest` are served up to `t`. */
  ghost predicate Followed(u: System, first: Step, rest: seq<Step>, t: System) {
    && Inv(u) && Enabled(u, first) && Serving(first)
    && Inv(Next(u, first)) && Run(Next(u, first), rest) && AllServing(rest) && t == Exec(Next(u, first), rest)
  }

  /**
   * A trigger between the snapshot and the commit: at `u` it puts the endpoint out until `until`, and what is served
   * `after` it does not disturb that.
   */
  ghost predicate TriggeredMeanwhile(s: System, snapshot: Step, url: string, before: seq<Step>, u: System,
                                     trigger: Step, after: seq<Step>, t: System, until: nat)
  {
    && ServedMeanwhile(s, snapshot, url, before, u) && Followed(u, trigger, after, t)
    && Present(u.core, url) && Triggers(u.core, trigger, RecordOf(u.core, url))
    && RecordOf(u.core, url).cooldownAttempts < 63
    && var attempts := RecordOf(u.core, url).cooldownAttempts + 1;
    && until == TimeOf(u, trigger) + Backoff(Seen(u.core, trigger), attempts)
    && Undisturbed(Next(u, trigger), after, url, true, UsesLonger(u.core, trigger, attempts)) && t.clock < until
  }

  /**
   * The trigger holds until the commit, and the commit lets requests through before the deadline it has set, if and
   * only if the endpoint was healthy and not in cooldown that long when the snapshot was taken.
   */
  lemma {:induction false} TriggerUndoneIff(s: System, snapshot: Step, url: string, before: seq<Step>, u: System,
                                            trigger: Step, after: seq<Step>, t: System, until: nat)
    requires TriggeredMeanwhile(s, snapshot, url, before, u, trigger, after, t, until)
    ensures StaysOut(t.core, url, t.clock, until)
    ensures Inv(t) && Enabled(t, CommitEndpoints)
    ensures var ep := RecordOf(s.core, url);
      !StaysOut(NextCore(t, CommitEndpoints), url, t.clock, until)
      <==> ep.healthy && (ep.cooldownUntil.None? || ep.cooldownUntil.value < until)
  {
    TriggerHolds(s, snapshot, url, before, u, trigger, after, t, until);
    FollowedIsServed(s, snapshot, url, before, u, trigger, after, t);
    StaleCommitKeepsOutIff(s, snapshot, url, before + ([trigger] + after), t, until);
  }

  /** Up to the commit, the trigger does what it should. */
  lemma {:induction false} TriggerHolds(s: System, snapshot: Step, url: string, before: seq<Step>, u: System,
                                        trigger: Step, after: seq<Step>, t: System, until: nat)
    requires TriggeredMeanwhile(s, snapshot, url, before, u, trigger, after, t, until)
    ensures StaysOut(t.core, url, t.clock, until)
  {
    ServingRunKeepsPhase(Next(s, snapshot), before);
    CooldownExclusion(u, trigger, url, Next(u, trigger), after, until);
    StillOut(t.core, url, t.clock, until);
  }

  lemma {:induction false} FollowedIsRun(u: System, first: Step, rest: seq<Step>, t: System)
    requires Followed(u, first, rest, t)
    ensures Run(u, [first] + rest) && Exec(u, [first] + rest) == t && AllServing([first] + rest)
  {
    RunPrepend(u, first, rest);
  }

  lemma {:induction false} FollowedIsServed(s: System, snapshot: Step, url: string, before: seq<Step>, u: System,
                                            first: Step, rest: seq<Step>, t: System)
    requires ServedMeanwhile(s, snapshot, url, before, u) && Followed(u, first, rest, t)
    ensures ServedMeanwhile(s, snapshot, url, before + ([first] + rest), t)
  {
    FollowedIsRun(u, first, rest, t);
    ServedOn(s, snapshot, url, before, u, [first] + rest);
  }

  lemma {:induction false} ServedOn(s: System, snapshot: Step, url: string, before: seq<Step>, u: System,
                                    more: seq<Step>)
    requires ServedMeanwhile(s, snapshot, url, before, u) && Run(u, more) && AllServing(more)
    ensures ServedMeanwhile(s, snapshot, url, before + more, Exec(u, more))
  {
    RunAppend(Next(s, snapshot), before, more);
    assert AllServing(before + more);
  }

  lemma StillOut(c: Core, url: string, from: nat, until: nat)
    requires OutUntil(c, url, until)
    ensures StaysOut(c, url, from, until)
  {
  }

  /** What a run in which a trigger is undone starts from: an available endpoint, and cooldowns that work. */
  ghost predicate Undoable(s: System, snapshot: Step, url: string, now: nat) {
    && PlanStep(s, snapshot) && Present(s.core, url) && url in Config.Urls(snapshot.cfg) && snapshot.now <= now
    && RecordOf(s.core, url).Available(now) && RecordOf(s.core, url).cooldownAttempts < 63
    && 0 < s.core.settings.baseCooldownSecs && 0 < s.core.settings.maxCooldownSecs
  }

  /** A 429 between snapshot and commit puts the endpoint out. */
  lemma {:induction false} MarkPutsOut(s: System, snapshot: Step, url: string, now: nat)
    requires Undoable(s, snapshot, url, now)
    ensures var first := Next(s, snapshot);
      && Inv(first) && Enabled(first, MarkRateLimited(url, now)) && Inv(Next(first, MarkRateLimited(url, now)))
      && var c := NextCore(first, MarkRateLimited(url, now));
      && Present(c, url) && !RecordOf(c, url).Available(now)
  {
    StepKeepsInv(s, snapshot);
    SnapshotKeepsRecord(s, snapshot, url);
    MarkOnce(Next(s, snapshot), url, now);
    TriggerFailsIff(s.core, RecordOf(s.core, url), now);
    SameCooling(s.core, NextCore(s, snapshot), RecordOf(s.core, url), now);
  }

  lemma SameCooling(c: Core, c': Core, ep: RpcEndpoint, now: nat)
    requires c'.settings == c.settings
    ensures Cooling(c', ep, now) == Cooling(c, ep, now)
  {
  }

  lemma {:induction false} ServedSingle(s: System, snapshot: Step, url: string, step: Step)
    requires PlanStep(s, snapshot) && Present(s.core, url) && url in Config.Urls(snapshot.cfg)
    requires Inv(Next(s, snapshot)) && Enabled(Next(s, snapshot), step) && Serving(step)
    ensures ServedMeanwhile(s, snapshot, url, [step], Next(Next(s, snapshot), step))
  {
    SingleRun(Next(s, snapshot), step);
    assert AllServing([step]);
  }

  lemma SnapshotKeepsRecord(s: System, snapshot: Step, url: string)
    requires PlanStep(s, snapshot) && Present(s.core, url)
    ensures var c := NextCore(s, snapshot);
      Present(c, url) && RecordOf(c, url) == RecordOf(s.core, url) && c.settings == s.core.settings
  {
  }

  lemma {:induction false} SingleRun(s: System, step: Step)
    requires Inv(s) && Enabled(s, step)
    ensures Run(s, [step]) && Exec(s, [step]) == Next(s, step)
  {
    StepKeepsInv(s, step);
    assert [step][1..] == [];
  }

  /** `t` is reached from `s` by the snapshot and a 429, and the commit can follow. */
  ghost predicate MarkedAfter(s: System, snapshot: Step, url: string, now: nat, t: System) {
    && PlanStep(s, snapshot) && Inv(Next(s, snapshot)) && Enabled(Next(s, snapshot), MarkRateLimited(url, now))
    && t == Next(Next(s, snapshot), MarkRateLimited(url, now))
    && Inv(t) && Present(t.core, url) && Enabled(t, CommitEndpoints)
  }

  ghost predicate AvailableAt(c: Core, url: string, now: nat) {
    Present(c, url) && RecordOf(c, url).Available(now)
  }

  /**
   * A trigger really is undone: snapshot, a 429 that puts the endpoint into cooldown, commit. It is out before the
   * commit and available behind it, at one and the same moment.
   */
  lemma {:induction false} TriggerUndone(s: System, snapshot: Step, url: string, now: nat) returns (t: System)
    requires Undoable(s, snapshot, url, now)
    ensures MarkedAfter(s, snapshot, url, now, t) && !AvailableAt(t.core, url, now)
    ensures AvailableAt(NextCore(t, CommitEndpoints), url, now)
  {
    MarkPutsOut(s, snapshot, url, now);
    t := Next(Next(s, snapshot), MarkRateLimited(url, now));
    ServedSingle(s, snapshot, url, MarkRateLimited(url, now));
    StaleCommitRestores(s, snapshot, url, [MarkRateLimited(url, now)], t);
    RestoredAvailable(NextCore(t, CommitEndpoints), url, RecordOf(s.core, url), now);
  }

  lemma RestoredAvailable(c: Core, url: string, ep: RpcEndpoint, now: nat)
    requires Restored(c, url, ep) && ep.Available(now)
    ensures AvailableAt(c, url, now)
  {
  }

  /** The only endpoint that can be used is the one a request is routed to. */
  lemma OnlyEligibleIsRouted(c: Core, i: nat, batchSize: nat, now: nat)
    requires Closed(c) && i < |c.endpoints| && Eligible(c, i, batchSize, now)
    requires forall k :: 0 <= k < |c.endpoints| && k != i ==> !Eligible(c, k, batchSize, now)
    ensures Winner(c, batchSize, now) == Some(c.endpoints[i].url)
  {
    var es, best := View(c, batchSize, now), Best(c, batchSize, now);
    assert es[i] == EntryAt(c, i, batchSize, now);
    if best.None? {
      NoBestMeansNoneAdmits(c, batchSize, now);
    } else {
      assert es[best.value] == EntryAt(c, best.value, batchSize, now);
      assert Eligible(c, best.value, batchSize, now);
    }
  }

  /** `i` is the place of `url`, its limiter admits the batch, and nobody else can take it. */
  ghost predicate OnlyTaker(c: Core, url: string, i: nat, batchSize: nat, now: nat) {
    && Closed(c) && i < |c.endpoints| && c.endpoints[i].url == url && 0 < c.endpoints[i].weight
    && Reservable(BucketAt(c, url), batchSize, now)
    && forall k :: 0 <= k < |c.endpoints| && k != i ==> !Eligible(c, k, batchSize, now)
  }

  /** Snapshot, 429 and commit are a run. */
  lemma {:induction false} UndoingRun(s: System, snapshot: Step, url: string, now: nat)
    requires Undoable(s, snapshot, url, now)
    ensures var steps := [snapshot, MarkRateLimited(url, now), CommitEndpoints];
      && Run(s, steps)
      && Exec(s, steps) == Next(Next(Next(s, snapshot), MarkRateLimited(url, now)), CommitEndpoints)
  {
    var t := TriggerUndone(s, snapshot, url, now);
    RunOfThree(s, snapshot, MarkRateLimited(url, now), CommitEndpoints);
  }

  lemma {:induction false} RunOfThree(s: System, a: Step, b: Step, c: Step)
    requires Inv(s) && Enabled(s, a) && Inv(Next(s, a)) && Enabled(Next(s, a), b)
    requires Inv(Next(Next(s, a), b)) && Enabled(Next(Next(s, a), b), c)
    ensures Run(s, [a, b, c]) && Exec(s, [a, b, c]) == Next(Next(Next(s, a), b), c)
  {
    var s1, s2 := Next(s, a), Next(Next(s, a), b);
    SingleRun(s2, c);
    RunPrepend(s1, b, [c]);
    RunPrepend(s, a, [b, c]);
    assert [b] + [c] == [b, c] && [a] + [b, c] == [a, b, c];
  }

  /**
   * Once the trigger is undone, a request that only this endpoint could take is routed to it at the very moment
   * at which it has answered 429.
   */
  lemma {:induction false} UndoneIsRouted(s: System, snapshot: Step, url: string, now: nat, u: System,
                                          i: nat, request: Step)
    requires Undoable(s, snapshot, url, now)
    requires var steps := [snapshot, MarkRateLimited(url, now), CommitEndpoints];
      Run(s, steps) && u == Exec(s, steps)
    requires request.Select? && request.now == now && OnlyTaker(u.core, url, i, request.batchSize, now)
    ensures Enabled(u, request) && Routed(u, request) == Some(url)
  {
    var t := TriggerUndone(s, snapshot, url, now);
    UndoingRun(s, snapshot, url, now);
    RecordIs(u.core, i);
    OnlyEligibleIsRouted(u.core, i, request.batchSize, now);
  }
}
