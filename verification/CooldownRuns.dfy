/** Cooldowns over whole runs: how long an endpoint stays out, and what its attempt counter counts. */
module CooldownRuns {
  import opened Prelude
  import opened Endpoint
  import opened State
  import opened Invariants
  import opened HealthRounds
  import opened StepEffects
  import opened Cooldown

  /** The step puts the endpoint into cooldown. */
  ghost predicate Triggers(c: Core, step: Step, ep: RpcEndpoint) {
    match step
    case MarkRateLimited(url, _) => url == ep.url
    case MarkUnhealthy(url, _) => url == ep.url && ep.healthy
    case CommitHealth(results, _, _, _) => ResultFor(results, ep.url) == Some(false) && ep.healthy
    case _ => false
  }

  /** The step is a health check that finds the endpoint recovered. */
  ghost predicate Recovers(step: Step, ep: RpcEndpoint) {
    step.CommitHealth? && ResultFor(step.results, ep.url) == Some(true) && !ep.healthy
  }

  function Backoff(c: Core, attempts: u32): nat {
    CooldownSecs(c.settings.baseCooldownSecs, c.settings.maxCooldownSecs, attempts) * NANOS_PER_SEC
  }

  /** The settings a step computes a backoff with: a round may have read the base before a reload changed it. */
  function Seen(c: Core, step: Step): Core {
    if step.CommitHealth? then WithBase(c, step.base) else c
  }

  /**
   * In cooldown until `deadline` at least and, unless the backoff has been shortened, at a point of it where a
   * further trigger cannot bring that forward.
   */
  ghost predicate Guarded(c: Core, clock: nat, ep: RpcEndpoint, deadline: nat, shortened: bool) {
    && ep.cooldownUntil.Some? && deadline <= ep.cooldownUntil.value
    && (shortened || deadline <= clock + Backoff(c, ep.cooldownAttempts))
    && (shortened || ep.cooldownAttempts < 64)
  }

  /** The step uses a longer backoff than the settings there are now would give. */
  predicate UsesLonger(c: Core, step: Step, attempts: u32) {
    Backoff(c, attempts) < Backoff(Seen(c, step), attempts)
  }

  predicate UsesShorter(c: Core, step: Step, attempts: u32) {
    Backoff(Seen(c, step), attempts) < Backoff(c, attempts)
  }

  /** `r` is out for exactly the backoff of one more attempt than `ep` has had. */
  ghost predicate PutOut(s: System, step: Step, t: System, ep: RpcEndpoint, r: RpcEndpoint)
    requires ep.cooldownAttempts < U32_MAX
  {
    var attempts := ep.cooldownAttempts + 1;
    var until := TimeOf(s, step) + Backoff(Seen(s.core, step), attempts);
    && r.cooldownUntil == Some(until) && r.cooldownAttempts == attempts
    && Guarded(t.core, t.clock, r, until, UsesLonger(s.core, step, attempts))
  }

  /** A trigger puts the endpoint out for exactly the backoff of its new attempt count. */
  lemma TriggerGuards(s: System, step: Step, url: string)
    requires Inv(s) && Enabled(s, step) && Serving(step) && Present(s.core, url)
    requires Triggers(s.core, step, RecordOf(s.core, url)) && RecordOf(s.core, url).cooldownAttempts < 63
    ensures var t := Next(s, step);
      Present(t.core, url) && PutOut(s, step, t, RecordOf(s.core, url), RecordOf(t.core, url))
  {
    TriggerStep(s, step, url);
    TriggeredGuards(s, Next(s, step), step, RecordOf(s.core, url));
  }

  lemma TriggerStep(s: System, step: Step, url: string)
    requires Inv(s) && Enabled(s, step) && Serving(step) && Present(s.core, url)
    ensures var t := Next(s, step);
      && Present(t.core, url) && RecordOf(t.core, url) == RecordAfter(s.core, step, RecordOf(s.core, url))
      && t.core.settings == s.core.settings && t.clock == TimeOf(s, step)
  {
    ServingRecordOf(s, step, url);
    ServingKeepsSettings(s, step);
  }

  /** What a trigger makes of a record, in any state that has the same settings. */
  lemma TriggeredGuards(s: System, t: System, step: Step, ep: RpcEndpoint)
    requires Triggers(s.core, step, ep) && ep.cooldownAttempts < 63
    requires t.core.settings == s.core.settings && t.clock == TimeOf(s, step)
    ensures PutOut(s, step, t, ep, RecordAfter(s.core, step, ep))
  {
    TriggeredRecord(s.core, step, ep);
  }

  lemma ServingKeepsSettings(s: System, step: Step)
    requires Inv(s) && Enabled(s, step) && Serving(step)
    ensures NextCore(s, step).settings == s.core.settings
  {
    ServingFrame(s, step);
  }

  lemma TriggeredRecord(c: Core, step: Step, ep: RpcEndpoint)
    requires Triggers(c, step, ep) && ep.cooldownAttempts < 63
    ensures var r := RecordAfter(c, step, ep);
      && r.cooldownAttempts == ep.cooldownAttempts + 1
      && (step.MarkRateLimited? || step.MarkUnhealthy? || step.CommitHealth?)
      && r.cooldownUntil == Some(step.now + Backoff(Seen(c, step), ep.cooldownAttempts + 1))
  {
  }

  /** A reload writes a setting that makes the backoff of the endpoint shorter. */
  ghost predicate Shortens(s: System, step: Step, url: string)
    requires Inv(s) && Enabled(s, step) && Present(s.core, url)
  {
    step.CommitSetting? && var attempts := RecordOf(s.core, url).cooldownAttempts;
    Backoff(NextCore(s, step), attempts) < Backoff(s.core, attempts)
  }

  /**
   * What the rest of the system must not do for an exclusion to last. `stale`: the pending snapshot predates the
   * trigger. `shortened`: the backoff has been shortened since.
   */
  ghost predicate Spares(s: System, step: Step, url: string, stale: bool, shortened: bool)
    requires Enabled(s, step) && Present(s.core, url)
  {
    var ep := RecordOf(s.core, url);
    match step
    case CommitEndpoints => !stale && url in Urls(s.phase.plan.endpoints)
    case _ =>
      && !Recovers(step, ep)
      && (Triggers(s.core, step, ep) ==>
            !shortened && ep.cooldownAttempts < 63 && !UsesShorter(s.core, step, ep.cooldownAttempts + 1))
  }

  ghost predicate Undisturbed(s: System, steps: seq<Step>, url: string, stale: bool, shortened: bool)
    requires Inv(s) && Run(s, steps)
    decreases |steps|
  {
    steps == []
    || (Present(s.core, url) && Spares(s, steps[0], url, stale, shortened)
        && (StepKeepsInv(s, steps[0]);
            Undisturbed(Next(s, steps[0]), steps[1..], url,
                        stale && !steps[0].TakeSnapshot?, shortened || Shortens(s, steps[0], url))))
  }

  /** No request is routed to `url` before `deadline`. */
  ghost predicate NeverRouted(s: System, steps: seq<Step>, url: string, deadline: nat)
    requires Inv(s) && Run(s, steps)
    decreases |steps|
  {
    steps == []
    || ((steps[0].Select? && steps[0].now < deadline ==> Routed(s, steps[0]) != Some(url))
        && (StepKeepsInv(s, steps[0]); NeverRouted(Next(s, steps[0]), steps[1..], url, deadline)))
  }

  /** The endpoint is configured, and in cooldown at least until `deadline`. */
  ghost predicate OutUntil(c: Core, url: string, deadline: nat) {
    Present(c, url) && var until := RecordOf(c, url).cooldownUntil; until.Some? && deadline <= until.value
  }

  lemma GuardedLater(c: Core, clock: nat, clock': nat, ep: RpcEndpoint, deadline: nat, shortened: bool)
    requires Guarded(c, clock, ep, deadline, shortened) && clock <= clock'
    ensures Guarded(c, clock', ep, deadline, shortened)
  {
  }

  lemma CoolingKeepsGuard(c: Core, seen: Core, clock: nat, now: nat, ep: RpcEndpoint, deadline: nat)
    requires Guarded(c, clock, ep, deadline, false) && clock <= now && ep.cooldownAttempts < 63
    requires Backoff(c, ep.cooldownAttempts + 1) <= Backoff(seen, ep.cooldownAttempts + 1)
    ensures Guarded(c, now, Cooling(seen, ep, now), deadline, false)
  {
    var base, max, attempts := c.settings.baseCooldownSecs, c.settings.maxCooldownSecs, ep.cooldownAttempts;
    BackoffMonotone(base, max, attempts, attempts + 1);
  }

  lemma RecordKeepsGuard(s: System, step: Step, url: string, deadline: nat, shortened: bool)
    requires Inv(s) && Enabled(s, step) && Serving(step) && Present(s.core, url)
    requires Guarded(s.core, s.clock, RecordOf(s.core, url), deadline, shortened)
    requires Spares(s, step, url, false, shortened)
    ensures Guarded(s.core, TimeOf(s, step), RecordAfter(s.core, step, RecordOf(s.core, url)), deadline, shortened)
  {
    var ep, now := RecordOf(s.core, url), TimeOf(s, step);
    GuardedLater(s.core, s.clock, now, ep, deadline, shortened);
    if Triggers(s.core, step, ep) {
      CoolingKeepsGuard(s.core, Seen(s.core, step), s.clock, now, ep, deadline);
    }
  }

  /** An endpoint in cooldown is not a candidate. */
  lemma CoolingNotRouted(s: System, step: Step, url: string, deadline: nat)
    requires Inv(s) && Enabled(s, step) && step.Select?
    requires OutUntil(s.core, url, deadline) && step.now < deadline
    ensures Routed(s, step) != Some(url)
  {
    var best := Best(s.core, step.batchSize, step.now);
    if best.Some? {
      RecordIs(s.core, best.value);
      assert View(s.core, step.batchSize, step.now)[best.value].candidate;
    }
  }

  /** The pending plan, if taken since the trigger, carries the cooldown too. */
  ghost predicate PlanGuarded(s: System, url: string, deadline: nat, shortened: bool) {
    s.phase.Snapshotted? ==>
      forall j :: 0 <= j < |s.phase.plan.endpoints| && s.phase.plan.endpoints[j].url == url ==>
        Guarded(s.core, s.clock, s.phase.plan.endpoints[j], deadline, shortened)
  }

  lemma SnapshotGuards(s: System, step: Step, url: string, deadline: nat, shortened: bool)
    requires PlanStep(s, step) && Present(s.core, url)
    requires Guarded(s.core, s.clock, RecordOf(s.core, url), deadline, shortened)
    ensures PlanGuarded(Next(s, step), url, deadline, shortened)
  {
    forall j | 0 <= j < |step.plan.endpoints| && step.plan.endpoints[j].url == url
      ensures Guarded(NextCore(s, step), step.now, step.plan.endpoints[j], deadline, shortened)
    {
      var found := PlannedOrigin(s, step, j);
      assert found == Find(s.core.endpoints, url);
    }
  }

  ghost predicate StillGuarded(t: System, url: string, stale: bool, shortened: bool, deadline: nat) {
    && Present(t.core, url)
    && Guarded(t.core, t.clock, RecordOf(t.core, url), deadline, shortened)
    && (stale || PlanGuarded(t, url, deadline, shortened))
  }

  lemma ServingKeepsGuard(s: System, step: Step, url: string, stale: bool, shortened: bool, deadline: nat)
    requires Inv(s) && Enabled(s, step) && Serving(step)
    requires StillGuarded(s, url, stale, shortened, deadline) && Spares(s, step, url, stale, shortened)
    ensures StillGuarded(Next(s, step), url, stale, shortened, deadline)
  {
    ServingRecordOf(s, step, url);
    ServingFrame(s, step);
    RecordKeepsGuard(s, step, url, deadline, shortened);
  }

  lemma CommitKeepsGuard(s: System, step: Step, url: string, stale: bool, shortened: bool, deadline: nat)
    requires Inv(s) && Enabled(s, step) && step.CommitEndpoints?
    requires StillGuarded(s, url, stale, shortened, deadline) && Spares(s, step, url, stale, shortened)
    ensures StillGuarded(Next(s, step), url, stale, shortened, deadline)
  {
    var j :| 0 <= j < |s.phase.plan.endpoints| && s.phase.plan.endpoints[j].url == url;
    RecordIs(NextCore(s, step), j);
  }

  /** A written setting leaves the record alone, and what it does to the backoff is what `Shortens` says. */
  lemma SettingKeepsGuard(s: System, step: Step, url: string, stale: bool, shortened: bool, deadline: nat)
    requires Inv(s) && Enabled(s, step) && step.CommitSetting?
    requires StillGuarded(s, url, stale, shortened, deadline)
    ensures StillGuarded(Next(s, step), url, stale, shortened || Shortens(s, step, url), deadline)
  {
    assert RecordOf(NextCore(s, step), url) == RecordOf(s.core, url);
  }

  lemma ReloadKeepsGuard(s: System, step: Step, url: string, stale: bool, shortened: bool, deadline: nat)
    requires Inv(s) && Enabled(s, step) && !Serving(step)
    requires StillGuarded(s, url, stale, shortened, deadline) && Spares(s, step, url, stale, shortened)
    ensures StillGuarded(Next(s, step), url,
                         stale && !step.TakeSnapshot?, shortened || Shortens(s, step, url), deadline)
  {
    if step.TakeSnapshot? {
      SnapshotGuards(s, step, url, deadline, shortened);
    } else if step.CommitEndpoints? {
      CommitKeepsGuard(s, step, url, stale, shortened, deadline);
    } else if step.CommitSetting? {
      SettingKeepsGuard(s, step, url, stale, shortened, deadline);
    }
  }

  lemma StepKeepsGuard(s: System, step: Step, url: string, stale: bool, shortened: bool, deadline: nat)
    requires Inv(s) && Enabled(s, step)
    requires StillGuarded(s, url, stale, shortened, deadline) && Spares(s, step, url, stale, shortened)
    ensures StillGuarded(Next(s, step), url,
                         stale && !step.TakeSnapshot?, shortened || Shortens(s, step, url), deadline)
  {
    if Serving(step) {
      ServingKeepsGuard(s, step, url, stale, shortened, deadline);
    } else {
      ReloadKeepsGuard(s, step, url, stale, shortened, deadline);
    }
  }

  /** Induction over the run for `CooldownExclusion`. */
  lemma {:induction false} GuardLasts(s: System, steps: seq<Step>, url: string, stale: bool, shortened: bool,
                                      deadline: nat)
    requires Inv(s) && Run(s, steps) && Undisturbed(s, steps, url, stale, shortened)
    requires StillGuarded(s, url, stale, shortened, deadline)
    ensures NeverRouted(s, steps, url, deadline)
    ensures OutUntil(Exec(s, steps).core, url, deadline)
    decreases |steps|
  {
    if steps != [] {
      var step := steps[0];
      StepKeepsInv(s, step);
      StepKeepsGuard(s, step, url, stale, shortened, deadline);
      if step.Select? && step.now < deadline {
        CoolingNotRouted(s, step, url, deadline);
      }
      GuardLasts(Next(s, step), steps[1..], url,
                 stale && !step.TakeSnapshot?, shortened || Shortens(s, step, url), deadline);
    }
  }

  /**
   * After a trigger no request goes to the endpoint, and its deadline never moves earlier, until the
   * backoff has passed: whatever else happens, as long as the endpoint neither recovers nor is
   * removed, the attempt counter stays below 64, no reload commits a snapshot that it had taken before the
   * trigger, and no further trigger uses a shorter backoff, be it that a setting has been written since, or that a
   * health round had read the base before.
   */
  lemma {:induction false} CooldownExclusion(s: System, step: Step, url: string, t: System, steps: seq<Step>,
                                             until: nat)
    requires Inv(s) && Enabled(s, step) && Serving(step) && Present(s.core, url)
    requires Triggers(s.core, step, RecordOf(s.core, url)) && RecordOf(s.core, url).cooldownAttempts < 63
    requires var attempts := RecordOf(s.core, url).cooldownAttempts + 1;
      && t == Next(s, step) && until == TimeOf(s, step) + Backoff(Seen(s.core, step), attempts)
      && Inv(t) && Run(t, steps)
      && Undisturbed(t, steps, url, t.phase.Snapshotted?, UsesLonger(s.core, step, attempts))
    ensures NeverRouted(t, steps, url, until)
    ensures OutUntil(Exec(t, steps).core, url, until)
  {
    TriggerGuards(s, step, url);
    var attempts := RecordOf(s.core, url).cooldownAttempts + 1;
    GuardLasts(t, steps, url, t.phase.Snapshotted?, UsesLonger(s.core, step, attempts), until);
  }

  /**
   * The bound on the attempts is real: a trigger leaves a healthy endpoint available exactly when a setting is
   * zero or its attempts, which only a recovery resets, have reached 63 before.
   */
  lemma TriggerFailsIff(c: Core, ep: RpcEndpoint, now: nat)
    requires ep.healthy
    ensures Cooling(c, ep, now).Available(now)
      <==> 63 <= ep.cooldownAttempts || c.settings.baseCooldownSecs == 0 || c.settings.maxCooldownSecs == 0
  {
    BackoffZeroIff(c.settings.baseCooldownSecs, c.settings.maxCooldownSecs, SaturatingInc(ep.cooldownAttempts));
  }

  /** `url` answers 429 at each of these times. */
  function RateLimitMarks(url: string, times: seq<nat>): seq<Step> {
    if times == [] then [] else [MarkRateLimited(url, times[0])] + RateLimitMarks(url, times[1..])
  }

  ghost predicate InOrder(clock: nat, times: seq<nat>)
    decreases |times|
  {
    times == [] || (clock <= times[0] && InOrder(times[0], times[1..]))
  }

  lemma MarkOnce(s: System, url: string, now: nat)
    requires Inv(s) && Present(s.core, url) && s.clock <= now
    ensures var t := Next(s, MarkRateLimited(url, now));
      && Inv(t) && t.core.settings == s.core.settings
      && Present(t.core, url) && RecordOf(t.core, url) == Cooling(s.core, RecordOf(s.core, url), now)
  {
    StepKeepsInv(s, MarkRateLimited(url, now));
    ServingRecordOf(s, MarkRateLimited(url, now), url);
    ServingKeepsSettings(s, MarkRateLimited(url, now));
  }

  /** What `times` leave of a record. */
  ghost predicate Marked(c: Core, before: RpcEndpoint, after: RpcEndpoint, times: seq<nat>) {
    && after.healthy == before.healthy
    && after.cooldownAttempts == Min(before.cooldownAttempts + |times|, U32_MAX)
    && (times != [] ==> after.cooldownUntil == Some(times[|times| - 1] + Backoff(c, after.cooldownAttempts)))
  }

  lemma MarkedPrepend(c: Core, c': Core, before: RpcEndpoint, after: RpcEndpoint, times: seq<nat>)
    requires times != [] && c'.settings == c.settings
    requires Marked(c', Cooling(c, before, times[0]), after, times[1..])
    requires |times| == 1 ==> after == Cooling(c, before, times[0])
    ensures Marked(c, before, after, times)
  {
    assert times[1..] != [] ==> times[1..][|times[1..]| - 1] == times[|times| - 1];
  }

  /** A run of 429 answers counts every one of them, and the last one sets the deadline. */
  lemma {:induction false} MarksCount(s: System, url: string, times: seq<nat>)
    requires Inv(s) && Present(s.core, url) && InOrder(s.clock, times)
    ensures Run(s, RateLimitMarks(url, times))
    ensures var t := Exec(s, RateLimitMarks(url, times));
      && Present(t.core, url) && Marked(s.core, RecordOf(s.core, url), RecordOf(t.core, url), times)
      && (times == [] ==> t == s)
    decreases |times|
  {
    if times != [] {
      var t := Next(s, MarkRateLimited(url, times[0]));
      var marks := RateLimitMarks(url, times);
      MarkOnce(s, url, times[0]);
      assert marks[0] == MarkRateLimited(url, times[0]) && marks[1..] == RateLimitMarks(url, times[1..]);
      MarksCount(t, url, times[1..]);
      MarkedPrepend(s.core, t.core, RecordOf(s.core, url), RecordOf(Exec(s, marks).core, url), times);
    }
  }

  /**
   * A healthy endpoint that answers 429 often enough, without a failed check in between, ends up available
   * at once: exactly if 64 attempts are counted, or a setting is zero. Nothing else resets the count.
   */
  lemma {:induction false} MarksFailIff(s: System, url: string, times: seq<nat>)
    requires Inv(s) && Present(s.core, url) && RecordOf(s.core, url).healthy
    requires InOrder(s.clock, times) && times != []
    ensures Run(s, RateLimitMarks(url, times))
    ensures Present(Exec(s, RateLimitMarks(url, times)).core, url)
    ensures var t, ep, settings := Exec(s, RateLimitMarks(url, times)), RecordOf(s.core, url), s.core.settings;
      RecordOf(t.core, url).Available(times[|times| - 1])
      <==> 64 <= ep.cooldownAttempts + |times| || settings.baseCooldownSecs == 0 || settings.maxCooldownSecs == 0
  {
    MarksCount(s, url, times);
    var attempts := Min(RecordOf(s.core, url).cooldownAttempts + |times|, U32_MAX);
    BackoffZeroIff(s.core.settings.baseCooldownSecs, s.core.settings.maxCooldownSecs, attempts);
  }

  lemma BackoffZeroIff(base: u64, max: u64, attempts: u32)
    ensures CooldownSecs(base, max, attempts) == 0 <==> 64 <= attempts || base == 0 || max == 0
  {
    if 64 <= attempts {
      BackoffCollapses(base, max, attempts);
    } else {
      BackoffExact(base, max, attempts);
      if 0 < base {
        MulMonotone(1, base, Pow2(attempts));
      }
    }
  }

  // ---- What the attempt counter counts ----

  /** Triggers since the endpoint was created or last recovered, `n` of them before the step. */
  ghost function CountAfter(s: System, step: Step, url: string, n: nat): nat {
    if step.CommitEndpoints? && !Present(s.core, url) then 0
    else if !Present(s.core, url) then n
    else if Recovers(step, RecordOf(s.core, url)) then 0
    else if Triggers(s.core, step, RecordOf(s.core, url)) then n + 1
    else n
  }

  ghost function TriggerCount(s: System, steps: seq<Step>, url: string, n: nat): nat
    requires Inv(s) && Run(s, steps)
    decreases |steps|
  {
    if steps == [] then n
    else
      StepKeepsInv(s, steps[0]);
      TriggerCount(Next(s, steps[0]), steps[1..], url, CountAfter(s, steps[0], url, n))
  }

  /** Every snapshot is committed before anything else happens. */
  ghost predicate AtomicReloads(s: System, steps: seq<Step>)
    requires Inv(s) && Run(s, steps)
    decreases |steps|
  {
    steps == []
    || ((s.phase.Snapshotted? ==> steps[0].CommitEndpoints?)
        && (StepKeepsInv(s, steps[0]); AtomicReloads(Next(s, steps[0]), steps[1..])))
  }

  ghost predicate Counted(ep: RpcEndpoint, n: nat) {
    ep.cooldownAttempts == Min(n, U32_MAX)
  }

  /** The records of `url`, current and planned, agree with the count. */
  ghost predicate AllCounted(s: System, url: string, n: nat) {
    && (Present(s.core, url) ==> Counted(RecordOf(s.core, url), n))
    && (s.phase.Snapshotted? ==>
          forall j :: 0 <= j < |s.phase.plan.endpoints| && s.phase.plan.endpoints[j].url == url ==>
            Counted(s.phase.plan.endpoints[j], if Present(s.core, url) then n else 0))
  }

  lemma ServingKeepsCount(s: System, step: Step, url: string, n: nat)
    requires Inv(s) && Enabled(s, step) && Serving(step) && Present(s.core, url)
    requires Counted(RecordOf(s.core, url), n)
    ensures Counted(RecordAfter(s.core, step, RecordOf(s.core, url)), CountAfter(s, step, url, n))
  {
  }

  lemma SnapshotKeepsCount(s: System, step: Step, url: string, n: nat, j: nat)
    requires PlanStep(s, step) && j < |step.plan.endpoints| && step.plan.endpoints[j].url == url
    requires Present(s.core, url) ==> Counted(RecordOf(s.core, url), n)
    ensures Counted(step.plan.endpoints[j], if Present(s.core, url) then n else 0)
  {
    var found := PlannedOrigin(s, step, j);
    assert PlannedRecord(s.core, step.cfg[j], step.now, step.plan.endpoints[j], step.newMetrics);
    if found.Some? {
      RecordIs(s.core, found.value);
    }
  }

  lemma StepKeepsCount(s: System, step: Step, url: string, n: nat)
    requires Inv(s) && Enabled(s, step) && AllCounted(s, url, n)
    requires s.phase.Snapshotted? ==> step.CommitEndpoints?
    ensures AllCounted(Next(s, step), url, CountAfter(s, step, url, n))
  {
    if Serving(step) {
      ServingRecordOf(s, step, url);
      if Present(s.core, url) {
        ServingKeepsCount(s, step, url, n);
      }
    } else if step.TakeSnapshot? {
      forall j | 0 <= j < |step.plan.endpoints| && step.plan.endpoints[j].url == url
        ensures Counted(step.plan.endpoints[j], if Present(s.core, url) then n else 0)
      {
        SnapshotKeepsCount(s, step, url, n, j);
      }
    } else if step.CommitEndpoints? {
      if Present(NextCore(s, step), url) {
        var j :| 0 <= j < |s.phase.plan.endpoints| && s.phase.plan.endpoints[j].url == url;
        RecordIs(NextCore(s, step), j);
      }
    }
  }

  /**
   * With reloads atomic, the attempt counter is the number of 429 marks plus healthy-to-unhealthy
   * transitions since the endpoint was created or last recovered, saturating at 32 bits.
   */
  lemma {:induction false} AttemptsCountTriggers(s: System, steps: seq<Step>, url: string, n: nat)
    requires Inv(s) && Run(s, steps) && AtomicReloads(s, steps) && AllCounted(s, url, n)
    ensures AllCounted(Exec(s, steps), url, TriggerCount(s, steps, url, n))
    decreases |steps|
  {
    if steps != [] {
      StepKeepsInv(s, steps[0]);
      StepKeepsCount(s, steps[0], url, n);
      AttemptsCountTriggers(Next(s, steps[0]), steps[1..], url, CountAfter(s, steps[0], url, n));
    }
  }

  ghost predicate OnlyNetworkFailures(steps: seq<Step>) {
    forall k :: 0 <= k < |steps| ==> steps[k].MarkUnhealthy? || steps[k].Observe? || steps[k].Select?
  }

  lemma BurstStep(s: System, step: Step, url: string, n: nat)
    requires Inv(s) && Enabled(s, step) && (step.MarkUnhealthy? || step.Observe? || step.Select?)
    ensures Present(NextCore(s, step), url) <==> Present(s.core, url)
    ensures CountAfter(s, step, url, n) == n
      || (CountAfter(s, step, url, n) == n + 1 && Present(s.core, url) && RecordOf(s.core, url).healthy
          && !RecordOf(NextCore(s, step), url).healthy)
    ensures Present(s.core, url) && !RecordOf(s.core, url).healthy ==> !RecordOf(NextCore(s, step), url).healthy
  {
    ServingRecordOf(s, step, url);
    if Present(s.core, url) {
      BurstRecord(s.core, step, RecordOf(s.core, url));
    }
  }

  lemma BurstRecord(c: Core, step: Step, ep: RpcEndpoint)
    requires step.MarkUnhealthy? || step.Observe? || step.Select?
    ensures Triggers(c, step, ep) ==> ep.healthy && !RecordAfter(c, step, ep).healthy
    ensures !ep.healthy ==> !RecordAfter(c, step, ep).healthy
    ensures !Recovers(step, ep)
  {
  }

  /** A burst of network failures, however long, counts as one trigger at most. */
  lemma {:induction false} BurstCountsOnce(s: System, steps: seq<Step>, url: string, n: nat)
    requires Inv(s) && Run(s, steps) && OnlyNetworkFailures(steps)
    ensures TriggerCount(s, steps, url, n) <= n + 1
    ensures Present(s.core, url) && !RecordOf(s.core, url).healthy ==> TriggerCount(s, steps, url, n) == n
    decreases |steps|
  {
    if steps != [] {
      StepKeepsInv(s, steps[0]);
      assert OnlyNetworkFailures(steps[1..]);
      BurstStep(s, steps[0], url, n);
      BurstCountsOnce(Next(s, steps[0]), steps[1..], url, CountAfter(s, steps[0], url, n));
    }
  }
}
