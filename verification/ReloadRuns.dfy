/** What a reload keeps, and what reloading the same configuration does. */
module ReloadRuns {
  import opened Prelude
  import opened Endpoint
  import opened RateLimiter
  import opened State
  import opened Invariants
  import opened ConfigReloader
  import Config

  /**
   * A reload changes nothing about a common endpoint but its limits and weight: health, cooldown and metrics identity
   * stay.
   */
  lemma CommonEndpointsKeepState(s: System, step: Step, i: nat, k: nat)
    requires PlanStep(s, step) && i < |s.core.endpoints| && k < |step.cfg|
    requires s.core.endpoints[i].url == step.cfg[k].url
    ensures var ep, planned := s.core.endpoints[i], step.plan.endpoints[k];
      && planned.url == ep.url && planned.healthy == ep.healthy && planned.lastCheck == ep.lastCheck
      && planned.cooldownUntil == ep.cooldownUntil && planned.cooldownAttempts == ep.cooldownAttempts
      && planned.metrics == ep.metrics
      && planned.rateLimitPerSec == step.cfg[k].rateLimitPerSec
      && planned.burstSize == step.cfg[k].burstSize
      && Some(planned.weight) == step.cfg[k].weight
  {
    var found := PlannedOrigin(s, step, k);
    assert found == Some(i);
  }

  /** A common endpoint keeps its limiter object exactly when its limits are unchanged. */
  lemma LimiterKeptIff(s: System, step: Step, i: nat, k: nat)
    requires PlanStep(s, step) && i < |s.core.endpoints| && k < |step.cfg|
    requires s.core.endpoints[i].url == step.cfg[k].url
    ensures var url := step.cfg[k].url;
      && url in step.plan.limiters && url in s.core.limiters
      && (step.plan.limiters[url] == s.core.limiters[url] <==> LimitsUnchanged(s.core.endpoints[i], step.cfg[k]))
  {
    CurrentLimiterUsable(s, i);
    PlannedLimiterOrigin(s, step, k);
    assert PlannedLimiter(s.core, step.cfg[k], step.plan.limiters, step.newBuckets);
    assert Find(s.core.endpoints, step.cfg[k].url) == Some(i);
  }

  // ---- The steps of a reload with nothing in between ----

  function WritesOf(n: nat): seq<Step> {
    if n == 0 then [] else [CommitSetting] + WritesOf(n - 1)
  }

  /** The settings once the writes from the `k`-th on are done. */
  function RestWritten(current: Settings, target: Settings, k: nat): Settings
    requires k <= SETTINGS_COUNT
    decreases SETTINGS_COUNT - k
  {
    if k == SETTINGS_COUNT then current else RestWritten(SettingWritten(current, target, k), target, k + 1)
  }

  lemma {:induction false} AllSettingsWritten(current: Settings, target: Settings)
    ensures RestWritten(current, target, 0) == target
  {
    var s1 := SettingWritten(current, target, 0);
    var s2 := SettingWritten(s1, target, 1);
    var s3 := SettingWritten(s2, target, 2);
    assert RestWritten(current, target, 0) == RestWritten(s3, target, 3);
    var s4 := SettingWritten(s3, target, 3);
    var s5 := SettingWritten(s4, target, 4);
    assert RestWritten(s3, target, 3) == RestWritten(s5, target, 5);
    assert RestWritten(s5, target, 5) == SettingWritten(s5, target, 5);
  }

  /** The settings after the first `k` writes. */
  function WrittenSoFar(current: Settings, target: Settings, k: nat): Settings
    requires k <= SETTINGS_COUNT
  {
    if k == 0 then current else SettingWritten(WrittenSoFar(current, target, k - 1), target, k - 1)
  }

  /** In which order they change, and that each write changes one of them: the base, for one, before the maximum. */
  lemma {:induction false} WrittenInOrder(current: Settings, target: Settings, k: nat)
    requires k <= SETTINGS_COUNT
    ensures SETTINGS_COUNT == 6
    ensures WrittenSoFar(current, target, k) == Settings(
      if k < 1 then current.maxBatchSize else target.maxBatchSize,
      if k < 2 then current.baseCooldownSecs else target.baseCooldownSecs,
      if k < 3 then current.maxCooldownSecs else target.maxCooldownSecs,
      if k < 4 then current.healthCheckIntervalSecs else target.healthCheckIntervalSecs,
      if k < 5 then current.healthCheckTimeoutSecs else target.healthCheckTimeoutSecs,
      if k < 6 then current.smoothing else target.smoothing)
  {
    if k > 0 {
      WrittenInOrder(current, target, k - 1);
    }
  }

  lemma {:induction false} SettingsRun(s: System)
    requires Inv(s) && s.phase.WritingSettings?
    ensures var steps := WritesOf(SETTINGS_COUNT - s.phase.next);
      && Run(s, steps)
      && Exec(s, steps) == System(
           s.core.(settings := RestWritten(s.core.settings, s.phase.plan.settings, s.phase.next)), s.clock, Idle)
    decreases SETTINGS_COUNT - s.phase.next
  {
    var n := SETTINGS_COUNT - s.phase.next;
    var steps := WritesOf(n);
    assert steps[0] == CommitSetting && steps[1..] == WritesOf(n - 1);
    StepKeepsInv(s, CommitSetting);
    var t := Next(s, CommitSetting);
    if t.phase.WritingSettings? {
      SettingsRun(t);
    }
  }

  lemma {:induction false} CommitsRun(s: System)
    requires Inv(s) && s.phase.Snapshotted?
    ensures var steps, plan := [CommitEndpoints] + ([CommitLimiters] + WritesOf(SETTINGS_COUNT)), s.phase.plan;
      && Run(s, steps)
      && Exec(s, steps) == System(
           s.core.(endpoints := plan.endpoints, limiters := plan.limiters, settings := plan.settings), s.clock, Idle)
  {
    StepKeepsInv(s, CommitEndpoints);
    var s2 := Next(s, CommitEndpoints);
    StepKeepsInv(s2, CommitLimiters);
    var s3 := Next(s2, CommitLimiters);
    SettingsRun(s3);
    AllSettingsWritten(s.core.settings, s.phase.plan.settings);
    RunPrepend(s2, CommitLimiters, WritesOf(SETTINGS_COUNT));
    RunPrepend(s, CommitEndpoints, [CommitLimiters] + WritesOf(SETTINGS_COUNT));
  }

  /** Done without interruption, the separate writes of a reload amount to the one replacement its method promises. */
  lemma {:induction false} UninterruptedReload(s: System, step: Step)
    requires PlanStep(s, step)
    ensures var steps := [step] + ([CommitEndpoints] + ([CommitLimiters] + WritesOf(SETTINGS_COUNT)));
      && Run(s, steps)
      && Exec(s, steps) == System(Reloaded(s.core, step.plan, step.newMetrics, step.newBuckets), step.now, Idle)
  {
    StepKeepsInv(s, step);
    CommitsRun(Next(s, step));
    RunPrepend(s, step, [CommitEndpoints] + ([CommitLimiters] + WritesOf(SETTINGS_COUNT)));
  }

  // ---- Reloading the same configuration ----

  predicate ConfiguredAs(ep: RpcEndpoint, e: Config.EndpointConfig) {
    && ep.url == e.url && ep.rateLimitPerSec == e.rateLimitPerSec && ep.burstSize == e.burstSize
    && e.weight == Some(ep.weight)
  }

  /** The endpoint list is, entry by entry, what the configuration lists. */
  ghost predicate Configured(eps: seq<RpcEndpoint>, cfg: seq<Config.EndpointConfig>) {
    |eps| == |cfg| && forall k :: 0 <= k < |cfg| ==> ConfiguredAs(eps[k], cfg[k])
  }

  /** Every reload leaves the list as configured, and nothing but another reload changes that. */
  lemma ReloadConfigures(s: System, step: Step)
    requires PlanStep(s, step)
    ensures Configured(step.plan.endpoints, step.cfg)
  {
    forall k | 0 <= k < |step.cfg|
      ensures ConfiguredAs(step.plan.endpoints[k], step.cfg[k])
    {
      var found := PlannedOrigin(s, step, k);
      assert PlannedRecord(s.core, step.cfg[k], step.now, step.plan.endpoints[k], step.newMetrics);
    }
  }

  lemma ServingKeepsConfigured(s: System, step: Step, cfg: seq<Config.EndpointConfig>)
    requires Inv(s) && Enabled(s, step) && Serving(step) && Configured(s.core.endpoints, cfg)
    ensures Configured(NextCore(s, step).endpoints, cfg)
  {
    ServingFrame(s, step);
    forall k | 0 <= k < |cfg|
      ensures ConfiguredAs(NextCore(s, step).endpoints[k], cfg[k])
    {
      assert SameIdentity(s.core.endpoints[k], NextCore(s, step).endpoints[k]);
      assert ConfiguredAs(s.core.endpoints[k], cfg[k]);
    }
  }

  lemma {:induction false} NothingModified(eps: seq<RpcEndpoint>, cfg: seq<Config.EndpointConfig>, n: nat)
    requires n <= |cfg| && DistinctUrls(eps) && Configured(eps, cfg)
    requires forall k :: 0 <= k < |cfg| ==> cfg[k].weight.Some?
    ensures ModifiedUrls(eps, cfg[..n]) == []
  {
    if n > 0 {
      NothingModified(eps, cfg, n - 1);
      assert cfg[..n][..n - 1] == cfg[..n - 1];
      assert ConfiguredAs(eps[n - 1], cfg[n - 1]);
      assert Find(eps, cfg[n - 1].url) == Some(n - 1);
    }
  }

  lemma SameEntryChangesNothing(s: System, step: Step, k: nat)
    requires PlanStep(s, step) && Configured(s.core.endpoints, step.cfg) && k < |step.cfg|
    ensures step.cfg[k].url == s.core.endpoints[k].url
    ensures step.plan.endpoints[k] == s.core.endpoints[k]
    ensures var url := step.cfg[k].url;
      url in step.plan.limiters && url in s.core.limiters && step.plan.limiters[url] == s.core.limiters[url]
  {
    SameEntrySameRecord(s, step, k);
    LimiterKeptIff(s, step, k, k);
  }

  lemma SameEntrySameRecord(s: System, step: Step, k: nat)
    requires PlanStep(s, step) && Configured(s.core.endpoints, step.cfg) && k < |step.cfg|
    ensures step.cfg[k].url == s.core.endpoints[k].url
    ensures step.plan.endpoints[k] == s.core.endpoints[k]
  {
    assert ConfiguredAs(s.core.endpoints[k], step.cfg[k]);
    FindsItself(s.core.endpoints, k);
    assert PlannedRecord(s.core, step.cfg[k], step.now, step.plan.endpoints[k], step.newMetrics);
  }

  lemma FindsItself(eps: seq<RpcEndpoint>, k: nat)
    requires DistinctUrls(eps) && k < |eps|
    ensures Find(eps, eps[k].url) == Some(k)
  {
  }

  lemma SameUrlSameLimiter(s: System, step: Step, url: string)
    requires PlanStep(s, step) && Configured(s.core.endpoints, step.cfg) && url in Config.Urls(step.cfg)
    ensures url in step.plan.limiters && url in s.core.limiters && step.plan.limiters[url] == s.core.limiters[url]
  {
    var k :| 0 <= k < |step.cfg| && step.cfg[k].url == url;
    SameEntryChangesNothing(s, step, k);
  }

  lemma SameConfigSameUrls(s: System, step: Step)
    requires PlanStep(s, step) && Configured(s.core.endpoints, step.cfg)
    ensures Urls(s.core.endpoints) == Config.Urls(step.cfg)
    ensures step.plan.limiters.Keys <= Config.Urls(step.cfg) && s.core.limiters.Keys == Config.Urls(step.cfg)
  {
    forall k | 0 <= k < |step.cfg|
      ensures step.cfg[k].url == s.core.endpoints[k].url
    {
      SameEntryChangesNothing(s, step, k);
    }
    SameUrlSets(s.core.endpoints, step.cfg);
  }

  lemma SameConfigSameLimiters(s: System, step: Step)
    requires PlanStep(s, step) && Configured(s.core.endpoints, step.cfg)
    ensures step.plan.limiters == s.core.limiters
  {
    SameConfigSameUrls(s, step);
    forall u | u in Config.Urls(step.cfg)
      ensures u in step.plan.limiters && u in s.core.limiters && step.plan.limiters[u] == s.core.limiters[u]
    {
      SameUrlSameLimiter(s, step, u);
    }
    SameIndex(step.plan.limiters, s.core.limiters, Config.Urls(step.cfg));
  }

  lemma SameIndex(a: map<string, DirectRateLimiter>, b: map<string, DirectRateLimiter>, urls: set<string>)
    requires a.Keys <= urls && b.Keys == urls
    requires forall u :: u in urls ==> u in a && u in b && a[u] == b[u]
    ensures a == b
  {
  }

  /** A snapshot of the configured list plans the records and limiter objects there are and finds no difference. */
  lemma SameConfigChangesNothing(s: System, step: Step)
    requires PlanStep(s, step) && Configured(s.core.endpoints, step.cfg)
    ensures step.plan.endpoints == s.core.endpoints
    ensures step.plan.limiters == s.core.limiters
    ensures forall client :: ChangesOf(s.core, client, step.cfg) == Changes({}, {}, [], s.core.client != client)
  {
    forall k | 0 <= k < |step.cfg|
      ensures step.plan.endpoints[k] == s.core.endpoints[k]
    {
      SameEntryChangesNothing(s, step, k);
    }
    SameConfigSameLimiters(s, step);
    forall client: Client
      ensures ChangesOf(s.core, client, step.cfg) == Changes({}, {}, [], s.core.client != client)
    {
      SameConfigNoChanges(s, step, client);
    }
  }

  lemma SameConfigNoChanges(s: System, step: Step, client: Client)
    requires PlanStep(s, step) && Configured(s.core.endpoints, step.cfg)
    ensures ChangesOf(s.core, client, step.cfg) == Changes({}, {}, [], s.core.client != client)
  {
    SameConfigSameUrls(s, step);
    SameUrlsNoChanges(s.core, step.cfg, client);
  }

  lemma SameUrlsNoChanges(c: Core, cfg: seq<Config.EndpointConfig>, client: Client)
    requires DistinctUrls(c.endpoints) && Configured(c.endpoints, cfg) && Urls(c.endpoints) == Config.Urls(cfg)
    ensures ChangesOf(c, client, cfg) == Changes({}, {}, [], c.client != client)
  {
    NothingModified(c.endpoints, cfg, |cfg|);
    assert cfg[..|cfg|] == cfg;
  }

  lemma SameUrlSets(eps: seq<RpcEndpoint>, cfg: seq<Config.EndpointConfig>)
    requires |eps| == |cfg| && forall k :: 0 <= k < |cfg| ==> cfg[k].url == eps[k].url
    ensures Urls(eps) == Config.Urls(cfg)
  {
    forall u | u in Urls(eps)
      ensures u in Config.Urls(cfg)
    {
      var k :| 0 <= k < |eps| && eps[k].url == u;
      assert cfg[k].url == u;
    }
    forall u | u in Config.Urls(cfg)
      ensures u in Urls(eps)
    {
      var k :| 0 <= k < |cfg| && cfg[k].url == u;
      assert eps[k].url == u;
    }
  }
}
