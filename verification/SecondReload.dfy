/** Reloading the same configuration a second time, after anything that may happen in between. */
module SecondReload {
  import opened State
  import opened Balancer
  import opened Invariants
  import opened ConfigReloader
  import opened ReloadRuns
  import Config

  /** The snapshot of a reload of the finalized configuration `b`, whose client settings are in force already. */
  ghost predicate Reloads(s: System, step: Step, b: Config.BalancerConfig)
    requires Config.Complete(b)
  {
    && PlanStep(s, step)
    && s.core.client == ClientOf(b)
    && step.cfg == b.endpoints.value && step.settings == SettingsOf(b)
  }

  /** `b` is in force, or will be when the reload under way is finished. */
  ghost predicate Installs(s: System, b: Config.BalancerConfig)
    requires Config.Complete(b)
  {
    var cfg, settings := b.endpoints.value, SettingsOf(b);
    && s.core.client == ClientOf(b)
    && match s.phase
       case Idle => Configured(s.core.endpoints, cfg) && s.core.settings == settings
       case Snapshotted(plan) => Configured(plan.endpoints, cfg) && plan.settings == settings
       case EndpointsWritten(plan) => Configured(s.core.endpoints, cfg) && plan.settings == settings
       case WritingSettings(plan, next) =>
         && Configured(s.core.endpoints, cfg) && plan.settings == settings
         && next < SETTINGS_COUNT && RestWritten(s.core.settings, settings, next) == settings
  }

  predicate NoOtherReload(steps: seq<Step>) {
    forall k :: 0 <= k < |steps| ==> !steps[k].TakeSnapshot? && !steps[k].RebuildClient?
  }

  lemma SnapshotInstalls(s: System, step: Step, b: Config.BalancerConfig)
    requires Config.Complete(b) && Reloads(s, step, b)
    ensures Installs(Next(s, step), b)
  {
    ReloadConfigures(s, step);
  }

  lemma StepInstalls(s: System, step: Step, b: Config.BalancerConfig)
    requires Config.Complete(b) && Inv(s) && Installs(s, b)
    requires Enabled(s, step) && !step.TakeSnapshot? && !step.RebuildClient?
    ensures Installs(Next(s, step), b)
  {
    if Serving(step) {
      ServingFrame(s, step);
      if !s.phase.Snapshotted? {
        ServingKeepsConfigured(s, step, b.endpoints.value);
      }
    } else if step.CommitLimiters? {
      AllSettingsWritten(s.core.settings, SettingsOf(b));
    } else if step.CommitSetting? {
      SettingInstalls(s, b);
    }
  }

  lemma {:induction false} SettingInstalls(s: System, b: Config.BalancerConfig)
    requires Config.Complete(b) && Inv(s) && Installs(s, b) && Enabled(s, CommitSetting)
    ensures Installs(Next(s, CommitSetting), b)
  {
    var target, next := SettingsOf(b), s.phase.next;
    var written := SettingWritten(s.core.settings, target, next);
    assert RestWritten(s.core.settings, target, next) == RestWritten(written, target, next + 1);
    if next + 1 == SETTINGS_COUNT {
      assert RestWritten(written, target, next + 1) == written;
    }
  }

  lemma {:induction false} RunInstalls(s: System, steps: seq<Step>, b: Config.BalancerConfig)
    requires Config.Complete(b) && Inv(s) && Installs(s, b)
    requires Run(s, steps) && NoOtherReload(steps)
    ensures Installs(Exec(s, steps), b)
    decreases |steps|
  {
    if steps != [] {
      StepKeepsInv(s, steps[0]);
      StepInstalls(s, steps[0], b);
      assert NoOtherReload(steps[1..]);
      RunInstalls(Next(s, steps[0]), steps[1..], b);
    }
  }

  /** A reload of what is installed already. */
  lemma {:induction false} InstalledReload(t: System, second: Step, b: Config.BalancerConfig)
    requires Config.Complete(b) && Inv(t) && Installs(t, b)
    requires PlanStep(t, second) && second.cfg == b.endpoints.value && second.settings == SettingsOf(b)
    ensures ChangesOf(t.core, ClientOf(b), b.endpoints.value) == Changes({}, {}, [], false)
    ensures second.plan.endpoints == t.core.endpoints && second.plan.limiters == t.core.limiters
    ensures Reloaded(t.core, second.plan, second.newMetrics, second.newBuckets)
         == Allocated(t.core, second.newMetrics, second.newBuckets)
  {
    SameConfigChangesNothing(t, second);
  }

  /**
   * A reload of `b`, finished in whatever interleaving, and any run after it: a second reload of `b` then
   * reports no endpoint change and no client rebuild, plans the very records and limiter objects there are,
   * and when done has changed nothing at all.
   */
  lemma {:induction false} SecondReloadChangesNothing(s: System, first: Step, steps: seq<Step>, t: System, second: Step,
                                                      b: Config.BalancerConfig)
    requires Config.Complete(b) && Reloads(s, first, b)
    requires Inv(Next(s, first)) && Run(Next(s, first), steps) && NoOtherReload(steps)
    requires t == Exec(Next(s, first), steps)
    requires PlanStep(t, second) && second.cfg == b.endpoints.value && second.settings == SettingsOf(b)
    ensures ChangesOf(t.core, ClientOf(b), b.endpoints.value) == Changes({}, {}, [], false)
    ensures second.plan.endpoints == t.core.endpoints && second.plan.limiters == t.core.limiters
    ensures Reloaded(t.core, second.plan, second.newMetrics, second.newBuckets)
         == Allocated(t.core, second.newMetrics, second.newBuckets)
  {
    SnapshotInstalls(s, first, b);
    RunInstalls(Next(s, first), steps, b);
    InstalledReload(t, second, b);
  }
}
