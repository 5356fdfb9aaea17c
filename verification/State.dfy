/**
 * The balancer's shared state as a value, and what each operation does to it. Endpoint records are
 * values, while metrics objects and limiters are identities whose contents live in two maps, because
 * clones of a record share them. `Balancer.dfy` proves that the methods of the mutable class do
 * exactly this; the modules after it prove what holds over whole runs.
 */
module State {
  import opened Prelude
  import opened Endpoint
  import opened FieldUpdates
  import opened RateLimiter
  import opened Strategy
  import Cooldown
  import Config

  datatype Settings = Settings(
    maxBatchSize: nat,
    baseCooldownSecs: u64,
    maxCooldownSecs: u64,
    healthCheckIntervalSecs: u64,
    healthCheckTimeoutSecs: u64,
    smoothing: Factor)

  datatype Client = Client(
    connectTimeoutMs: u64,
    timeoutSecs: u64,
    poolIdleTimeoutSecs: u64,
    poolMaxIdlePerHost: nat)

  datatype Core = Core(
    endpoints: seq<RpcEndpoint>,
    metrics: map<EndpointMetrics, Metrics>,
    limiters: map<string, DirectRateLimiter>,
    buckets: map<DirectRateLimiter, Bucket>,
    settings: Settings,
    client: Client)

  /** Every identity in use has contents. */
  ghost predicate Closed(c: Core) {
    && (forall i :: 0 <= i < |c.endpoints| ==> c.endpoints[i].metrics in c.metrics)
    && (forall u :: u in c.limiters ==> c.limiters[u] in c.buckets)
  }

  // ---- Lookup by URL ----

  function FindFrom(eps: seq<RpcEndpoint>, url: string, from: nat): (r: Option<nat>)
    requires from <= |eps|
    ensures r.None? ==> forall j :: from <= j < |eps| ==> eps[j].url != url
    ensures r.Some? ==>
      from <= r.value < |eps| && eps[r.value].url == url && forall j :: from <= j < r.value ==> eps[j].url != url
    decreases |eps| - from
  {
    if from == |eps| then None
    else if eps[from].url == url then Some(from)
    else FindFrom(eps, url, from + 1)
  }

  /** `endpoints.iter().find(|e| e.url == url)`, as a position. */
  function Find(eps: seq<RpcEndpoint>, url: string): (r: Option<nat>)
    ensures r.None? ==> forall j :: 0 <= j < |eps| ==> eps[j].url != url
    ensures r.Some? ==> r.value < |eps| && eps[r.value].url == url && forall j :: 0 <= j < r.value ==> eps[j].url != url
  {
    FindFrom(eps, url, 0)
  }

  ghost function Urls(eps: seq<RpcEndpoint>): set<string> {
    set i | 0 <= i < |eps| :: eps[i].url
  }

  ghost predicate DistinctUrls(eps: seq<RpcEndpoint>) {
    forall i, j :: 0 <= i < j < |eps| ==> eps[i].url != eps[j].url
  }

  // ---- Marking (src/balancer.rs) ----

  function Cooling(c: Core, ep: RpcEndpoint, now: nat): RpcEndpoint {
    Cooldown.Triggered(ep, c.settings.baseCooldownSecs, c.settings.maxCooldownSecs, now)
  }

  function RateLimitedAt(c: Core, url: string, now: nat): Core {
    match Find(c.endpoints, url)
    case None => c
    case Some(i) => c.(endpoints := c.endpoints[i := Cooling(c, c.endpoints[i], now)])
  }

  function UnhealthyAt(c: Core, url: string, now: nat): Core {
    match Find(c.endpoints, url)
    case None => c
    case Some(i) =>
      if c.endpoints[i].healthy
      then c.(endpoints := c.endpoints[i := Cooling(c, c.endpoints[i].(healthy := false), now)])
      else c
  }

  /** The metrics block of `forward_request`. */
  function Observed(c: Core, url: string, outcome: RequestOutcome): Core
    requires Closed(c)
  {
    match Find(c.endpoints, url)
    case None => c
    case Some(i) =>
      var m := c.endpoints[i].metrics;
      c.(metrics := c.metrics[m := Updated(c.metrics[m], outcome, c.settings.smoothing)])
  }

  /** One atomic operation of the metrics block, between the operations of racing requests. */
  function FieldObserved(c: Core, url: string, op: FieldOp): Core
    requires Closed(c)
  {
    match Find(c.endpoints, url)
    case None => c
    case Some(i) =>
      var m := c.endpoints[i].metrics;
      c.(metrics := c.metrics[m := ApplyField(c.metrics[m], op)])
  }

  // ---- Selection (src/balancer.rs, src/strategy.rs) ----

  function KeyAt(c: Core, i: nat): Key
    requires Closed(c) && i < |c.endpoints|
  {
    var m := c.metrics[c.endpoints[i].metrics];
    Key(c.endpoints[i].weight, TotalCost(m), m.lastSelected)
  }

  function BucketAt(c: Core, url: string): Option<Bucket>
    requires Closed(c)
  {
    if url in c.limiters then Some(c.buckets[c.limiters[url]]) else None
  }

  ghost function EntryAt(c: Core, i: nat, batchSize: nat, now: nat): Entry
    requires Closed(c) && i < |c.endpoints|
  {
    var ep := c.endpoints[i];
    Entry(ep.Available(now) && ep.weight > 0, KeyAt(c, i), Reservable(BucketAt(c, ep.url), batchSize, now))
  }

  ghost function View(c: Core, batchSize: nat, now: nat): seq<Entry>
    requires Closed(c)
  {
    seq(|c.endpoints|, i requires 0 <= i < |c.endpoints| => EntryAt(c, i, batchSize, now))
  }

  /** The selected position. `BestUnique` makes the choice deterministic. */
  ghost function Best(c: Core, batchSize: nat, now: nat): (r: Option<nat>)
    requires Closed(c)
    ensures r.Some? ==> r.value < |c.endpoints| && IsBest(View(c, batchSize, now), r.value)
    ensures r.None? ==> forall i :: !IsBest(View(c, batchSize, now), i)
  {
    var es := View(c, batchSize, now);
    if exists i :: IsBest(es, i) then
      var i :| IsBest(es, i);
      Some(i)
    else
      None
  }

  /** A selection that found nothing means that no candidate admits. */
  lemma NoBestMeansNoneAdmits(c: Core, batchSize: nat, now: nat)
    requires Closed(c) && Best(c, batchSize, now).None?
    ensures NoneAdmits(View(c, batchSize, now))
  {
    ViewRanked(c, batchSize, now);
    var best := BestOrNone(View(c, batchSize, now));
  }

  lemma ViewRanked(c: Core, batchSize: nat, now: nat)
    requires Closed(c)
    ensures var es := View(c, batchSize, now);
      forall j :: 0 <= j < |es| && es[j].candidate ==> es[j].key.weight > 0
  {
  }

  /** The batch taken from the limiter of `url`, if it has one. */
  function Charge(c: Core, url: string, batchSize: nat, now: nat): map<DirectRateLimiter, Bucket>
    requires Closed(c)
  {
    if url in c.limiters && batchSize > 0
    then c.buckets[c.limiters[url] := c.buckets[c.limiters[url]].Take(batchSize, now)]
    else c.buckets
  }

  function SelectedAt(c: Core, i: nat, batchSize: nat, now: nat, secs: u64): Core
    requires Closed(c) && i < |c.endpoints|
  {
    var ep := c.endpoints[i];
    c.(buckets := Charge(c, ep.url, batchSize, now),
       metrics := c.metrics[ep.metrics := c.metrics[ep.metrics].(lastSelected := secs)])
  }

  /** `get_next_endpoint`. */
  ghost function Selected(c: Core, batchSize: nat, now: nat, secs: u64): Core
    requires Closed(c)
  {
    match Best(c, batchSize, now)
    case None => c
    case Some(i) => SelectedAt(c, i, batchSize, now, secs)
  }

  ghost function Winner(c: Core, batchSize: nat, now: nat): Option<string>
    requires Closed(c)
  {
    match Best(c, batchSize, now)
    case None => None
    case Some(i) => Some(c.endpoints[i].url)
  }

  // ---- Health commit (src/utils/health.rs) ----

  /** What one health result makes of an endpoint record. */
  function CheckedRecord(c: Core, ep: RpcEndpoint, ok: bool, now: nat): RpcEndpoint {
    var checked := ep.(healthy := ok, lastCheck := now);
    if ok then
      if ep.healthy then checked else checked.(cooldownAttempts := 0, cooldownUntil := None)
    else
      if ep.healthy then Cooling(c, checked, now) else checked
  }

  /** What one health result makes of the metrics of an endpoint. */
  function CheckedMetrics(c: Core, ep: RpcEndpoint, m: Metrics, ok: bool, timeoutSecs: u64): Metrics {
    if ok then
      if ep.healthy then m else Recovered(m)
    else
      Updated(m, Failure(Timeout, Millis(timeoutSecs)), c.settings.smoothing)
  }

  function Checked(c: Core, url: string, ok: bool, timeoutSecs: u64, now: nat): (r: Core)
    requires Closed(c)
    ensures Closed(r)
  {
    match Find(c.endpoints, url)
    case None => c
    case Some(i) =>
      var ep := c.endpoints[i];
      c.(endpoints := c.endpoints[i := CheckedRecord(c, ep, ok, now)],
         metrics := c.metrics[ep.metrics := CheckedMetrics(c, ep, c.metrics[ep.metrics], ok, timeoutSecs)])
  }

  datatype HealthResult = HealthResult(url: string, ok: bool)

  /** A round checks every URL of its snapshot once. */
  ghost predicate DistinctResults(results: seq<HealthResult>) {
    forall j, k :: 0 <= j < k < |results| ==> results[j].url != results[k].url
  }

  /** The commit loop over the results, in the order in which the checks finished. */
  function HealthCommitted(c: Core, results: seq<HealthResult>, timeoutSecs: u64, now: nat): (r: Core)
    requires Closed(c)
    ensures Closed(r)
    decreases |results|
  {
    if results == [] then c
    else
      var last := results[|results| - 1];
      Checked(HealthCommitted(c, results[..|results| - 1], timeoutSecs, now), last.url, last.ok, timeoutSecs, now)
  }

  /** What a round sees that has read the base cooldown before everything else. */
  function WithBase(c: Core, base: u64): Core {
    c.(settings := c.settings.(baseCooldownSecs := base))
  }

  /** The commit of a round that has read the base cooldown as `base`, perhaps before a reload changed it. */
  function RoundCommitted(c: Core, results: seq<HealthResult>, timeoutSecs: u64, base: u64, now: nat): (r: Core)
    requires Closed(c)
    ensures Closed(r)
  {
    HealthCommitted(WithBase(c, base), results, timeoutSecs, now).(settings := c.settings)
  }

  // ---- Reload (src/config_reloader.rs) ----

  /** What a reload has computed under its read locks and is about to write. */
  datatype Plan = Plan(
    endpoints: seq<RpcEndpoint>,
    limiters: map<string, DirectRateLimiter>,
    settings: Settings)

  /** A common endpoint keeps everything but its configured limits and weight. */
  function Reconfigured(ep: RpcEndpoint, e: Config.EndpointConfig): RpcEndpoint
    requires e.weight.Some?
  {
    ep.(rateLimitPerSec := e.rateLimitPerSec, burstSize := e.burstSize, weight := e.weight.value)
  }

  predicate LimitsUnchanged(ep: RpcEndpoint, e: Config.EndpointConfig) {
    ep.rateLimitPerSec == e.rateLimitPerSec && ep.burstSize == e.burstSize
  }

  ghost predicate PlannedRecord(c: Core, e: Config.EndpointConfig, now: nat, ep: RpcEndpoint,
                                newMetrics: map<EndpointMetrics, Metrics>)
    requires e.weight.Some?
  {
    match Find(c.endpoints, e.url)
    case Some(i) => ep == Reconfigured(c.endpoints[i], e)
    case None =>
      && ep == NewEndpoint(e.url, e.rateLimitPerSec, e.burstSize, e.weight.value, now, ep.metrics)
      && ep.metrics in newMetrics
      && newMetrics[ep.metrics] == InitMetrics(c.client.timeoutSecs)
  }

  /** Unchanged limits keep the limiter object there was; everything else gets a new, empty one. */
  ghost predicate PlannedLimiter(c: Core, e: Config.EndpointConfig, limiters: map<string, DirectRateLimiter>,
                                 newBuckets: map<DirectRateLimiter, Bucket>) {
    var found := Find(c.endpoints, e.url);
    if found.Some? && LimitsUnchanged(c.endpoints[found.value], e) then
      && (e.url in limiters <==> e.url in c.limiters)
      && (e.url in limiters ==> limiters[e.url] == c.limiters[e.url])
    else
      && e.url in limiters
      && limiters[e.url] in newBuckets
      && 1 <= e.rateLimitPerSec
      && newBuckets[limiters[e.url]] == NewBucket(e.burstSize, PeriodNanos(e.burstSize, e.rateLimitPerSec))
  }

  /** `plan` is what a reload of `cfg` computes in state `c`, with `newMetrics` and `newBuckets` its allocations. */
  ghost predicate IsPlan(c: Core, cfg: seq<Config.EndpointConfig>, settings: Settings, now: nat, plan: Plan,
                         newMetrics: map<EndpointMetrics, Metrics>, newBuckets: map<DirectRateLimiter, Bucket>)
    requires forall k :: 0 <= k < |cfg| ==> cfg[k].weight.Some?
  {
    && newMetrics.Keys !! c.metrics.Keys
    && newBuckets.Keys !! c.buckets.Keys
    && plan.settings == settings
    && |plan.endpoints| == |cfg|
    && (forall k :: 0 <= k < |cfg| ==> PlannedRecord(c, cfg[k], now, plan.endpoints[k], newMetrics))
    && (forall k, l :: 0 <= k < l < |cfg| && plan.endpoints[k].metrics in newMetrics
          ==> plan.endpoints[k].metrics != plan.endpoints[l].metrics)
    && plan.limiters.Keys <= Config.Urls(cfg)
    && (forall k :: 0 <= k < |cfg| ==> PlannedLimiter(c, cfg[k], plan.limiters, newBuckets))
    && (forall u, v :: u in plan.limiters && v in plan.limiters && u != v && plan.limiters[u] in newBuckets
          ==> plan.limiters[u] != plan.limiters[v])
  }

  /** Allocation alone: nothing the balancer refers to changes. */
  function Allocated(c: Core, newMetrics: map<EndpointMetrics, Metrics>,
                     newBuckets: map<DirectRateLimiter, Bucket>): Core {
    c.(metrics := c.metrics + newMetrics, buckets := c.buckets + newBuckets)
  }

  const SETTINGS_COUNT: nat := 6

  /** The settings after the `k`-th of the scalar writes at the end of a reload. */
  function SettingWritten(current: Settings, target: Settings, k: nat): Settings
    requires k < SETTINGS_COUNT
  {
    match k
    case 0 => current.(maxBatchSize := target.maxBatchSize)
    case 1 => current.(baseCooldownSecs := target.baseCooldownSecs)
    case 2 => current.(maxCooldownSecs := target.maxCooldownSecs)
    case 3 => current.(healthCheckIntervalSecs := target.healthCheckIntervalSecs)
    case 4 => current.(healthCheckTimeoutSecs := target.healthCheckTimeoutSecs)
    case _ => current.(smoothing := target.smoothing)
  }

  // ---- The whole system: every interleaving of the operations with one reload at a time ----

  datatype Phase =
    | Idle
    | Snapshotted(plan: Plan)
    | EndpointsWritten(plan: Plan)
    | WritingSettings(plan: Plan, next: nat)

  datatype System = System(core: Core, clock: nat, phase: Phase)

  /**
   * A mark reads both cooldown settings under nested guards, hence at one moment. A health commit drops the guard of
   * the base before it reads the maximum, so its `base` may be an older one.
   */
  datatype Step =
    | Select(batchSize: nat, now: nat, secs: u64)
    | Observe(url: string, outcome: RequestOutcome)
    | ObserveField(url: string, op: FieldOp)
    | MarkRateLimited(url: string, now: nat)
    | MarkUnhealthy(url: string, now: nat)
    | CommitHealth(results: seq<HealthResult>, timeoutSecs: u64, base: u64, now: nat)
    | RebuildClient(client: Client)
    | TakeSnapshot(cfg: seq<Config.EndpointConfig>, settings: Settings, now: nat, plan: Plan,
                   newMetrics: map<EndpointMetrics, Metrics>, newBuckets: map<DirectRateLimiter, Bucket>)
    | CommitEndpoints
    | CommitLimiters
    | CommitSetting

  /** The time of a step; steps without one leave the clock where it is. */
  function TimeOf(s: System, step: Step): nat {
    match step
    case Select(_, now, _) => now
    case MarkRateLimited(_, now) => now
    case MarkUnhealthy(_, now) => now
    case CommitHealth(_, _, _, now) => now
    case TakeSnapshot(_, _, now, _, _, _) => now
    case _ => s.clock
  }

  ghost predicate Enabled(s: System, step: Step) {
    && s.clock <= TimeOf(s, step)
    && match step
       case CommitHealth(results, _, _, _) => DistinctResults(results)
       case ObserveField(_, op) => !op.Stamp?
       case RebuildClient(_) => s.phase.Idle?
       case TakeSnapshot(cfg, settings, now, plan, newMetrics, newBuckets) =>
         && s.phase.Idle?
         && Config.UsableEndpoints(cfg)
         && IsPlan(s.core, cfg, settings, now, plan, newMetrics, newBuckets)
       case CommitEndpoints => s.phase.Snapshotted?
       case CommitLimiters => s.phase.EndpointsWritten?
       case CommitSetting => s.phase.WritingSettings? && s.phase.next < SETTINGS_COUNT
       case _ => true
  }

  ghost function NextCore(s: System, step: Step): Core
    requires Closed(s.core) && Enabled(s, step)
  {
    var c := s.core;
    match step
    case Select(batchSize, now, secs) => Selected(c, batchSize, now, secs)
    case Observe(url, outcome) => Observed(c, url, outcome)
    case ObserveField(url, op) => FieldObserved(c, url, op)
    case MarkRateLimited(url, now) => RateLimitedAt(c, url, now)
    case MarkUnhealthy(url, now) => UnhealthyAt(c, url, now)
    case CommitHealth(results, timeoutSecs, base, now) => RoundCommitted(c, results, timeoutSecs, base, now)
    case RebuildClient(client) => c.(client := client)
    case TakeSnapshot(_, _, _, _, newMetrics, newBuckets) => Allocated(c, newMetrics, newBuckets)
    case CommitEndpoints => c.(endpoints := s.phase.plan.endpoints)
    case CommitLimiters => c.(limiters := s.phase.plan.limiters)
    case CommitSetting => c.(settings := SettingWritten(c.settings, s.phase.plan.settings, s.phase.next))
  }

  function NextPhase(phase: Phase, step: Step): Phase {
    match step
    case TakeSnapshot(_, _, _, plan, _, _) => Snapshotted(plan)
    case CommitEndpoints => if phase.Snapshotted? then EndpointsWritten(phase.plan) else phase
    case CommitLimiters => if phase.EndpointsWritten? then WritingSettings(phase.plan, 0) else phase
    case CommitSetting =>
      if phase.WritingSettings? && phase.next + 1 < SETTINGS_COUNT
      then WritingSettings(phase.plan, phase.next + 1)
      else Idle
    case _ => phase
  }

  ghost function Next(s: System, step: Step): System
    requires Closed(s.core) && Enabled(s, step)
  {
    System(NextCore(s, step), TimeOf(s, step), NextPhase(s.phase, step))
  }

  /** The endpoint a step sends a request to. */
  ghost function Routed(s: System, step: Step): Option<string>
    requires Closed(s.core)
  {
    if step.Select? then Winner(s.core, step.batchSize, step.now) else None
  }
}
