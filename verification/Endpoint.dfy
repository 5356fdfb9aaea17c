/** `src/endpoint.rs`: endpoint records, their shared metrics object and the metric arithmetic. */
module Endpoint {
  import opened Prelude

  datatype ErrorKind = Timeout | ConnectionError | Http5xx | Http4xx | RateLimit

  datatype RequestOutcome =
    | Success(latencyMs: u64)
    | Failure(errorKind: ErrorKind, latencyMs: u64)

  /** A smoothing factor after `Config::finalize` has clamped it. */
  type Factor = a: real | 0.0 <= a <= 1.0 witness 0.0

  const HALF: Factor := 0.5
  const FOUR_FIFTHS: Factor := 0.8

  /** The contents of an `EndpointMetrics` object at one moment. */
  datatype Metrics = Metrics(
    emaLatencyMs: u64,
    emaErrorPenaltyMs: u64,
    consecutiveFailures: u32,
    lastSelected: u64)

  /** The contents of the metrics object of a newly configured endpoint. */
  function InitMetrics(timeoutSecs: u64): Metrics {
    Metrics(Millis(timeoutSecs), 0, 0, 0)
  }

  /** `f64::round`: the nearest integer, halves away from zero. */
  function Round(x: real): int {
    if x >= 0.0 then (x + 0.5).Floor else -((0.5 - x).Floor)
  }

  /** A fraction of a distance is at most the distance. */
  lemma FractionBound(alpha: real, d: real) returns (t: real)
    requires 0.0 <= alpha <= 1.0 && 0.0 <= d
    ensures t == alpha * d && 0.0 <= t <= d
  {
    t := alpha * d;
    NonnegativeProduct(alpha, d);
    NonnegativeProduct(1.0 - alpha, d);
    assert (1.0 - alpha) * d == d - t;
  }

  lemma NonnegativeProduct(x: real, y: real)
    requires 0.0 <= x && 0.0 <= y
    ensures 0.0 <= x * y
  {
  }

  /** The blend before rounding: `current` moved towards `value` by the fraction `alpha`. */
  function Blend(current: real, value: real, alpha: Factor): (b: real)
    ensures b == current + alpha * (value - current)
    ensures current <= value ==> current <= b <= value
    ensures value <= current ==> value <= b <= current
  {
    var b := alpha * value + (1.0 - alpha) * current;
    BlendBounds(current, value, alpha, b);
    b
  }

  lemma BlendBounds(c: real, v: real, alpha: real, b: real)
    requires 0.0 <= alpha <= 1.0
    requires b == alpha * v + (1.0 - alpha) * c
    ensures b == c + alpha * (v - c)
    ensures c <= v ==> c <= b <= v
    ensures v <= c ==> v <= b <= c
  {
    if c <= v {
      var t := FractionBound(alpha, v - c);
      assert b == c + t;
    } else {
      var t := FractionBound(alpha, c - v);
      assert b == c - t;
    }
  }

  /** `update_ema`: a smoothed average never leaves the interval between the old value and the sample. */
  function UpdateEma(current: u64, value: u64, alpha: Factor): (ema: u64)
    ensures current <= value ==> current <= ema <= value
    ensures value <= current ==> value <= ema <= current
  {
    var b := Blend(current as real, value as real, alpha);
    Round(b)
  }

  function BasePenalty(kind: ErrorKind): u64 {
    match kind
    case Timeout => 30_000
    case ConnectionError => 20_000
    case Http5xx => 15_000
    case Http4xx => 5_000
    case RateLimit => 10_000
  }

  /** `calculate_penalty`: the worse of the latency and the base penalty of the error. */
  function CalculatePenalty(kind: ErrorKind, latencyMs: u64): u64 {
    Max(BasePenalty(kind), latencyMs)
  }

  /** `get_total_cost`: saturating sum of latency and penalty, at least 1000. */
  function TotalCost(m: Metrics): u64 {
    Max(Min(m.emaLatencyMs + m.emaErrorPenaltyMs, U64_MAX), 1000)
  }

  /** The fast decay a success, or a recovery, applies to the penalty. */
  function DecayedPenalty(penalty: u64): u64 {
    UpdateEma(penalty, 0, HALF)
  }

  /** The fast attack a failure applies to the penalty. */
  function AttackedPenalty(penalty: u64, sample: u64): u64 {
    UpdateEma(penalty, sample, FOUR_FIFTHS)
  }

  /** `fetch_add(1)` on an `AtomicU32` wraps around. */
  function WrappingInc(n: u32): u32 {
    if n == U32_MAX then 0 else n + 1
  }

  /** The contents `EndpointMetrics::update` leaves behind. */
  function Updated(m: Metrics, outcome: RequestOutcome, smoothing: Factor): Metrics {
    match outcome
    case Success(latencyMs) =>
      m.(emaLatencyMs := UpdateEma(m.emaLatencyMs, latencyMs, smoothing),
         consecutiveFailures := 0,
         emaErrorPenaltyMs := DecayedPenalty(m.emaErrorPenaltyMs))
    case Failure(kind, latencyMs) =>
      m.(emaErrorPenaltyMs := AttackedPenalty(m.emaErrorPenaltyMs, CalculatePenalty(kind, latencyMs)),
         consecutiveFailures := WrappingInc(m.consecutiveFailures))
  }

  /** What a recovered health check does to the metrics. */
  function Recovered(m: Metrics): Metrics {
    m.(consecutiveFailures := 0, emaErrorPenaltyMs := DecayedPenalty(m.emaErrorPenaltyMs))
  }

  /** The cost never falls below 1000 nor below either of its parts, and grows with both. */
  lemma CostBounds(m: Metrics, worse: Metrics)
    requires m.emaLatencyMs <= worse.emaLatencyMs && m.emaErrorPenaltyMs <= worse.emaErrorPenaltyMs
    ensures 1000 <= TotalCost(m) <= TotalCost(worse)
    ensures m.emaLatencyMs <= TotalCost(m) && m.emaErrorPenaltyMs <= TotalCost(m)
    ensures 1000 <= m.emaLatencyMs + m.emaErrorPenaltyMs < worse.emaLatencyMs + worse.emaErrorPenaltyMs <= U64_MAX ==>
      TotalCost(m) < TotalCost(worse)
  {
  }

  /**
   * What an outcome does to the cost: a success that is not slower than the average never raises it, and a
   * failure whose penalty is not below the current one never lowers it.
   */
  lemma OutcomeMovesCost(m: Metrics, outcome: RequestOutcome, smoothing: Factor)
    ensures outcome.Success? && outcome.latencyMs <= m.emaLatencyMs ==>
      TotalCost(Updated(m, outcome, smoothing)) <= TotalCost(m)
    ensures outcome.Failure? && m.emaErrorPenaltyMs <= CalculatePenalty(outcome.errorKind, outcome.latencyMs) ==>
      TotalCost(m) <= TotalCost(Updated(m, outcome, smoothing))
  {
    var after := Updated(m, outcome, smoothing);
    if outcome.Success? && outcome.latencyMs <= m.emaLatencyMs {
      CostBounds(after, m);
    } else if outcome.Failure? && m.emaErrorPenaltyMs <= CalculatePenalty(outcome.errorKind, outcome.latencyMs) {
      CostBounds(m, after);
    }
  }

  /** The object behind `Arc<EndpointMetrics>`: shared by every clone of an endpoint record. */
  class EndpointMetrics {
    var emaLatencyMs: u64
    var emaErrorPenaltyMs: u64
    var consecutiveFailures: u32
    var lastSelected: u64

    ghost function Value(): Metrics
      reads this
    {
      Metrics(emaLatencyMs, emaErrorPenaltyMs, consecutiveFailures, lastSelected)
    }

    constructor (timeoutSecs: u64)
      ensures Value() == InitMetrics(timeoutSecs)
    {
      emaLatencyMs := Millis(timeoutSecs);
      emaErrorPenaltyMs, consecutiveFailures, lastSelected := 0, 0, 0;
    }

    method Update(outcome: RequestOutcome, smoothing: Factor)
      modifies this
      ensures Value() == Updated(old(Value()), outcome, smoothing)
    {
      match outcome {
        case Success(latencyMs) =>
          emaLatencyMs := UpdateEma(emaLatencyMs, latencyMs, smoothing);
          consecutiveFailures := 0;
          emaErrorPenaltyMs := UpdateEma(emaErrorPenaltyMs, 0, HALF);
        case Failure(kind, latencyMs) =>
          var penalty := CalculatePenalty(kind, latencyMs);
          emaErrorPenaltyMs := UpdateEma(emaErrorPenaltyMs, penalty, FOUR_FIFTHS);
          consecutiveFailures := WrappingInc(consecutiveFailures);
      }
    }

    method Recover()
      modifies this
      ensures Value() == Recovered(old(Value()))
    {
      consecutiveFailures := 0;
      emaErrorPenaltyMs := UpdateEma(emaErrorPenaltyMs, 0, HALF);
    }

    method Touch(secs: u64)
      modifies this
      ensures Value() == old(Value()).(lastSelected := secs)
    {
      lastSelected := secs;
    }

    function GetTotalCost(): (cost: u64)
      reads this
      ensures cost == TotalCost(Value()) && 1000 <= cost
    {
      var raw := Min(emaLatencyMs + emaErrorPenaltyMs, U64_MAX);
      Max(raw, 1000)
    }
  }

  /** An endpoint record. Cloning one copies every field but shares the metrics object. */
  datatype RpcEndpoint = RpcEndpoint(
    url: string,
    healthy: bool,
    lastCheck: nat,
    cooldownUntil: Option<nat>,
    cooldownAttempts: u32,
    rateLimitPerSec: u32,
    burstSize: u32,
    weight: u32,
    metrics: EndpointMetrics)
  {
    predicate InCooldown(now: nat) {
      cooldownUntil.Some? && now < cooldownUntil.value
    }

    predicate Available(now: nat) {
      healthy && !InCooldown(now)
    }
  }

  /** The state of an endpoint that has just been configured. */
  function NewEndpoint(url: string, rate: u32, burst: u32, weight: u32, now: nat, metrics: EndpointMetrics)
    : RpcEndpoint
  {
    RpcEndpoint(url, true, now, None, 0, rate, burst, weight, metrics)
  }
}
