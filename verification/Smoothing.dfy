/** Long-run behaviour of the metric arithmetic of `src/endpoint.rs`. */
module Smoothing {
  import opened Prelude
  import opened Endpoint

  function Distance(a: int, b: int): nat {
    if a <= b then b - a else a - b
  }

  /** `n` applications of one update. */
  ghost function Iterate(step: u64 -> u64, current: u64, n: nat): u64
    decreases n
  {
    if n == 0 then current else Iterate(step, step(current), n - 1)
  }

  // ---- Moving average under a constant sample ----

  /** The dead zone around a sample. Halves round away from zero, so its two sides differ. */
  predicate Stuck(current: u64, sample: u64, alpha: Factor) {
    if current <= sample
    then alpha * (sample as real - current as real) < 0.5
    else alpha * (current as real - sample as real) <= 0.5
  }

  /** Exactly the averages in the dead zone stay where they are. */
  lemma EmaFixedPoint(current: u64, sample: u64, alpha: Factor)
    ensures UpdateEma(current, sample, alpha) == current <==> Stuck(current, sample, alpha)
  {
    var c, v := current as real, sample as real;
    var b := Blend(c, v, alpha);
    assert UpdateEma(current, sample, alpha) == Round(b);
    if current <= sample {
      var t := FractionBound(alpha, v - c);
      assert b == c + t;
      assert Stuck(current, sample, alpha) <==> t < 0.5;
      RoundAbove(current, t, b);
    } else {
      var t := FractionBound(alpha, c - v);
      assert b == c - t;
      assert Stuck(current, sample, alpha) <==> t <= 0.5;
      RoundBelow(current, t, b);
    }
  }

  lemma RoundAbove(c: nat, t: real, b: real)
    requires 0.0 <= t && b == c as real + t
    ensures Round(b) == c <==> t < 0.5
  {
  }

  lemma RoundBelow(c: nat, t: real, b: real)
    requires 0.0 <= t <= c as real && b == c as real - t
    ensures Round(b) == c <==> t <= 0.5
  {
  }

  /** Outside the dead zone every update moves strictly towards the sample and never past it. */
  lemma EmaApproaches(current: u64, sample: u64, alpha: Factor)
    requires !Stuck(current, sample, alpha)
    ensures current < sample ==> current < UpdateEma(current, sample, alpha) <= sample
    ensures sample < current ==> sample <= UpdateEma(current, sample, alpha) < current
    ensures current != sample
  {
    EmaFixedPoint(current, sample, alpha);
  }

  /** An update that never leaves the interval between its argument and `goal` stops within the distance. */
  lemma {:induction false} IterateSettles(step: u64 -> u64, goal: u64, current: u64, n: nat)
    requires forall c: u64 :: (c <= goal ==> c <= step(c) <= goal) && (goal <= c ==> goal <= step(c) <= c)
    requires Distance(current, goal) <= n
    ensures step(Iterate(step, current, n)) == Iterate(step, current, n)
    decreases n
  {
    if step(current) == current {
      IterateStays(step, current, n);
    } else {
      IterateSettles(step, goal, step(current), n - 1);
    }
  }

  lemma {:induction false} IterateStays(step: u64 -> u64, current: u64, n: nat)
    requires step(current) == current
    ensures Iterate(step, current, n) == current
    decreases n
  {
    if n > 0 {
      IterateStays(step, current, n - 1);
    }
  }

  /**
   * The initial distance to a constant sample bounds the number of updates after which the
   * average has stopped for good, in the dead zone of the sample.
   */
  lemma EmaSettles(current: u64, sample: u64, alpha: Factor, n: nat)
    requires Distance(current, sample) <= n
    ensures Stuck(Iterate((c: u64) => UpdateEma(c, sample, alpha), current, n), sample, alpha)
  {
    var step := (c: u64) => UpdateEma(c, sample, alpha);
    IterateSettles(step, sample, current, n);
    EmaFixedPoint(Iterate(step, current, n), sample, alpha);
  }

  // ---- Penalty decay and attack ----

  lemma DecayHalves(penalty: u64)
    ensures DecayedPenalty(penalty) == (penalty + 1) / 2
  {
    var b := Blend(penalty as real, 0.0, HALF);
    assert b == penalty as real / 2.0;
  }

  lemma {:induction false} HalvingClosedForm(step: u64 -> u64, current: u64, n: nat)
    requires forall c: u64 :: step(c) == (c + 1) / 2
    ensures (Iterate(step, current, n) - 1) * Pow2(n) < current <= Iterate(step, current, n) * Pow2(n)
    decreases n
  {
    if n > 0 {
      HalvingClosedForm(step, step(current), n - 1);
      CeilingDoubles(Iterate(step, step(current), n - 1), Pow2(n - 1), current);
    }
  }

  lemma CeilingDoubles(r: int, q: int, p: int)
    requires (r - 1) * q < (p + 1) / 2 <= r * q
    ensures (r - 1) * (2 * q) < p <= r * (2 * q)
  {
    var above, below := r * q, (r - 1) * q;
    assert r * (2 * q) == 2 * above;
    assert (r - 1) * (2 * q) == 2 * below;
  }

  /** `n` successes in a row turn a penalty `p` into exactly `p / 2^n`, rounded up. */
  lemma DecaysClosedForm(penalty: u64, n: nat)
    ensures var r := Iterate((c: u64) => DecayedPenalty(c), penalty, n);
      (r - 1) * Pow2(n) < penalty <= r * Pow2(n)
  {
    forall c: u64
      ensures DecayedPenalty(c) == (c + 1) / 2
    {
      DecayHalves(c);
    }
    HalvingClosedForm((c: u64) => DecayedPenalty(c), penalty, n);
  }

  /** A positive penalty settles at 1, never at 0, once `2^n` reaches it; a zero penalty stays zero. */
  lemma DecaysSettle(penalty: u64, n: nat)
    requires penalty <= Pow2(n)
    ensures Iterate((c: u64) => DecayedPenalty(c), penalty, n) == if penalty == 0 then 0 else 1
  {
    DecaysClosedForm(penalty, n);
    OnlyOneCeiling(Iterate((c: u64) => DecayedPenalty(c), penalty, n), Pow2(n), penalty);
  }

  lemma OnlyOneCeiling(r: nat, q: nat, p: nat)
    requires (r - 1) * q < p <= r * q && p <= q
    ensures r == if p == 0 then 0 else 1
  {
    if r >= 2 {
      MulMonotone(1, r - 1, q);
    }
  }

  /** One failure with penalty sample `q` leaves exactly a rounded fifth of the distance. */
  lemma AttackContracts(penalty: u64, q: u64)
    ensures Distance(AttackedPenalty(penalty, q), q) == (Distance(penalty, q) + 2) / 5
  {
    var d := Distance(penalty, q);
    var b := Blend(penalty as real, q as real, FOUR_FIFTHS);
    if penalty <= q {
      assert b == q as real - d as real / 5.0;
    } else {
      assert b == q as real + d as real / 5.0;
    }
  }

  function Pow5(n: nat): nat {
    if n == 0 then 1 else 5 * Pow5(n - 1)
  }

  lemma {:induction false} FifthsReach(step: u64 -> u64, goal: u64, current: u64, n: nat)
    requires forall c: u64 :: Distance(step(c), goal) == (Distance(c, goal) + 2) / 5
    requires Distance(current, goal) <= 2 * Pow5(n)
    ensures Iterate(step, current, n + 1) == goal
    decreases n
  {
    var next := step(current);
    assert Distance(next, goal) == (Distance(current, goal) + 2) / 5;
    assert Iterate(step, current, n + 1) == Iterate(step, next, n);
    if n > 0 {
      FifthsReach(step, goal, next, n - 1);
    }
  }

  /** Repeated failures reach their penalty sample exactly, after logarithmically many of them. */
  lemma {:induction false} AttacksReach(penalty: u64, q: u64, n: nat)
    requires Distance(penalty, q) <= 2 * Pow5(n)
    ensures Iterate((c: u64) => AttackedPenalty(c, q), penalty, n + 1) == q
  {
    forall c: u64
      ensures Distance(AttackedPenalty(c, q), q) == (Distance(c, q) + 2) / 5
    {
      AttackContracts(c, q);
    }
    FifthsReach((c: u64) => AttackedPenalty(c, q), q, penalty, n);
  }

  // ---- One update ----

  lemma RoundIsNear(x: real)
    ensures -0.5 <= Round(x) as real - x <= 0.5
  {
  }

  /** A success moves the average by the configured fraction of the distance, and halves the penalty. */
  lemma SuccessSmooths(m: Metrics, latencyMs: u64, alpha: Factor)
    ensures var after, v := Updated(m, Success(latencyMs), alpha), m.emaLatencyMs as real;
      && -0.5 <= after.emaLatencyMs as real - (v + alpha * (latencyMs as real - v)) <= 0.5
      && after.emaErrorPenaltyMs == (m.emaErrorPenaltyMs + 1) / 2
      && after.consecutiveFailures == 0 && after.lastSelected == m.lastSelected
  {
    RoundIsNear(Blend(m.emaLatencyMs as real, latencyMs as real, alpha));
    DecayHalves(m.emaErrorPenaltyMs);
  }

  // ---- Arbitrary runs of updates on one metrics object ----

  datatype MetricsOp =
    | Observe(outcome: RequestOutcome, smoothing: Factor)
    | Recover
    | Touch(secs: u64)

  function Apply(m: Metrics, op: MetricsOp): Metrics {
    match op
    case Observe(outcome, smoothing) => Updated(m, outcome, smoothing)
    case Recover => Recovered(m)
    case Touch(secs) => m.(lastSelected := secs)
  }

  /** The metrics after a whole sequence of updates. */
  function Fold(m: Metrics, ops: seq<MetricsOp>): Metrics {
    if ops == [] then m else Apply(Fold(m, ops[..|ops| - 1]), ops[|ops| - 1])
  }

  /** Failures since the last success or recovery, `before` of them ahead of `ops`. */
  function FailuresInARow(before: nat, ops: seq<MetricsOp>): nat {
    if ops == [] then before
    else
      match ops[|ops| - 1]
      case Observe(Failure(_, _), _) => FailuresInARow(before, ops[..|ops| - 1]) + 1
      case Touch(_) => FailuresInARow(before, ops[..|ops| - 1])
      case _ => 0
  }

  /** Over any run the failure counter counts the failures since the last success or recovery, modulo 2^32. */
  lemma {:induction false} CounterCountsFailures(m: Metrics, ops: seq<MetricsOp>)
    ensures Fold(m, ops).consecutiveFailures == FailuresInARow(m.consecutiveFailures, ops) % 0x1_0000_0000
  {
    if ops != [] {
      CounterCountsFailures(m, ops[..|ops| - 1]);
    }
  }

  /** Every success latency in `ops` lies between `lo` and `hi`. */
  predicate LatenciesWithin(ops: seq<MetricsOp>, lo: u64, hi: u64) {
    forall k :: 0 <= k < |ops| && ops[k].Observe? && ops[k].outcome.Success?
      ==> lo <= ops[k].outcome.latencyMs <= hi
  }

  /** Over any run, with any smoothing factors, the latency average stays within its inputs. */
  lemma {:induction false} LatencyStaysWithin(m: Metrics, ops: seq<MetricsOp>, lo: u64, hi: u64)
    requires lo <= m.emaLatencyMs <= hi && LatenciesWithin(ops, lo, hi)
    ensures lo <= Fold(m, ops).emaLatencyMs <= hi
  {
    if ops != [] {
      LatencyStaysWithin(m, ops[..|ops| - 1], lo, hi);
    }
  }

  predicate PenaltiesAtMost(ops: seq<MetricsOp>, cap: u64) {
    forall k :: 0 <= k < |ops| && ops[k].Observe? && ops[k].outcome.Failure?
      ==> CalculatePenalty(ops[k].outcome.errorKind, ops[k].outcome.latencyMs) <= cap
  }

  /** Over any run the penalty never exceeds the largest penalty applied. */
  lemma {:induction false} PenaltyNeverExceeds(m: Metrics, ops: seq<MetricsOp>, cap: u64)
    requires m.emaErrorPenaltyMs <= cap && PenaltiesAtMost(ops, cap)
    ensures Fold(m, ops).emaErrorPenaltyMs <= cap
  {
    if ops != [] {
      PenaltyNeverExceeds(m, ops[..|ops| - 1], cap);
    }
  }

  /** A positive penalty never returns to zero. */
  lemma {:induction false} PenaltyNeverForgotten(m: Metrics, ops: seq<MetricsOp>)
    requires 0 < m.emaErrorPenaltyMs
    ensures 0 < Fold(m, ops).emaErrorPenaltyMs
  {
    if ops != [] {
      var before := Fold(m, ops[..|ops| - 1]);
      PenaltyNeverForgotten(m, ops[..|ops| - 1]);
      DecayHalves(before.emaErrorPenaltyMs);
      match ops[|ops| - 1]
      case Observe(outcome, _) =>
        if outcome.Failure? {
          AttackContracts(before.emaErrorPenaltyMs, CalculatePenalty(outcome.errorKind, outcome.latencyMs));
        }
      case _ =>
    }
  }
}
