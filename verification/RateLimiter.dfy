/**
 * The token bucket behind `DirectRateLimiter`, and `create_rate_limiter` of `src/config_reloader.rs`.
 * The limiter library is not part of the repository. What is assumed of it: a leaky bucket that holds
 * `capacity` tokens, drains them evenly over `period` nanoseconds, and grants a request for `n`
 * tokens all or nothing. Levels count tokens times `period`, so that all arithmetic is exact.
 */
module RateLimiter {
  import opened Prelude

  datatype Bucket = Bucket(capacity: nat, period: nat, level: nat, last: nat) {
    predicate Valid() {
      level <= capacity * period
    }

    /** The level at `now`; a clock that runs backwards is ignored. */
    function Drained(now: nat): (l: nat)
      ensures l <= level
    {
      var leaked := capacity * (Max(now, last) - last);
      Max(level - leaked, 0)
    }

    predicate Admits(n: nat, now: nat) {
      Drained(now) + n * period <= capacity * period
    }

    function Take(n: nat, now: nat): Bucket {
      this.(level := Drained(now) + n * period, last := Max(now, last))
    }
  }

  function NewBucket(capacity: nat, period: nat): Bucket {
    Bucket(capacity, period, 0, 0)
  }

  class DirectRateLimiter {
    const capacity: nat
    const period: nat
    var level: nat
    var last: nat

    ghost function Value(): Bucket
      reads this
    {
      Bucket(capacity, period, level, last)
    }

    constructor (capacity: nat, period: nat)
      ensures Value() == NewBucket(capacity, period)
    {
      this.capacity, this.period := capacity, period;
      level, last := 0, 0;
    }

    /** All or nothing: a refused request leaves the bucket as it was. */
    method CheckN(n: nat, now: nat) returns (ok: bool)
      modifies this
      ensures ok == old(Value()).Admits(n, now)
      ensures Value() == if ok then old(Value()).Take(n, now) else old(Value())
    {
      var at := Max(now, last);
      var drained := Max(level - capacity * (at - last), 0);
      var full := drained + n * period;
      ok := full <= capacity * period;
      if ok {
        level, last := full, at;
      }
    }
  }

  function PeriodNanos(burst: u32, rate: u32): nat
    requires 1 <= rate
  {
    burst * NANOS_PER_SEC / rate
  }

  method CreateRateLimiter(burst: u32, rate: u32) returns (limiter: DirectRateLimiter)
    requires 1 <= burst && 1 <= rate
    ensures fresh(limiter)
    ensures limiter.Value() == NewBucket(burst, PeriodNanos(burst, rate))
  {
    var periodNanos := burst * NANOS_PER_SEC / rate;
    limiter := new DirectRateLimiter(burst, periodNanos);
  }

  /** The bounds config validation puts on an endpoint's limits. */
  predicate ValidLimits(burst: u32, rate: u32) {
    1 <= burst <= 10_000 && 1 <= rate <= 100_000
  }

  /** Flooring the period speeds the drain up by at most one part in ten thousand, and never slows it. */
  lemma PeriodAccuracy(burst: u32, rate: u32)
    requires ValidLimits(burst, rate)
    ensures 10_000 <= PeriodNanos(burst, rate) <= 10_000_000_000_000
    ensures rate * PeriodNanos(burst, rate) <= burst * NANOS_PER_SEC
    ensures burst * NANOS_PER_SEC * 10_000 <= rate * PeriodNanos(burst, rate) * 10_001
  {
    var total, p := burst * NANOS_PER_SEC, PeriodNanos(burst, rate);
    QuotientBounds(total, rate, p);
    if p < 10_000 {
      MulMonotone(p, 9_999, rate);
    }
    if p > 10_000_000_000_000 {
      MulMonotone(1, rate, p);
    }
    MulMonotone(10_000, p, rate);
  }

  lemma QuotientBounds(total: nat, rate: nat, p: nat)
    requires 1 <= rate && p == total / rate
    ensures rate * p <= total < rate * p + rate
  {
  }

  // ---- What is granted at once ----

  /** The batch fits the capacity, together with what has not drained since the last grant. */
  predicate HasRoom(b: Bucket, n: nat, now: nat) {
    && n * b.period <= b.capacity * b.period
    && b.level + n * b.period <= b.capacity * b.period + b.capacity * (if now <= b.last then 0 else now - b.last)
  }

  lemma AdmitsIff(b: Bucket, n: nat, now: nat)
    ensures b.Admits(n, now) <==> HasRoom(b, n, now)
  {
    assert b.capacity * 0 == 0;
  }

  /** Of a new limiter, and of one that has been idle for a period, exactly the batches up to the burst get through. */
  lemma RestedAdmitsIff(b: Bucket, n: nat, now: nat)
    requires b.Valid() && 0 < b.period && (b.level == 0 || b.last + b.period <= now)
    ensures b.Admits(n, now) <==> n <= b.capacity
  {
    AdmitsIff(b, n, now);
    if b.level != 0 {
      MulMonotone(b.period, now - b.last, b.capacity);
    } else {
      MulMonotone(0, Max(now - b.last, 0), b.capacity);
    }
    if n <= b.capacity {
      MulMonotone(n, b.capacity, b.period);
    } else {
      MulMonotone(b.capacity + 1, n, b.period);
    }
  }

  /** What is granted is gone: at the same moment as much fits behind a grant as fits together with it. */
  lemma GrantedIsGone(b: Bucket, n: nat, more: nat, now: nat)
    requires b.Admits(n, now)
    ensures b.Take(n, now).Admits(more, now) <==> b.Admits(n + more, now)
  {
    assert (n + more) * b.period == n * b.period + more * b.period;
    assert b.capacity * 0 == 0;
  }

  // ---- Grants over a whole run ----

  datatype Grant = Grant(tokens: nat, at: nat)

  /** `grants` is a sequence of admitted requests, each served by the bucket the previous one left. */
  ghost predicate Served(b: Bucket, grants: seq<Grant>)
    decreases |grants|
  {
    grants == [] || (b.Admits(grants[0].tokens, grants[0].at) && Served(AfterGrant(b, grants[0]), grants[1..]))
  }

  ghost function AfterGrant(b: Bucket, g: Grant): Bucket {
    b.Take(g.tokens, g.at)
  }

  ghost function After(b: Bucket, grants: seq<Grant>): Bucket
    decreases |grants|
  {
    if grants == [] then b else After(AfterGrant(b, grants[0]), grants[1..])
  }

  /** What is granted between two moments. */
  ghost function TokensIn(grants: seq<Grant>, from: nat, to: nat): nat
    decreases |grants|
  {
    if grants == [] then 0
    else (if from <= grants[0].at <= to then grants[0].tokens else 0) + TokensIn(grants[1..], from, to)
  }

  ghost predicate Chronological(grants: seq<Grant>, start: nat)
    decreases |grants|
  {
    grants == [] || (start <= grants[0].at && Chronological(grants[1..], grants[0].at))
  }

  lemma {:induction false} NoneInThePast(grants: seq<Grant>, start: nat, from: nat, to: nat)
    requires Chronological(grants, start) && to < start
    ensures TokensIn(grants, from, to) == 0
    decreases |grants|
  {
    if grants != [] {
      NoneInThePast(grants[1..], grants[0].at, from, to);
    }
  }

  /** Draining earlier or later: the level lost between two moments is at most `capacity` per nanosecond. */
  lemma DrainRate(b: Bucket, from: nat, at: nat)
    requires from <= at
    ensures b.Drained(from) <= b.Drained(at) + b.capacity * (Max(at, b.last) - Max(from, b.last))
  {
    var early, late := Max(from, b.last) - b.last, Max(at, b.last) - b.last;
    assert b.capacity * (late - early) == b.capacity * late - b.capacity * early;
    MulMonotone(early, late, b.capacity);
  }

  /** A grant before the window leaves at least as much in the bucket at its start. */
  lemma EarlierGrant(b: Bucket, g: Grant, from: nat)
    requires b.last <= g.at < from
    ensures b.Drained(from) <= AfterGrant(b, g).Drained(from)
  {
    assert b.capacity * (from - b.last) == b.capacity * (g.at - b.last) + b.capacity * (from - g.at);
    MulMonotone(0, from - g.at, b.capacity);
    MulMonotone(0, g.tokens, b.period);
  }

  lemma EmptyWindow(b: Bucket, from: nat, to: nat)
    requires b.Valid() && Max(from, b.last) <= to
    ensures b.Drained(from) <= b.capacity * b.period + b.capacity * (to - Max(from, b.last))
  {
    MulMonotone(0, to - Max(from, b.last), b.capacity);
  }

  /** What is granted in a window, plus what was in the bucket, fits the capacity plus what drains. */
  lemma {:induction false} WindowBound(b: Bucket, grants: seq<Grant>, from: nat, to: nat)
    requires b.Valid() && Served(b, grants) && Chronological(grants, b.last)
    requires Max(from, b.last) <= to
    ensures TokensIn(grants, from, to) * b.period + b.Drained(from)
         <= b.capacity * b.period + b.capacity * (to - Max(from, b.last))
    decreases |grants|
  {
    if grants == [] || to < grants[0].at {
      EmptyWindow(b, from, to);
      if grants != [] {
        NoneInThePast(grants[1..], grants[0].at, from, to);
      }
    } else {
      var g, rest := grants[0], grants[1..];
      var next := AfterGrant(b, g);
      WindowBound(next, rest, from, to);
      if g.at < from {
        EarlierGrant(b, g, from);
      } else {
        var start := Max(from, b.last);
        assert next.Drained(from) == b.Drained(g.at) + g.tokens * b.period by {
          assert next.capacity * 0 == 0;
        }
        DrainRate(b, from, g.at);
        WindowStep(b.capacity, b.period, g.tokens, TokensIn(rest, from, to), start, next.last, to,
                   b.Drained(from), b.Drained(g.at));
      }
    }
  }

  lemma WindowStep(cap: nat, period: nat, n: nat, rest: nat, start: nat, mid: nat, to: nat, early: nat, late: nat)
    requires rest * period + (late + n * period) <= cap * period + cap * (to - mid)
    requires early <= late + cap * (mid - start)
    ensures (n + rest) * period + early <= cap * period + cap * (to - start)
  {
    assert cap * (to - start) == cap * (to - mid) + cap * (mid - start);
    assert (n + rest) * period == n * period + rest * period;
  }

  /** At most `burst` tokens plus `window * burst / period` are granted in any window. */
  lemma {:induction false} GrantedInWindow(b: Bucket, grants: seq<Grant>, from: nat, to: nat)
    requires b.Valid() && Served(b, grants) && Chronological(grants, b.last) && from <= to
    ensures TokensIn(grants, from, to) * b.period <= b.capacity * b.period + b.capacity * (to - from)
  {
    MulMonotone(0, to - from, b.capacity);
    if to < b.last {
      NoneInThePast(grants, b.last, from, to);
    } else {
      WindowBound(b, grants, from, to);
      MulMonotone(to - Max(from, b.last), to - from, b.capacity);
    }
  }

  /** In terms of the configured limits: `burst` plus `rate` per second, off by at most 0.01 percent. */
  lemma {:induction false} GrantedAtConfiguredRate(b: Bucket, grants: seq<Grant>, from: nat, to: nat, burst: u32,
                                                   rate: u32)
    requires ValidLimits(burst, rate) && b.capacity == burst && b.period == PeriodNanos(burst, rate)
    requires b.Valid() && Served(b, grants) && Chronological(grants, b.last) && from <= to
    ensures (TokensIn(grants, from, to) - burst) * (NANOS_PER_SEC * 10_000) <= (to - from) * rate * 10_001
  {
    GrantedInWindow(b, grants, from, to);
    PeriodAccuracy(burst, rate);
    ScaleDown(TokensIn(grants, from, to), to - from, burst, rate, b.period);
  }

  // ---- A steady stream ----

  /** `n` tokens at `start` and again after every `gap`, `count` times in all. */
  function Paced(n: nat, start: nat, gap: nat, count: nat): seq<Grant>
    decreases count
  {
    if count == 0 then [] else [Grant(n, start)] + Paced(n, start + gap, gap, count - 1)
  }

  /** If the first batch is granted and each gap drains a batch, all of them are granted. */
  lemma {:induction false} PacedIsServed(b: Bucket, n: nat, start: nat, gap: nat, count: nat)
    requires b.Admits(n, start) && b.last <= start && n * b.period <= b.capacity * gap
    ensures Served(b, Paced(n, start, gap, count))
    decreases count
  {
    if count > 0 {
      var next := AfterGrant(b, Grant(n, start));
      assert Paced(n, start, gap, count)[1..] == Paced(n, start + gap, gap, count - 1);
      PacedIsServed(next, n, start + gap, gap, count - 1);
    }
  }

  /**
   * The other side of the bound: a client that keeps to the configured rate is never refused, however
   * long it goes on.
   */
  lemma {:induction false} ConfiguredRateIsServed(burst: u32, rate: u32, n: nat, start: nat, gap: nat, count: nat)
    requires ValidLimits(burst, rate) && n <= burst && n * NANOS_PER_SEC <= gap * rate
    ensures Served(NewBucket(burst, PeriodNanos(burst, rate)), Paced(n, start, gap, count))
  {
    var period := PeriodNanos(burst, rate);
    PeriodAccuracy(burst, rate);
    RestedAdmitsIff(NewBucket(burst, period), n, start);
    GapDrainsBatch(burst, rate, period, n, gap);
    PacedIsServed(NewBucket(burst, period), n, start, gap, count);
  }

  lemma GapDrainsBatch(burst: nat, rate: nat, period: nat, n: nat, gap: nat)
    requires 0 < rate && rate * period <= burst * NANOS_PER_SEC && n * NANOS_PER_SEC <= gap * rate
    ensures n * period <= burst * gap
  {
    MulMonotone(rate * period, burst * NANOS_PER_SEC, n);
    MulMonotone(n * NANOS_PER_SEC, gap * rate, burst);
    assert n * (rate * period) == n * period * rate;
    assert n * (burst * NANOS_PER_SEC) == burst * (n * NANOS_PER_SEC);
    assert burst * (gap * rate) == burst * gap * rate;
    CancelFactor(n * period, burst * gap, rate);
  }

  lemma ScaleDown(tokens: nat, window: nat, burst: nat, rate: nat, period: nat)
    requires 0 < period && tokens * period <= burst * period + burst * window
    requires burst * NANOS_PER_SEC * 10_000 <= rate * period * 10_001
    ensures (tokens - burst) * (NANOS_PER_SEC * 10_000) <= window * rate * 10_001
  {
    var excess, scale: nat := tokens - burst, NANOS_PER_SEC * 10_000;
    assert excess * period <= burst * window;
    MulMonotone(excess * period, burst * window, scale);
    MulMonotone(burst * scale, rate * period * 10_001, window);
    Rearrange(excess, scale, period, burst, window, rate);
    CancelFactor(excess * scale, window * rate * 10_001, period);
  }

  lemma Rearrange(excess: int, scale: nat, period: nat, burst: nat, window: nat, rate: nat)
    ensures excess * scale * period == excess * period * scale
    ensures burst * window * scale == window * (burst * scale)
    ensures window * (rate * period * 10_001) == window * rate * 10_001 * period
  {
  }

  lemma CancelFactor(x: int, y: int, k: nat)
    requires 0 < k && x * k <= y * k
    ensures x <= y
  {
    if y < x {
      MulMonotone(y + 1, x, k);
    }
  }
}
