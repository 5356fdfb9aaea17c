/** `src/utils/cooldown.rs`: exponential backoff. */
module Cooldown {
  import opened Prelude
  import opened Endpoint

  /** `2u64.pow(n)` in a release build: past 63 the only set bit is shifted out. */
  function WrappingPow2(n: u32): u64 {
    if n < 64 then Pow2Fits(n); Pow2(n) else 0
  }

  lemma {:induction false} Pow2Fits(n: nat)
    requires n < 64
    ensures Pow2(n) <= Pow2(63) == 0x8000_0000_0000_0000
  {
    Pow2Monotone(n, 63);
    Pow2Of63();
  }

  lemma Pow2Of63()
    ensures Pow2(63) == 0x8000_0000_0000_0000
  {
    Pow2Square(7, 15, 0x80);
    Pow2Square(15, 31, 0x8000);
    Pow2Square(31, 63, 0x8000_0000);
  }

  lemma {:induction false} Pow2Square(n: nat, m: nat, p: nat)
    requires m == 2 * n + 1 && Pow2(n) == p
    ensures Pow2(m) == 2 * p * p
  {
    Pow2Adds(n, n);
  }

  function SaturatingMul(a: u64, b: u64): u64 {
    Min(a * b, U64_MAX)
  }

  function SaturatingInc(n: u32): u32 {
    if n == U32_MAX then n else n + 1
  }

  /** The backoff after the attempt counter has been incremented to `attempts`. */
  function CooldownSecs(base: u64, max: u64, attempts: u32): u64 {
    Min(SaturatingMul(base, WrappingPow2(attempts)), max)
  }

  /** `trigger_cooldown`. */
  function Triggered(ep: RpcEndpoint, base: u64, max: u64, now: nat): RpcEndpoint {
    var attempts := SaturatingInc(ep.cooldownAttempts);
    var secs := CooldownSecs(base, max, attempts);
    ep.(cooldownAttempts := attempts, cooldownUntil := Some(now + secs * NANOS_PER_SEC), lastCheck := now)
  }

  /** The documented backoff is what the code computes exactly when the power does not wrap. */
  lemma {:induction false} BackoffExact(base: u64, max: u64, attempts: u32)
    ensures CooldownSecs(base, max, attempts) == Min(base * Pow2(attempts), max)
      <==> attempts < 64 || base == 0 || max == 0
  {
    if attempts >= 64 {
      assert base * 0 == 0;
      if base > 0 {
        MulMonotone(1, base, Pow2(attempts));
      }
    }
  }

  /** From the 64th attempt on there is no cooldown at all. */
  lemma BackoffCollapses(base: u64, max: u64, attempts: u32)
    requires 64 <= attempts
    ensures CooldownSecs(base, max, attempts) == 0
  {
    assert base * 0 == 0;
  }

  lemma BackoffMonotone(base: u64, max: u64, a: u32, b: u32)
    requires a <= b < 64
    ensures CooldownSecs(base, max, a) <= CooldownSecs(base, max, b)
  {
    Pow2Monotone(a, b);
    MulMonotone(Pow2(a), Pow2(b), base);
  }

  /** Once `base * 2^k` reaches the cap, the backoff stays at the cap until the power wraps. */
  lemma {:induction false} BackoffStaysAtCap(base: u64, max: u64, k: u32, attempts: u32)
    requires k <= attempts < 64 && max <= base * Pow2(k)
    ensures CooldownSecs(base, max, attempts) == max
  {
    Pow2Monotone(k, attempts);
    MulMonotone(Pow2(k), Pow2(attempts), base);
  }

  /** A nonzero base always reaches a cap below `2^63` before the power wraps. */
  lemma BackoffReachesCap(base: u64, max: u64)
    requires 1 <= base && max <= 0x8000_0000_0000_0000
    ensures CooldownSecs(base, max, 63) == max
  {
    Pow2Fits(63);
    MulMonotone(1, base, Pow2(63));
    BackoffStaysAtCap(base, max, 63, 63);
  }
}
