/** The delay before a retry connect: exponential, in saturating 64-bit arithmetic, capped. */
module Backoff {
  import opened Powers

  const U64_MAX: nat := 0xFFFF_FFFF_FFFF_FFFF

  function Min(a: nat, b: nat): nat {
    if a <= b then a else b
  }

  /** `u64::saturating_mul`. */
  function SaturatingMul(a: nat, b: nat): nat {
    Min(a * b, U64_MAX)
  }

  /** The delay the program computes: the shift stops at 63, the product at `U64_MAX`. */
  function RetryDelay(base: nat, max: nat, attempt: nat): nat
    requires attempt >= 1
  {
    Min(SaturatingMul(base, Pow2(Min(attempt - 1, 63))), max)
  }

  /** The delay the documentation promises: the base doubled on every attempt, up to the cap. */
  function IdealDelay(base: nat, max: nat, attempt: nat): nat
    requires attempt >= 1
  {
    Min(base * Pow2(attempt - 1), max)
  }

  /** Seconds a chain waits before its first `n` retry connects, all told. */
  function TotalWait(base: nat, max: nat, n: nat): nat {
    if n == 0 then 0 else TotalWait(base, max, n - 1) + RetryDelay(base, max, n)
  }

  lemma Pow2At63()
    ensures Pow2(63) == 0x8000_0000_0000_0000
  {
    assert Pow2(8) == 256;
    assert Pow2(16) == 0x1_0000;
    assert Pow2(24) == 0x100_0000;
    assert Pow2(32) == 0x1_0000_0000;
    assert Pow2(40) == 0x100_0000_0000;
    assert Pow2(48) == 0x1_0000_0000_0000;
    assert Pow2(56) == 0x100_0000_0000_0000;
  }

  lemma ScaledMonotone(base: nat, p: nat, q: nat)
    requires p <= q
    ensures base * p <= base * q
  {
  }

  /**
   * The computed delay is the promised one for exactly these inputs. Beyond attempt 64 only a base
   * of one second with a cap above 2^63 tells them apart.
   */
  lemma DelayIsIdealIff(base: nat, max: nat, attempt: nat)
    requires attempt >= 1 && max <= U64_MAX
    ensures RetryDelay(base, max, attempt) == IdealDelay(base, max, attempt)
       <==> attempt <= 64 || base != 1 || max <= Pow2(63)
  {
    Pow2At63();
    if attempt > 64 {
      var p := Pow2(attempt - 1);
      Pow2Monotone(64, attempt - 1);
      if base >= 2 {
        ScaledMonotone(base, Pow2(63), p);
        assert base * Pow2(63) >= 2 * Pow2(63);
      }
    }
  }

  lemma ExactDelayIff(base: nat, max: nat, attempt: nat)
    requires attempt >= 1 && max <= U64_MAX
    ensures RetryDelay(base, max, attempt) == IdealDelay(base, max, attempt)
       <==> attempt <= 64 || base != 1 || max <= 0x8000_0000_0000_0000
  {
    Pow2At63();
    DelayIsIdealIff(base, max, attempt);
  }

  /** Delays never shrink from one attempt of a chain to a later one, past the shift limit too. */
  lemma DelayNeverDecreases(base: nat, max: nat, early: nat, late: nat)
    requires 1 <= early <= late
    ensures RetryDelay(base, max, early) <= RetryDelay(base, max, late) <= max
  {
    var p, q := Pow2(Min(early - 1, 63)), Pow2(Min(late - 1, 63));
    Pow2Monotone(Min(early - 1, 63), Min(late - 1, 63));
    ScaledMonotone(base, p, q);
  }

  lemma DelayAtMostUncapped(base: nat, max: nat, attempt: nat)
    requires attempt >= 1
    ensures RetryDelay(base, max, attempt) <= base * Pow2(attempt - 1)
  {
    var p := Pow2(Min(attempt - 1, 63));
    Pow2Monotone(Min(attempt - 1, 63), attempt - 1);
    ScaledMonotone(base, p, Pow2(attempt - 1));
    assert SaturatingMul(base, p) <= base * p;
  }

  lemma GeometricStep(base: nat, p: nat, total: nat, delay: nat)
    requires p >= 1 && total <= base * (p - 1) && delay <= base * p
    ensures total + delay <= base * (2 * p - 1)
  {
    assert base * (2 * p - 1) == base * (p - 1) + base * p;
  }

  /** A chain of `n` attempts never waits longer than the full geometric sum, capped or not. */
  lemma {:induction false} TotalWaitGeometric(base: nat, max: nat, n: nat)
    ensures TotalWait(base, max, n) <= base * (Pow2(n) - 1)
  {
    if n > 0 {
      TotalWaitGeometric(base, max, n - 1);
      DelayAtMostUncapped(base, max, n);
      GeometricStep(base, Pow2(n - 1), TotalWait(base, max, n - 1), RetryDelay(base, max, n));
    }
  }

  /** A chain of `n` attempts waits at most `n` caps. */
  lemma {:induction false} TotalWaitCapped(base: nat, max: nat, n: nat)
    ensures TotalWait(base, max, n) <= n * max
  {
    if n > 0 {
      TotalWaitCapped(base, max, n - 1);
      assert RetryDelay(base, max, n) <= max;
      assert n * max == (n - 1) * max + max;
    }
  }
}
