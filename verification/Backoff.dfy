/** Backoff arithmetic of src/blockchain/connection.rs. */
module Backoff {
  import opened Units

  const U64_MAX: U64 := U64_SIZE - 1

  function Pow2(e: nat): nat {
    if e == 0 then 1 else 2 * Pow2(e - 1)
  }

  /** 2u64.saturating_pow(e) */
  function SaturatingPow2(e: U32): U64 {
    Pow2Positive(e);
    Min(Pow2(e), U64_MAX)
  }

  function SaturatingMul64(x: U64, y: U64): U64 {
    MulNonNegative(x, y);
    Min(x * y, U64_MAX)
  }

  lemma {:induction false} Pow2Positive(e: nat)
    ensures Pow2(e) >= 1
  {
    if e > 0 {
      Pow2Positive(e - 1);
    }
  }

  lemma {:induction false} Pow2Monotone(d: nat, e: nat)
    requires d <= e
    ensures Pow2(d) <= Pow2(e)
  {
    if d < e {
      Pow2Monotone(d, e - 1);
    }
  }

  /** The backoff after `failures` consecutive failures: the exponent is cast to 32 bits. */
  function ProviderBackoff(initial: U64, maximum: U64, failures: nat): U64 {
    Min(SaturatingMul64(initial, SaturatingPow2(Max(failures - 1, 0) % U32_SIZE)), maximum)
  }

  /** Exponential backoff over the integers. */
  function IdealBackoff(initial: nat, maximum: nat, exponent: nat): nat {
    MulNonNegative(initial, Pow2(exponent));
    Min(maximum, initial * Pow2(exponent))
  }

  /** Saturating twice and capping is capping the exact product once. */
  lemma CapOnce(initial: U64, maximum: U64, exponent: U32)
    ensures Min(SaturatingMul64(initial, SaturatingPow2(exponent)), maximum) == IdealBackoff(initial, maximum, exponent)
  {
    var p := Pow2(exponent);
    Pow2Positive(exponent);
    if p > U64_MAX && initial > 0 {
      MulAtLeast(initial, U64_MAX);
      MulAtLeast(initial, p);
    }
  }

  lemma MulAtLeast(x: nat, y: nat)
    requires x >= 1
    ensures x * y >= y
  {
    assert x * y == (x - 1) * y + y;
    MulNonNegative(x - 1, y);
  }

  /** Up to 2^32 failures the computed backoff is exponential backoff, exactly. */
  lemma ProviderBackoffExact(initial: U64, maximum: U64, failures: nat)
    requires 1 <= failures <= U32_SIZE
    ensures ProviderBackoff(initial, maximum, failures) == IdealBackoff(initial, maximum, failures - 1)
  {
    CapOnce(initial, maximum, failures - 1);
  }

  lemma ProviderBackoffMonotone(initial: U64, maximum: U64, f: nat, g: nat)
    requires 1 <= f <= g <= U32_SIZE
    ensures ProviderBackoff(initial, maximum, f) <= ProviderBackoff(initial, maximum, g)
  {
    ProviderBackoffExact(initial, maximum, f);
    ProviderBackoffExact(initial, maximum, g);
    Pow2Monotone(f - 1, g - 1);
    ScaleNat(initial, Pow2(f - 1), Pow2(g - 1));
  }

  /** From the 65th failure to the 2^32nd the backoff is the maximum, whatever the initial one. */
  lemma BackoffReachesMaximum(initial: U64, maximum: U64, failures: nat)
    requires initial > 0 && 65 <= failures <= U32_SIZE
    ensures ProviderBackoff(initial, maximum, failures) == maximum
  {
    ProviderBackoffExact(initial, maximum, failures);
    Pow2Monotone(64, failures - 1);
    Pow2Of64();
    MulAtLeast(initial, Pow2(failures - 1));
  }

  lemma ScaleNat(x: nat, y: nat, z: nat)
    requires y <= z
    ensures x * y <= x * z
  {
    MulNonNegative(x, z - y);
    assert x * z == x * y + x * (z - y);
  }

  /** Past 2^32 failures exponential backoff is the maximum, but the truncated exponent starts over: the computed backoff
      is then still right exactly when there is nothing to back off or the restarted exponent reaches the maximum again. */
  lemma TruncatedBackoff(initial: U64, maximum: U64, failures: nat)
    requires failures > U32_SIZE
    ensures ProviderBackoff(initial, maximum, failures) == IdealBackoff(initial, maximum, failures - 1)
            <==> initial == 0 || initial * Pow2((failures - 1) % U32_SIZE) >= maximum
  {
    Pow2Monotone(64, failures - 1);
    Pow2Of64();
    CapOnce(initial, maximum, (failures - 1) % U32_SIZE);
    if initial > 0 {
      MulAtLeast(initial, Pow2(failures - 1));
    } else {
      assert initial * Pow2(failures - 1) == 0 == initial * Pow2((failures - 1) % U32_SIZE);
    }
  }

  /** The 2^32nd failure backs off for the maximum, the next one for the initial backoff again. */
  lemma BackoffStartsOver()
    ensures ProviderBackoff(1, 2, U32_SIZE) == IdealBackoff(1, 2, U32_SIZE - 1) == 2
    ensures ProviderBackoff(1, 2, U32_SIZE + 1) == 1 && IdealBackoff(1, 2, U32_SIZE) == 2
  {
    Pow2Monotone(1, U32_SIZE - 1);
    Pow2Monotone(1, U32_SIZE);
    ProviderBackoffExact(1, 2, U32_SIZE);
    CapOnce(1, 2, 0);
  }

  lemma Pow2Of64()
    ensures Pow2(64) == U64_SIZE
  {
    assert Pow2(4) == 16;
    Pow2Sum(4, 4);
    Pow2Sum(8, 8);
    Pow2Sum(16, 16);
    Pow2Sum(32, 32);
  }

  lemma {:induction false} Pow2Sum(d: nat, e: nat)
    ensures Pow2(d + e) == Pow2(d) * Pow2(e)
  {
    if d > 0 {
      Pow2Sum(d - 1, e);
      assert 2 * (Pow2(d - 1) * Pow2(e)) == (2 * Pow2(d - 1)) * Pow2(e);
    }
  }

  /** ReconnectPolicy: the exponent is capped at 10. */
  function ReconnectDelay(initial: U64, maximum: U64, attempt: nat): U64 {
    Min(SaturatingMul64(initial, SaturatingPow2(Min(attempt, 10))), maximum)
  }

  class ReconnectPolicy {
    const initial: U64
    const maximum: U64
    var attempt: nat

    constructor (initial: U64, maximum: U64)
      ensures this.initial == initial && this.maximum == maximum && attempt == 0
    {
      this.initial, this.maximum := initial, maximum;
      attempt := 0;
    }

    /** The delay slept before the next reconnect: exponential in the attempts since the last reset, up to 2^10. */
    method WaitBeforeRetry() returns (delay: U64)
      modifies this`attempt
      ensures delay == IdealBackoff(initial, maximum, Min(old(attempt), 10)) && attempt == old(attempt) + 1
    {
      CapOnce(initial, maximum, Min(attempt, 10));
      delay := ReconnectDelay(initial, maximum, attempt);
      attempt := attempt + 1;
    }

    method Reset()
      modifies this`attempt
      ensures attempt == 0
    {
      attempt := 0;
    }
  }
}
