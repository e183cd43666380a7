/** Exponential backoff (main/network/reconnect.c). */
module Reconnect {
  import opened WireBytes

  const BASE_DELAY_MS: u32 := 1000
  const MAX_DELAY_MS: u32 := 60000
  const JITTER_MS: u32 := 5000

  function ToU32(v: int): u32 {
    v % 0x1_0000_0000
  }

  function Pow2(n: nat): nat {
    if n == 0 then 1 else 2 * Pow2(n - 1)
  }

  /** The delay before jitter: the shift is capped at 30 and the product wraps at 32 bits. */
  function Backoff(base: u32, max: u32, retries: nat): u32 {
    Min(ToU32(base * Pow2(Min(retries, 30))), max)
  }

  class Reconnect {
    var maxRetries: int
    var baseDelayMs: u32
    var maxDelayMs: u32
    var jitterMs: u32
    var retryCount: nat

    /** reconnect_init */
    constructor ()
      ensures maxRetries == -1 && baseDelayMs == BASE_DELAY_MS && maxDelayMs == MAX_DELAY_MS
      ensures jitterMs == JITTER_MS && retryCount == 0
    {
      maxRetries, baseDelayMs, maxDelayMs, jitterMs := -1, BASE_DELAY_MS, MAX_DELAY_MS, JITTER_MS;
      retryCount := 0;
    }

    /** reconnect_reset */
    method Reset()
      modifies this`retryCount
      ensures retryCount == 0
    {
      retryCount := 0;
    }

    /** reconnect_delay, with the value esp_random returns. */
    method Delay(random: u32) returns (delay: u32)
      modifies this`retryCount
      ensures retryCount == old(retryCount) + 1
      ensures var before := Backoff(baseDelayMs, maxDelayMs, old(retryCount));
              delay == if jitterMs == 0 then before else ToU32(before + random % jitterMs)
    {
      var shift := if retryCount >= 30 then 30 else retryCount;
      delay := ToU32(baseDelayMs * Pow2(shift));
      if delay > maxDelayMs {
        delay := maxDelayMs;
      }
      if jitterMs > 0 {
        delay := ToU32(delay + random % jitterMs);
      }
      retryCount := retryCount + 1;
    }

    /** reconnect_should_retry */
    predicate ShouldRetry()
      reads this
    {
      maxRetries < 0 || retryCount < maxRetries
    }
  }

  lemma PowersOfTwo()
    ensures Pow2(22) == 0x40_0000 && Pow2(23) == 0x80_0000 && Pow2(24) == 0x100_0000 && Pow2(25) == 0x200_0000
    ensures Pow2(26) == 0x400_0000 && Pow2(27) == 0x800_0000 && Pow2(28) == 0x1000_0000
    ensures Pow2(29) == 0x2000_0000 && Pow2(30) == 0x4000_0000
  {
    assert Pow2(8) == 0x100;
    assert Pow2(15) == 0x8000;
    assert Pow2(22) == 0x40_0000;
  }

  lemma {:induction false} Pow2Monotone(a: nat, b: nat)
    requires a <= b
    ensures Pow2(a) <= Pow2(b)
    decreases b
  {
    if a < b {
      Pow2Monotone(a, b - 1);
    }
  }

  lemma FitsU32(v: nat)
    requires v < 0x1_0000_0000
    ensures ToU32(v) == v
  {
  }

  /** Up to 22 retries the product fits 32 bits. */
  lemma BackoffWithoutWrap(retries: nat)
    requires retries <= 22
    ensures Backoff(BASE_DELAY_MS, MAX_DELAY_MS, retries) == Min(1000 * Pow2(retries), 60000)
  {
    Pow2Monotone(retries, 22);
    PowersOfTwo();
    FitsU32(1000 * Pow2(retries));
  }

  /** From 23 to 28 it wraps, to multiples of 2^26 that still exceed the cap. */
  lemma BackoffWithWrap(retries: nat)
    requires 23 <= retries <= 28
    ensures Backoff(BASE_DELAY_MS, MAX_DELAY_MS, retries) == 60000 < 1000 * Pow2(retries)
  {
    PowersOfTwo();
    assert retries == 23 || retries == 24 || retries == 25 || retries == 26 || retries == 27 || retries == 28;
  }

  lemma BackoffCollapsed(retries: nat)
    requires retries >= 29
    ensures Backoff(BASE_DELAY_MS, MAX_DELAY_MS, retries) == 0
  {
    PowersOfTwo();
  }

  /** With the default parameters, up to the 28th retry the wrapped product still exceeds the cap whenever the
      true one does, so the delay is the capped exponential; from the 29th on it collapses to zero. */
  lemma DefaultBackoff(retries: nat)
    ensures retries <= 28 ==> Backoff(BASE_DELAY_MS, MAX_DELAY_MS, retries) == Min(1000 * Pow2(retries), 60000)
    ensures retries >= 29 ==> Backoff(BASE_DELAY_MS, MAX_DELAY_MS, retries) == 0
  {
    if retries <= 22 {
      BackoffWithoutWrap(retries);
    } else if retries <= 28 {
      BackoffWithWrap(retries);
    } else {
      BackoffCollapsed(retries);
    }
  }

  /** Hence the delay grows with the retries exactly as long as the counter stays below 29. */
  lemma BackoffGrowsIff(retries: nat)
    ensures Backoff(BASE_DELAY_MS, MAX_DELAY_MS, retries) <= Backoff(BASE_DELAY_MS, MAX_DELAY_MS, retries + 1) <==>
            retries != 28
  {
    DefaultBackoff(retries);
    DefaultBackoff(retries + 1);
    PowersOfTwo();
    Pow2Monotone(0, retries);
  }

  /** The default jitter adds less than five seconds, without wrapping; no default delay reaches 65 seconds. */
  lemma DefaultDelayBound(retries: nat, random: u32)
    ensures var before := Backoff(BASE_DELAY_MS, MAX_DELAY_MS, retries);
            ToU32(before + random % JITTER_MS) == before + random % 5000 < 65000
  {
  }

  /** In general: without wrap-around the delay is the capped exponential; it is zero exactly when the
      cap is zero or the 32-bit product is. */
  lemma GeneralBackoff(base: u32, max: u32, retries: nat)
    ensures retries <= 30 && base * Pow2(retries) < 0x1_0000_0000 ==>
              Backoff(base, max, retries) == Min(base * Pow2(retries), max)
    ensures Backoff(base, max, retries) == 0 <==> max == 0 || base * Pow2(Min(retries, 30)) % 0x1_0000_0000 == 0
  {
  }

  /** From 30 retries on the delay does not change any more: only the two lowest bits of the base are left of the
      product. */
  lemma ShiftIsCapped(base: u32, max: u32, retries: nat)
    requires retries >= 30
    ensures Backoff(base, max, retries) == Min(base % 4 * 0x4000_0000, max)
  {
    PowersOfTwo();
    var high, low := base / 4, base % 4;
    assert base * 0x4000_0000 == high * 0x1_0000_0000 + low * 0x4000_0000;
  }
}
