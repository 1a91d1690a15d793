/** Publisher configuration and the capped exponential retry delay, in nanoseconds. */
module Backoff {
  import opened Prelude

  const SECOND: int := 1_000_000_000
  const MINUTE: int := 60_000_000_000
  const HOUR: int := 3_600_000_000_000
  const MAX_BATCH := 100
  const MAX_INT32: int := 0x7fff_ffff

  datatype Config = Config(
    batchSize: int,
    claimLease: Int64,
    pollInterval: Int64,
    baseRetryDelay: Int64,
    maxRetryDelay: Int64)

  /** Every configuration a publisher can be built with. */
  predicate ValidConfig(c: Config) {
    && 0 < c.batchSize <= MAX_BATCH
    && AcceptedLease(c.claimLease)
    && c.pollInterval > 0
    && SECOND <= c.baseRetryDelay <= 24 * HOUR && c.baseRetryDelay % SECOND == 0
    && c.baseRetryDelay <= c.maxRetryDelay <= 24 * HOUR && c.maxRetryDelay % SECOND == 0
  }

  /** Leases the repository's Claim accepts. */
  predicate AcceptedLease(lease: int) {
    SECOND <= lease <= 15 * MINUTE && lease % SECOND == 0
  }

  /** Delays the repository's MarkFailed accepts. */
  predicate AcceptedDelay(delay: int) {
    0 <= delay <= 24 * HOUR && delay % SECOND == 0
  }

  function Pow2(n: nat): nat {
    if n == 0 then 1 else 2 * Pow2(n - 1)
  }

  function Doubled(base: int, n: nat): int {
    if n == 0 then base else 2 * Doubled(base, n - 1)
  }

  lemma {:induction false} DoubledIsPower(base: int, n: nat)
    ensures Doubled(base, n) == base * Pow2(n)
  {
    if n > 0 {
      DoubledIsPower(base, n - 1);
      assert 2 * (base * Pow2(n - 1)) == base * (2 * Pow2(n - 1));
    }
  }

  /** min(base * 2^n, max). */
  function Capped(c: Config, n: nat): int {
    var exact := Doubled(c.baseRetryDelay, n);
    if exact < c.maxRetryDelay then exact else c.maxRetryDelay
  }

  lemma {:induction false} DoubledMonotone(base: int, m: nat, n: nat)
    requires m <= n && base >= 0
    ensures 0 <= Doubled(base, m) <= Doubled(base, n)
  {
    if m < n {
      DoubledMonotone(base, m, n - 1);
    } else if m > 0 {
      DoubledMonotone(base, m - 1, n - 1);
    }
  }

  lemma {:induction false} DoubledWhole(base: int, n: nat)
    requires base % SECOND == 0
    ensures Doubled(base, n) % SECOND == 0
  {
    if n > 0 {
      DoubledWhole(base, n - 1);
    }
  }

  /** Once the exact delay reaches the cap, every later one is the cap. */
  lemma CappedFrom(c: Config, k: nat, n: nat)
    requires ValidConfig(c) && k <= n && Doubled(c.baseRetryDelay, k) >= c.maxRetryDelay
    ensures Capped(c, n) == c.maxRetryDelay
  {
    DoubledMonotone(c.baseRetryDelay, k, n);
  }

  /** Seventeen doublings take any accepted base past any accepted cap. */
  lemma SeventeenDoublings(c: Config)
    requires ValidConfig(c)
    ensures Doubled(c.baseRetryDelay, 17) >= c.maxRetryDelay
  {
    var base: int := c.baseRetryDelay;
    DoubledIsPower(base, 17);
    assert Pow2(2) == 4;
    assert Pow2(4) == 16;
    assert Pow2(6) == 64;
    assert Pow2(8) == 256;
    assert Pow2(10) == 1024;
    assert Pow2(12) == 4096;
    assert Pow2(14) == 16384;
    assert Pow2(16) == 65536;
  }

  /** Doubling in a 64-bit variable for at most 62 rounds computes the closed form for every failure count. */
  method RetryDelay(c: Config, previousFailures: nat) returns (delay: Int64)
    requires ValidConfig(c) && previousFailures <= MAX_INT32
    ensures delay == Capped(c, previousFailures)
  {
    delay := c.baseRetryDelay;
    var rounds := if previousFailures < 62 then previousFailures else 62;
    for i := 0 to rounds
      invariant 0 < delay == Doubled(c.baseRetryDelay, i)
    {
      if delay >= c.maxRetryDelay / 2 {
        CappedFrom(c, i + 1, previousFailures);
        return c.maxRetryDelay;
      }
      delay := delay * 2;
    }
    if previousFailures > 62 {
      SeventeenDoublings(c);
      DoubledMonotone(c.baseRetryDelay, 17, 62);
      CappedFrom(c, 62, previousFailures);
    }
    return if delay < c.maxRetryDelay then delay else c.maxRetryDelay;
  }

  /** The closed form, its monotonicity, and that MarkFailed accepts it, for every failure count. */
  lemma DelayClosedForm(c: Config, m: nat, n: nat)
    requires ValidConfig(c) && m <= n
    ensures Capped(c, n) ==
      if c.baseRetryDelay * Pow2(n) < c.maxRetryDelay then c.baseRetryDelay * Pow2(n) else c.maxRetryDelay
    ensures Capped(c, m) <= Capped(c, n)
    ensures AcceptedDelay(Capped(c, n))
  {
    DoubledIsPower(c.baseRetryDelay, n);
    DoubledMonotone(c.baseRetryDelay, m, n);
    DoubledWhole(c.baseRetryDelay, n);
  }
}
