/**
 * The reconnect policy of `EnhancedMqttFactory.ReconnectConfig` and the
 * exponential backoff computed from it.
 */
module Backoff {

  /**
   * `ReconnectConfig`. `maxAttempts` is a Java `int` and `initialDelay` a
   * Java `long`, so both may be negative; the backoff factor is a natural
   * number (the source's `double` is not modelled).
   */
  datatype ReconnectConfig = ReconnectConfig(
    maxAttempts: int,
    initialDelay: int,
    backoffFactor: nat,
    autoRetryInitialConnect: bool)

  /** The defaults `ReconnectConfig` is created with (`Integer.MAX_VALUE`, 5000 ms, retry on). */
  const DefaultMaxAttempts: int := 0x7FFF_FFFF
  const DefaultInitialDelay: int := 5000
  const DefaultAutoRetryInitialConnect: bool := true

  /** A configuration holding the defaults, for a given backoff factor. */
  function DefaultConfig(backoffFactor: nat): (c: ReconnectConfig)
    ensures c.maxAttempts == 0x7FFF_FFFF && c.initialDelay == 5000 && c.autoRetryInitialConnect
    ensures c.backoffFactor == backoffFactor
  {
    ReconnectConfig(DefaultMaxAttempts, DefaultInitialDelay, backoffFactor, DefaultAutoRetryInitialConnect)
  }

  function Pow(b: nat, e: nat): nat
  {
    if e == 0 then 1 else b * Pow(b, e - 1)
  }

  /** `calculateBackoffDelay`: the delay before the retry scheduled when `n` attempts have been counted. */
  function BackoffDelay(c: ReconnectConfig, n: nat): int
  {
    c.initialDelay * Pow(c.backoffFactor, n)
  }

  /** The first retry waits exactly the initial delay; each later one `backoffFactor` times the previous. */
  lemma BackoffIsGeometric(c: ReconnectConfig, n: nat)
    ensures BackoffDelay(c, 0) == c.initialDelay
    ensures BackoffDelay(c, n + 1) == BackoffDelay(c, n) * c.backoffFactor
  {
  }

  /** With a factor of at least 1 and a non-negative initial delay, delays never shrink. */
  lemma BackoffNonDecreasing(c: ReconnectConfig, n: nat)
    requires c.backoffFactor >= 1 && c.initialDelay >= 0
    ensures 0 <= BackoffDelay(c, n) <= BackoffDelay(c, n + 1)
  {
    BackoffIsGeometric(c, n);
  }

  /**
   * The delays the supervisor schedules, in order, once it has counted `n`
   * attempts and every further reconnect fails: one per attempt still
   * allowed by `maxAttempts`, and then none.
   */
  function RetryTrace(c: ReconnectConfig, n: nat): seq<int>
    decreases if n < c.maxAttempts then c.maxAttempts - n else 0
  {
    if n < c.maxAttempts then [BackoffDelay(c, n)] + RetryTrace(c, n + 1) else []
  }

  /**
   * From count `n`, exactly `maxAttempts - n` retries are scheduled (none
   * when the count has reached the maximum), and the `i`-th waits
   * `initialDelay * backoffFactor^(n + i)`.
   */
  lemma {:induction false} RetryTraceShape(c: ReconnectConfig, n: nat)
    ensures |RetryTrace(c, n)| == if n < c.maxAttempts then c.maxAttempts - n else 0
    ensures forall i :: 0 <= i < |RetryTrace(c, n)| ==> RetryTrace(c, n)[i] == BackoffDelay(c, n + i)
    decreases if n < c.maxAttempts then c.maxAttempts - n else 0
  {
    if n < c.maxAttempts {
      RetryTraceShape(c, n + 1);
      var t := RetryTrace(c, n);
      assert t == [BackoffDelay(c, n)] + RetryTrace(c, n + 1);
      forall i | 0 <= i < |t|
        ensures t[i] == BackoffDelay(c, n + i)
      {
        if i > 0 {
          assert t[i] == RetryTrace(c, n + 1)[i - 1];
        }
      }
    }
  }

  /** The worked example: at most 3 attempts, 100 ms, factor 2 gives 100, 200, 400 and then silence. */
  lemma ThreeRetriesExample()
    ensures RetryTrace(ReconnectConfig(3, 100, 2, true), 0) == [100, 200, 400]
  {
    var c := ReconnectConfig(3, 100, 2, true);
    assert RetryTrace(c, 3) == [];
    assert Pow(2, 2) == 4;
    assert RetryTrace(c, 2) == [400];
    assert RetryTrace(c, 1) == [200, 400];
  }

  /**
   * Under the defaults a supervisor that never reconnects schedules
   * `Integer.MAX_VALUE` retries, the first after 5 seconds and each later
   * one `backoffFactor` times the one before.
   */
  lemma DefaultRetryBudget(backoffFactor: nat, i: nat)
    requires i + 1 < 0x7FFF_FFFF
    ensures |RetryTrace(DefaultConfig(backoffFactor), 0)| == 0x7FFF_FFFF
    ensures RetryTrace(DefaultConfig(backoffFactor), 0)[0] == 5000
    ensures RetryTrace(DefaultConfig(backoffFactor), 0)[i + 1] == RetryTrace(DefaultConfig(backoffFactor), 0)[i] * backoffFactor
  {
    var c := DefaultConfig(backoffFactor);
    RetryTraceShape(c, 0);
    BackoffIsGeometric(c, i);
  }
}
