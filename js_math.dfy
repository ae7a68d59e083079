/**
 * The integer arithmetic both countdowns use to turn a millisecond distance into
 * whole seconds. Times are integer milliseconds, so every quotient below is exact.
 */
module JsMath {
  /** Milliseconds per second. */
  const MsPerSecond: int := 1000

  /** `Math.max(a, b)` on integers. */
  function Max(a: int, b: int): (r: int)
    ensures r >= a && r >= b
    ensures r == a || r == b
  {
    if a >= b then a else b
  }

  /**
   * `Math.ceil(ms / 1000)`: the least whole number of seconds that covers `ms`
   * milliseconds. Dafny's `/` floors for a positive divisor, so the ceiling is
   * the negated floor of the negated numerator.
   */
  function CeilSeconds(ms: int): (r: int)
    ensures MsPerSecond * (r - 1) < ms <= MsPerSecond * r
  {
    -((-ms) / MsPerSecond)
  }

  /**
   * `Math.round(ms / 1000)`: the nearest whole number of seconds, halves going
   * toward positive infinity as JavaScript rounds them.
   */
  function RoundSeconds(ms: int): (r: int)
    ensures MsPerSecond * r - 500 <= ms < MsPerSecond * r + 500
  {
    (ms + 500) / MsPerSecond
  }

  /** A later instant never covers more seconds. */
  lemma CeilSecondsMonotonic(a: int, b: int)
    requires a <= b
    ensures CeilSeconds(a) <= CeilSeconds(b)
  {
  }

  /** Rounding is monotonic too. */
  lemma RoundSecondsMonotonic(a: int, b: int)
    requires a <= b
    ensures RoundSeconds(a) <= RoundSeconds(b)
  {
  }

  /** A whole number of seconds converts back to itself under both rules. */
  lemma WholeSecondsExact(s: int)
    ensures CeilSeconds(MsPerSecond * s) == s
    ensures RoundSeconds(MsPerSecond * s) == s
  {
  }

  /**
   * Rounding never reports more than the ceiling and at most one second less:
   * the engine's display can lag the store's by one second.
   */
  lemma RoundWithinOneOfCeil(ms: int)
    ensures CeilSeconds(ms) - 1 <= RoundSeconds(ms) <= CeilSeconds(ms)
  {
  }
}
