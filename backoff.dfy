/** The reconnect back-off of the browser clients, src/app.ts and app.js:
    after a close, a client waits a random time below a ceiling that doubles
    with each failed attempt, up to MAX_WAIT_TIME seconds, then reconnects.
    Times are whole milliseconds; the random factor in [0, 1) that scales the
    ceiling is not modelled, so `GenerateWaitTime` returns the ceiling. */
module Backoff {

  /** The cap on the ceiling, in seconds. */
  const MAX_WAIT_TIME: nat := 30
  const MS_PER_SECOND: nat := 1000

  function Pow2(k: nat): (r: nat)
    ensures r >= 1
  {
    if k == 0 then 1 else 2 * Pow2(k - 1)
  }

  /** app.js `generateWaitTime` without the random factor:
      `(Math.pow(2, k) - 1)*1000`, lowered to MAX_WAIT_TIME seconds when above. */
  function PowCeiling(k: nat): nat {
    var waitTime := (Pow2(k) - 1) * MS_PER_SECOND;
    if waitTime > MAX_WAIT_TIME * MS_PER_SECOND then MAX_WAIT_TIME * MS_PER_SECOND else waitTime
  }

  /** src/app.ts `generateWaitTime` without the random factor: double a 1
      k times, subtract one, scale to milliseconds, clamp. A negative k runs
      the loop zero times. */
  method GenerateWaitTime(k: int) returns (waitTime: int)
    ensures waitTime == PowCeiling(if k < 0 then 0 else k)
    ensures 0 <= waitTime <= MAX_WAIT_TIME * MS_PER_SECOND
  {
    waitTime := 1;
    var i := 0;
    while i < k
      invariant if k < 0 then i == 0 else 0 <= i <= k
      invariant waitTime == Pow2(i)
    {
      waitTime := waitTime * 2;
      i := i + 1;
    }
    waitTime := (waitTime - 1) * MS_PER_SECOND;
    if waitTime > MAX_WAIT_TIME * MS_PER_SECOND {
      waitTime := MAX_WAIT_TIME * MS_PER_SECOND;
    }
  }

  lemma {:induction false} Pow2Monotone(a: nat, b: nat)
    requires a <= b
    ensures Pow2(a) <= Pow2(b)
    decreases b
  {
    if a < b {
      Pow2Monotone(a, b - 1);
    }
  }

  /** More failed attempts never shorten the ceiling. */
  lemma CeilingMonotone(a: nat, b: nat)
    requires a <= b
    ensures PowCeiling(a) <= PowCeiling(b)
  {
    Pow2Monotone(a, b);
  }

  /** Up to five attempts, every further attempt raises the ceiling. */
  lemma CeilingStrictlyIncreasing(a: nat, b: nat)
    requires a < b <= 5
    ensures PowCeiling(a) < PowCeiling(b)
  {
    assert Pow2(1) == 2 && Pow2(2) == 4 && Pow2(3) == 8 && Pow2(4) == 16 && Pow2(5) == 32;
  }

  /** The first ceilings: none at k = 0, one second at k = 1. */
  lemma CeilingFirstValues()
    ensures PowCeiling(0) == 0 && PowCeiling(1) == 1000
  {
    assert Pow2(1) == 2;
  }

  /** From the fifth attempt on the ceiling stays at the cap. */
  lemma CeilingSaturates(k: nat)
    requires k >= 5
    ensures PowCeiling(k) == MAX_WAIT_TIME * MS_PER_SECOND
  {
    Pow2Monotone(5, k);
    assert Pow2(5) == 32;
  }

  /** The reconnect state of a client: the global `connectionAttempts`. */
  class Reconnector {
    var connectionAttempts: int

    predicate Valid()
      reads this
    {
      connectionAttempts >= 1
    }

    /** `let connectionAttempts = 1`. */
    constructor ()
      ensures Valid() && connectionAttempts == 1
    {
      connectionAttempts := 1;
    }

    /** The open listener resets the count. */
    method OnOpen()
      modifies this
      ensures Valid() && connectionAttempts == 1
    {
      connectionAttempts := 1;
    }

    /** The close listener computes the wait for the current attempt; since
        the count is at least one, the ceiling is at least one second. */
    method OnClose() returns (waitTime: int)
      requires Valid()
      ensures waitTime == PowCeiling(connectionAttempts)
      ensures MS_PER_SECOND <= waitTime <= MAX_WAIT_TIME * MS_PER_SECOND
    {
      waitTime := GenerateWaitTime(connectionAttempts);
      CeilingFirstValues();
      CeilingMonotone(1, connectionAttempts);
    }

    /** The timeout callback counts the attempt before reconnecting. */
    method OnRetry()
      requires Valid()
      modifies this
      ensures Valid() && connectionAttempts == old(connectionAttempts) + 1
    {
      connectionAttempts := connectionAttempts + 1;
    }
  }
}
