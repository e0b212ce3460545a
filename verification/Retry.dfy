// Bounded retries with capped, jittered exponential backoff.
module Retry {
  import opened Domain

  const MAX_INT64 := 0x7FFF_FFFF_FFFF_FFFF

  predicate IsInt64(x: int) {
    -MAX_INT64 - 1 <= x <= MAX_INT64
  }

  /** The value a 64-bit signed register holds after computing `x`. */
  function Wrap64(x: int): int {
    (x + MAX_INT64 + 1) % 0x1_0000_0000_0000_0000 - MAX_INT64 - 1
  }

  function Pow2(n: nat): (p: int)
    ensures p >= 1
  {
    if n == 0 then 1 else 2 * Pow2(n - 1)
  }

  /** base * 2^n */
  function Doubled(base: int, n: nat): int {
    if n == 0 then base else 2 * Doubled(base, n - 1)
  }

  lemma {:induction false} DoubledIsPower(base: int, n: nat)
    ensures Doubled(base, n) == base * Pow2(n)
  {
    if n == 0 {
    } else {
      DoubledIsPower(base, n - 1);
      assert base * Pow2(n) == 2 * (base * Pow2(n - 1));
    }
  }

  lemma {:induction false} DoubledPositive(base: int, n: nat)
    requires base > 0
    ensures Doubled(base, n) >= base
  {
    if n > 0 {
      DoubledPositive(base, n - 1);
    }
  }

  lemma {:induction false} DoubledGrows(base: int, a: nat, b: nat)
    requires base > 0 && a < b
    ensures base <= Doubled(base, a) && 2 * Doubled(base, a) <= Doubled(base, b)
  {
    DoubledPositive(base, a);
    if a < b - 1 {
      DoubledGrows(base, a, b - 1);
    }
  }

  /** Conversion of a real duration to whole nanoseconds, toward zero. */
  function Truncate(x: real): int {
    if x >= 0.0 then x.Floor else -((-x).Floor)
  }

  function Min(a: int, b: int): int {
    if a <= b then a else b
  }

  /** The delay before jitter, in closed form. */
  function Backoff(attempt: nat, base: Duration, max: Duration): Duration {
    var doubled := Doubled(base, attempt);
    if max <= 0 then Wrap64(doubled)
    else if attempt > 0 && doubled == max - 1 then max
    else Min(doubled, max)
  }

  /** The jitter factor for a random number in [0, 1). */
  function Jitter(draw: real): real {
    0.8 + draw * 0.4
  }

  lemma ProductBounds(d: real, jitter: real)
    ensures d > 0.0 && 0.8 <= jitter <= 1.2 ==>
      0.0 <= d * jitter && 8.0 * d <= 10.0 * (d * jitter) <= 12.0 * d
  {
    if d > 0.0 && 0.8 <= jitter <= 1.2 {
      var above, below := 10.0 * jitter - 8.0, 12.0 - 10.0 * jitter;
      assert d * above >= 0.0 && d * below >= 0.0;
      assert 10.0 * (d * jitter) == 8.0 * d + d * above;
      assert 10.0 * (d * jitter) == 12.0 * d - d * below;
    }
  }

  /** A duration times a jitter factor: within a fifth either way. */
  function Times(d: real, jitter: real): (exact: real)
    ensures d > 0.0 && 0.8 <= jitter <= 1.2 ==> 0.0 <= exact && 8.0 * d <= 10.0 * exact <= 12.0 * d
  {
    ProductBounds(d, jitter);
    d * jitter
  }

  function Jittered(delay: Duration, jitter: real): Duration {
    Truncate(Times(delay as real, jitter))
  }

  function Delay(attempt: nat, base: Duration, max: Duration, draw: real): Duration {
    if base <= 0 then 0 else Jittered(Backoff(attempt, base, max), Jitter(draw))
  }

  lemma JitterIsAFactor(d: real, draw: real)
    ensures Times(d, Jitter(draw)) == (0.8 + 0.4 * draw) * d
  {}

  lemma TruncateIsNear(x: real)
    ensures x >= 0.0 ==> Truncate(x) as real <= x < Truncate(x) as real + 1.0
    ensures x <= 0.0 ==> Truncate(x) as real - 1.0 < x <= Truncate(x) as real
  {}

  /** The delay is `exact` cut to whole nanoseconds, toward zero. */
  predicate CutTowardZero(exact: real, delay: Duration) {
    if exact >= 0.0 then delay as real <= exact < delay as real + 1.0
    else delay as real - 1.0 < exact <= delay as real
  }

  /** The delay is `b` times a factor between 0.8 and 1.2, as drawn. */
  predicate IsJittered(b: Duration, draw: real, delay: Duration) {
    CutTowardZero((0.8 + 0.4 * draw) * (b as real), delay)
  }

  lemma JitteredIsCut(delay: Duration, draw: real)
    ensures IsJittered(delay, draw, Jittered(delay, Jitter(draw)))
  {
    JitterIsAFactor(delay as real, draw);
    TruncateIsNear(Times(delay as real, Jitter(draw)));
  }

  lemma DelayIsCut(attempt: nat, base: Duration, max: Duration, draw: real)
    ensures base > 0 ==> IsJittered(Backoff(attempt, base, max), draw, Delay(attempt, base, max, draw))
  {
    JitteredIsCut(Backoff(attempt, base, max), draw);
  }

  lemma DoublingWraps(x: int)
    ensures Wrap64(2 * Wrap64(x)) == Wrap64(2 * x)
  {
    var m := 0x1_0000_0000_0000_0000;
    var k := (x + MAX_INT64 + 1) / m;
    assert Wrap64(x) == x - k * m;
    assert 2 * Wrap64(x) == 2 * x - (2 * k) * m;
    ShiftKeepsWrap(2 * x, 2 * k);
  }

  lemma ShiftKeepsWrap(x: int, k: int)
    ensures Wrap64(x - k * 0x1_0000_0000_0000_0000) == Wrap64(x)
  {
    var m := 0x1_0000_0000_0000_0000;
    var y := x + MAX_INT64 + 1;
    var q, r := y / m, y % m;
    assert y - k * m == (q - k) * m + r;
  }

  // A capped delay that is at least half the cap doubles to the cap, or to one below it.
  lemma {:induction false} ReachesCap(i: nat, attempt: nat, base: Duration, max: Duration)
    requires i < attempt && base > 0 && max > 0
    requires Doubled(base, i) >= max / 2
    ensures Backoff(attempt, base, max) == max
  {
    DoubledGrows(base, i, attempt);
  }

  /** What the doubling loop knows after `i` rounds that did not reach the cap. */
  predicate Doubling(i: nat, base: Duration, max: Duration, delay: Duration) {
    if max > 0 then
      delay == Doubled(base, i) && (i > 0 ==> delay <= max - 2)
    else
      delay == Wrap64(Doubled(base, i))
  }

  lemma DoubleOnce(i: nat, base: Duration, max: Duration, delay: Duration)
    requires base > 0 && IsInt64(max)
    requires Doubling(i, base, max, delay)
    requires max > 0 ==> delay < max / 2
    ensures Doubling(i + 1, base, max, Wrap64(2 * delay))
  {
    if max > 0 {
      DoubledPositive(base, i);
      assert Wrap64(2 * delay) == 2 * delay;
    } else {
      DoublingWraps(Doubled(base, i));
    }
  }

  lemma DoublingEnds(attempt: nat, base: Duration, max: Duration, delay: Duration)
    requires base > 0 && Doubling(attempt, base, max, delay)
    ensures (if max > 0 && delay > max then max else delay) == Backoff(attempt, base, max)
  {}

  method RetryDelay(attempt: nat, base: Duration, max: Duration, draw: real) returns (delay: Duration)
    requires IsInt64(base) && IsInt64(max)
    ensures delay == Delay(attempt, base, max, draw)
    ensures base <= 0 ==> delay == 0
    ensures base > 0 ==> IsJittered(Backoff(attempt, base, max), draw, delay)
  {
    DelayIsCut(attempt, base, max, draw);
    if base <= 0 {
      return 0;
    }
    delay := base;
    var i := 0;
    while i < attempt
      invariant i <= attempt
      invariant Doubling(i, base, max, delay)
    {
      if max > 0 && delay >= max / 2 {
        ReachesCap(i, attempt, base, max);
        delay := max;
        break;
      }
      DoubleOnce(i, base, max, delay);
      delay := Wrap64(2 * delay);
      i := i + 1;
    }
    if i == attempt {
      DoublingEnds(attempt, base, max, delay);
    }
    if max > 0 && delay > max {
      delay := max;
    }
    delay := Jittered(delay, Jitter(draw));
  }

  // The cap is met to the nanosecond, except one nanosecond over when a doubling falls just
  // below it.
  lemma {:induction false} BackoffBounds(attempt: nat, base: Duration, max: Duration)
    requires base > 0 && max > 0
    ensures
      var ideal := Min(base * Pow2(attempt), max);
      var actual := Backoff(attempt, base, max);
      && 0 < ideal <= actual <= max
      && actual - ideal <= 1
      && (actual == ideal + 1 <==> attempt > 0 && base * Pow2(attempt) == max - 1)
      && (max % 2 == 0 ==> actual == ideal)
  {
    DoubledIsPower(base, attempt);
    if attempt > 0 {
      DoubledGrows(base, attempt - 1, attempt);
    }
  }

  lemma BackoffMonotone(a: nat, b: nat, base: Duration, max: Duration)
    requires a <= b && base > 0 && max > 0
    ensures Backoff(a, base, max) <= Backoff(b, base, max)
  {
    if a < b {
      DoubledGrows(base, a, b);
    }
  }

  // Without a cap the doubling is unchecked: the delay is the intended one exactly as long as
  // that still fits in 64 bits.
  lemma {:induction false} UncappedDelayOverflows(attempt: nat, base: Duration, max: Duration)
    requires 0 < base && max <= 0
    ensures Backoff(attempt, base, max) == base * Pow2(attempt) <==> base * Pow2(attempt) <= MAX_INT64
  {
    DoubledIsPower(base, attempt);
    assert Doubled(base, attempt) > 0;
  }

  // What it then is instead: the one 64-bit value that differs from the intended delay by a multiple
  // of two to the power of 64.
  lemma {:induction false} UncappedDelayIsWrapped(attempt: nat, base: Duration, max: Duration)
    requires 0 < base && max <= 0
    ensures IsInt64(Backoff(attempt, base, max))
    ensures (base * Pow2(attempt) - Backoff(attempt, base, max)) % 0x1_0000_0000_0000_0000 == 0
  {
    DoubledIsPower(base, attempt);
    WrapIsCongruent(Doubled(base, attempt));
  }

  lemma WrapIsCongruent(x: int)
    ensures IsInt64(Wrap64(x)) && (x - Wrap64(x)) % 0x1_0000_0000_0000_0000 == 0
  {
    var m := 0x1_0000_0000_0000_0000;
    var y := x + MAX_INT64 + 1;
    assert x - Wrap64(x) == y - y % m == m * (y / m);
  }

  // One doubling of 1 under a cap of 3 waits 3, not 2.
  lemma CapOvershoots()
    ensures 1 * Pow2(1) == 3 - 1 && Backoff(1, 1, 3) == 3 && Min(1 * Pow2(1), 3) == 2
  {
    DoubledIsPower(1, 1);
  }

  // Without a cap, one doubling of 2^62 nanoseconds wraps to the least 64-bit value.
  lemma UncappedDelayWraps()
    ensures 0x4000_0000_0000_0000 * Pow2(1) == MAX_INT64 + 1
    ensures Backoff(1, 0x4000_0000_0000_0000, -1) == -MAX_INT64 - 1
  {
    DoubledIsPower(0x4000_0000_0000_0000, 1);
    assert Doubled(0x4000_0000_0000_0000, 1) == MAX_INT64 + 1;
  }

  // ---- Total time asleep ----

  function BackoffSum(n: nat, base: Duration, max: Duration): int {
    if n == 0 then 0 else BackoffSum(n - 1, base, max) + Backoff(n - 1, base, max)
  }

  function DelaySum(n: nat, base: Duration, max: Duration, draw: nat -> real): int {
    if n == 0 then 0 else DelaySum(n - 1, base, max, draw) + Delay(n - 1, base, max, draw(n - 1))
  }

  lemma {:induction false} BackoffSumBounds(n: nat, base: Duration, max: Duration)
    requires base > 0 && max > 0
    ensures 0 <= BackoffSum(n, base, max) <= n * max
    ensures BackoffSum(n, base, max)
         <= Doubled(base, n) - base + (if n > 0 && Doubled(base, n - 1) >= max - 1 then 1 else 0)
  {
    if n == 0 {
    } else {
      BackoffSumBounds(n - 1, base, max);
      BackoffBounds(n - 1, base, max);
      assert n * max == (n - 1) * max + max;
      if n > 1 {
        DoubledGrows(base, n - 2, n - 1);
      }
    }
  }

  // Jitter moves a delay by at most a fifth either way (and truncation by under a nanosecond).
  lemma JitteredBounds(delay: Duration, jitter: real)
    requires delay > 0 && 0.8 <= jitter <= 1.2
    ensures 0 <= Jittered(delay, jitter)
    ensures 8 * delay - 10 < 10 * Jittered(delay, jitter) <= 12 * delay
  {
    TruncateBounds(delay, Times(delay as real, jitter));
  }

  lemma TruncateBounds(d: int, x: real)
    requires 0.0 <= x && 8.0 * d as real <= 10.0 * x <= 12.0 * d as real
    ensures 0 <= Truncate(x)
    ensures 8 * d - 10 < 10 * Truncate(x) <= 12 * d
  {}

  /** Random numbers as the generator draws them. */
  ghost predicate Drawn(draw: nat -> real) {
    forall i :: 0.0 <= draw(i) < 1.0
  }

  lemma {:induction false} SleepWithinBackoff(n: nat, limit: nat, base: Duration, max: Duration, draw: nat -> real)
    requires base > 0 && max > 0 && n <= limit
    requires Drawn(draw)
    ensures 10 * DelaySum(n, base, max, draw) <= 12 * BackoffSum(limit, base, max)
    decreases limit
  {
    if limit == 0 {
    } else {
      BackoffBounds(limit - 1, base, max);
      JitteredBounds(Backoff(limit - 1, base, max), Jitter(draw(limit - 1)));
      SleepWithinBackoff(if n < limit then n else n - 1, limit - 1, base, max, draw);
    }
  }

  // The first `n` waits of a check with `retries` retries, for any jitter: at most 1.2 times
  // the capped total and at most 1.2 times the geometric total.
  lemma {:induction false} TotalSleepBounds(n: nat, retries: nat, base: Duration, max: Duration, draw: nat -> real)
    requires base > 0 && max > 0 && n <= retries
    requires Drawn(draw)
    ensures 10 * DelaySum(n, base, max, draw) <= 12 * (retries * max)
    ensures 10 * DelaySum(n, base, max, draw) <= 12 * (base * (Pow2(retries) - 1) + 1)
  {
    SleepWithinBackoff(n, retries, base, max, draw);
    BackoffSumBounds(retries, base, max);
    DoubledIsPower(base, retries);
    assert base * (Pow2(retries) - 1) == base * Pow2(retries) - base;
  }

  /** Both bounds on the sleep, where base and cap are positive. */
  ghost predicate SleepBounded(slept: int, retries: nat, base: Duration, max: Duration, draw: nat -> real) {
    base > 0 && max > 0 && Drawn(draw) ==>
      10 * slept <= 12 * (retries * max) && 10 * slept <= 12 * (base * (Pow2(retries) - 1) + 1)
  }

  lemma AnySleepBounded(retries: nat, base: Duration, max: Duration, draw: nat -> real)
    ensures forall n: nat | n <= retries :: SleepBounded(DelaySum(n, base, max, draw), retries, base, max, draw)
  {
    forall n: nat | n <= retries
      ensures SleepBounded(DelaySum(n, base, max, draw), retries, base, max, draw)
    {
      if base > 0 && max > 0 && Drawn(draw) {
        TotalSleepBounds(n, retries, base, max, draw);
      }
    }
  }

  // ---- The retry loop ----

  // The environment is explicit: `check(i)` is what attempt i reports, `cancelled(i)` the
  // context's error if the context ends the wait after attempt i, and `draw(i)` the random
  // number behind that wait's jitter. `runs` counts the executor's calls and `slept` adds up
  // the timers that were started. A negative `retries` runs nothing: the result is then None,
  // for a result with every field at its zero value.
  method Retry(retries: int, base: Duration, max: Duration,
               check: nat -> CheckResult, cancelled: nat -> Option<string>, draw: nat -> real)
    returns (result: Option<CheckResult>, runs: nat, slept: int)
    requires IsInt64(base) && IsInt64(max)
    ensures result.None? <==> retries < 0
    ensures retries < 0 ==> runs == 0 && slept == 0
    ensures retries >= 0 ==> 1 <= runs <= retries + 1 && result.value.attemptCount == runs
    ensures retries >= 0 ==> result.value.state == check(runs - 1).state
    // Only an unavailable, uncancelled attempt is followed by another one.
    ensures forall i | 0 <= i < runs - 1 :: check(i).state == Unavailable && cancelled(i).None?
    ensures retries >= 0 ==>
      result.value.state != Unavailable || runs == retries + 1 || cancelled(runs - 1).Some?
    // Every wait is followed by another attempt or by cancellation, so there are at most
    // `retries` of them.
    ensures retries >= 0 ==>
      var waiting := result.value.state == Unavailable && runs <= retries;
      var last := check(runs - 1).(attemptCount := runs);
      && slept == DelaySum(if waiting then runs else runs - 1, base, max, draw)
      && (!waiting ==> result == Some(last))
      && (waiting ==> result == Some(last.(error := cancelled(runs - 1).value,
                                           message := "retry cancelled: " + cancelled(runs - 1).value)))
    ensures retries >= 0 ==> SleepBounded(slept, retries, base, max, draw)
  {
    if retries >= 0 {
      AnySleepBounded(retries, base, max, draw);
    }
    result, runs, slept := None, 0, 0;
    var attempt := 0;
    while attempt <= retries
      invariant attempt == runs <= (if retries >= 0 then retries else 0)
      invariant retries < 0 ==> result == None
      invariant slept == DelaySum(attempt, base, max, draw)
      invariant forall i | 0 <= i < runs :: check(i).state == Unavailable && cancelled(i).None?
      decreases retries - attempt
    {
      var response := check(attempt).(attemptCount := attempt + 1);
      result, runs := Some(response), runs + 1;
      if response.state != Unavailable || attempt == retries {
        return;
      }
      var delay := RetryDelay(attempt, base, max, draw(attempt));
      slept := slept + delay;
      match cancelled(attempt)
      case Some(error) =>
        result := Some(response.(error := error, message := "retry cancelled: " + error));
        return;
      case None =>
        attempt := attempt + 1;
    }
  }
}
