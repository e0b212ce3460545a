// Service-level objectives, computed once from a log of results and once from counts.
module Slo {
  import opened Domain

  const THIRTY_DAYS: Duration := 30 * 24 * 3600 * 1_000_000_000

  datatype Counts = Counts(eligible: nat, good: nat, latencyGood: nat)

  datatype SLOStatus = SLOStatus(
    window: Duration,
    availabilityTarget: real,
    availability: real,
    latencyTarget: Duration,
    latencyCompliance: real,
    errorBudgetTotal: real,
    errorBudgetUsed: real,
    errorBudgetRemain: real,
    burnRate: real,
    sampleCount: int)

  // ---- Which results count ----

  predicate Eligible(since: Time, r: CheckResult) {
    r.checkedAt >= since && r.state != Maintenance
  }

  predicate Good(since: Time, r: CheckResult) {
    Eligible(since, r) && (r.state == Healthy || r.state == Degraded)
  }

  predicate Fast(since: Time, latencyTarget: Duration, r: CheckResult) {
    Eligible(since, r) && r.state != Unavailable && r.latency <= latencyTarget
  }

  /** How many of `results` satisfy `p`. */
  function Tally(results: seq<CheckResult>, p: CheckResult -> bool): nat {
    if results == [] then 0
    else Tally(results[..|results| - 1], p) + if p(results[|results| - 1]) then 1 else 0
  }

  function IsEligible(since: Time): CheckResult -> bool {
    r => Eligible(since, r)
  }

  function IsGood(since: Time): CheckResult -> bool {
    r => Good(since, r)
  }

  function IsFast(since: Time, latencyTarget: Duration): CheckResult -> bool {
    r => Fast(since, latencyTarget, r)
  }

  function CountsSince(results: seq<CheckResult>, since: Time, latencyTarget: Duration): Counts {
    Counts(Tally(results, IsEligible(since)),
           Tally(results, IsGood(since)),
           Tally(results, IsFast(since, latencyTarget)))
  }

  lemma {:induction false} TallySnoc(results: seq<CheckResult>, r: CheckResult, p: CheckResult -> bool)
    ensures Tally(results + [r], p) == Tally(results, p) + if p(r) then 1 else 0
  {
    assert (results + [r])[..|results + [r]| - 1] == results;
  }

  lemma {:induction false} TallyAdd(a: seq<CheckResult>, b: seq<CheckResult>, p: CheckResult -> bool)
    ensures Tally(a + b, p) == Tally(a, p) + Tally(b, p)
  {
    if b == [] {
      assert a + b == a;
    } else {
      var init, r := b[..|b| - 1], b[|b| - 1];
      TallyAdd(a, init, p);
      TallySnoc(a + init, r, p);
      assert a + b == (a + init) + [r];
    }
  }

  lemma {:induction false} TallyIgnoresOrder(a: seq<CheckResult>, b: seq<CheckResult>, p: CheckResult -> bool)
    requires multiset(a) == multiset(b)
    ensures Tally(a, p) == Tally(b, p)
    decreases |a|
  {
    if a == [] {
      assert |b| == |multiset(b)| == 0;
    } else {
      var init, r := a[..|a| - 1], a[|a| - 1];
      assert a == init + [r];
      assert r in multiset(b);
      var i :| 0 <= i < |b| && b[i] == r;
      var left, right := b[..i], b[i + 1..];
      assert b == left + [r] + right;
      SameButOne(init, left, right, r);
      TallyIgnoresOrder(init, left + right, p);
      TallyAdd(left, right, p);
      TallyAdd(left + [r], right, p);
      TallySnoc(left, r, p);
    }
  }

  lemma SameButOne(init: seq<CheckResult>, left: seq<CheckResult>, right: seq<CheckResult>, r: CheckResult)
    requires multiset(init + [r]) == multiset(left + [r] + right)
    ensures multiset(init) == multiset(left + right)
  {
    assert multiset(init + [r]) == multiset(init) + multiset{r};
    assert multiset(left + [r] + right) == multiset(left + right) + multiset{r};
    assert multiset(init) == multiset(init + [r]) - multiset{r};
  }

  lemma {:induction false} TallyMonotone(results: seq<CheckResult>, p: CheckResult -> bool, q: CheckResult -> bool)
    requires forall r <- results :: p(r) ==> q(r)
    ensures Tally(results, p) <= Tally(results, q)
  {
    if results == [] {
    } else {
      var init, last := results[..|results| - 1], results[|results| - 1];
      assert results == init + [last];
      TallyMonotone(init, p, q);
    }
  }

  lemma {:induction false} TallyPositive(results: seq<CheckResult>, p: CheckResult -> bool)
    ensures Tally(results, p) > 0 <==> exists r <- results :: p(r)
  {
    if results == [] {
    } else {
      var init, last := results[..|results| - 1], results[|results| - 1];
      assert results == init + [last];
      TallyPositive(init, p);
    }
  }

  lemma {:induction false} OneMoreResult(results: seq<CheckResult>, i: nat, since: Time, latencyTarget: Duration)
    requires i < |results|
    ensures
      var c, r := CountsSince(results[..i], since, latencyTarget), results[i];
      CountsSince(results[..i + 1], since, latencyTarget)
        == Counts(c.eligible + (if Eligible(since, r) then 1 else 0),
                  c.good + (if Good(since, r) then 1 else 0),
                  c.latencyGood + if Fast(since, latencyTarget, r) then 1 else 0)
  {
    assert results[..i] + [results[i]] == results[..i + 1];
    TallySnoc(results[..i], results[i], IsEligible(since));
    TallySnoc(results[..i], results[i], IsGood(since));
    TallySnoc(results[..i], results[i], IsFast(since, latencyTarget));
  }

  // ---- The counts, state by state ----

  function IsSeen(since: Time, state: State): CheckResult -> bool {
    (r: CheckResult) => r.checkedAt >= since && r.state == state
  }

  function IsSeenWithin(since: Time, state: State, limit: Duration): CheckResult -> bool {
    (r: CheckResult) => r.checkedAt >= since && r.state == state && r.latency <= limit
  }

  /** How many results in `state` are no older than `since`. */
  function Seen(results: seq<CheckResult>, since: Time, state: State): nat {
    Tally(results, IsSeen(since, state))
  }

  /** How many of them took no longer than `limit`. */
  function SeenWithin(results: seq<CheckResult>, since: Time, state: State, limit: Duration): nat {
    Tally(results, IsSeenWithin(since, state, limit))
  }

  /** What counts at all, for availability and for latency, by the states of the results. */
  predicate CountedByState(c: Counts, results: seq<CheckResult>, since: Time, latencyTarget: Duration) {
    && c.eligible == Seen(results, since, Healthy) + Seen(results, since, Degraded)
                   + Seen(results, since, Unavailable) + Seen(results, since, Unknown)
    && c.good == Seen(results, since, Healthy) + Seen(results, since, Degraded)
    && c.latencyGood == SeenWithin(results, since, Healthy, latencyTarget)
                      + SeenWithin(results, since, Degraded, latencyTarget)
                      + SeenWithin(results, since, Unknown, latencyTarget)
  }

  lemma {:induction false} TallySplits(results: seq<CheckResult>, p: CheckResult -> bool,
                                       a: CheckResult -> bool, b: CheckResult -> bool)
    requires forall r :: p(r) <==> a(r) || b(r)
    requires forall r :: !(a(r) && b(r))
    ensures Tally(results, p) == Tally(results, a) + Tally(results, b)
  {
    if results == [] {
    } else {
      TallySplits(results[..|results| - 1], p, a, b);
    }
  }

  lemma {:induction false} EligibleByState(results: seq<CheckResult>, since: Time)
    ensures Tally(results, IsEligible(since))
         == Tally(results, IsGood(since)) + Seen(results, since, Unavailable) + Seen(results, since, Unknown)
  {
    var bad: CheckResult -> bool := r => Eligible(since, r) && !Good(since, r);
    TallySplits(results, IsEligible(since), IsGood(since), bad);
    TallySplits(results, bad, IsSeen(since, Unavailable), IsSeen(since, Unknown));
  }

  lemma {:induction false} FastByState(results: seq<CheckResult>, since: Time, limit: Duration)
    ensures Tally(results, IsFast(since, limit))
         == SeenWithin(results, since, Healthy, limit) + SeenWithin(results, since, Degraded, limit)
            + SeenWithin(results, since, Unknown, limit)
  {
    var known: CheckResult -> bool := r => Fast(since, limit, r) && r.state != Unknown;
    TallySplits(results, IsFast(since, limit), known, IsSeenWithin(since, Unknown, limit));
    TallySplits(results, known, IsSeenWithin(since, Healthy, limit), IsSeenWithin(since, Degraded, limit));
  }

  // Every check since then counts unless it was made in maintenance; the successful and the degraded
  // ones are good; and all but the outages count for latency.
  lemma {:induction false} CountsByState(results: seq<CheckResult>, since: Time, latencyTarget: Duration)
    ensures CountedByState(CountsSince(results, since, latencyTarget), results, since, latencyTarget)
  {
    EligibleByState(results, since);
    TallySplits(results, IsGood(since), IsSeen(since, Healthy), IsSeen(since, Degraded));
    FastByState(results, since, latencyTarget);
  }

  // Splitting the log splits the counts, and the order of the results does not matter.
  lemma CountsAreAdditive(a: seq<CheckResult>, b: seq<CheckResult>, since: Time, latencyTarget: Duration)
    ensures
      var x, y := CountsSince(a, since, latencyTarget), CountsSince(b, since, latencyTarget);
      CountsSince(a + b, since, latencyTarget)
        == Counts(x.eligible + y.eligible, x.good + y.good, x.latencyGood + y.latencyGood)
  {
    TallyAdd(a, b, IsEligible(since));
    TallyAdd(a, b, IsGood(since));
    TallyAdd(a, b, IsFast(since, latencyTarget));
  }

  lemma CountsIgnoreOrder(a: seq<CheckResult>, b: seq<CheckResult>, since: Time, latencyTarget: Duration)
    requires multiset(a) == multiset(b)
    ensures CountsSince(a, since, latencyTarget) == CountsSince(b, since, latencyTarget)
  {
    TallyIgnoresOrder(a, b, IsEligible(since));
    TallyIgnoresOrder(a, b, IsGood(since));
    TallyIgnoresOrder(a, b, IsFast(since, latencyTarget));
  }

  /** What the documentation counts for latency compliance: a success within the target. */
  function IsFastSuccess(since: Time, latencyTarget: Duration): CheckResult -> bool {
    r => Good(since, r) && r.latency <= latencyTarget
  }

  function IsFastUnknown(since: Time, latencyTarget: Duration): CheckResult -> bool {
    r => Fast(since, latencyTarget, r) && r.state == Unknown
  }

  // The code counts the documented checks and, besides, the fast ones in state Unknown.
  lemma {:induction false} FastSplits(results: seq<CheckResult>, since: Time, latencyTarget: Duration)
    ensures Tally(results, IsFast(since, latencyTarget))
         == Tally(results, IsFastSuccess(since, latencyTarget)) + Tally(results, IsFastUnknown(since, latencyTarget))
  {
    if results == [] {
    } else {
      FastSplits(results[..|results| - 1], since, latencyTarget);
    }
  }

  // So the two counts are the same exactly when no fast check in the window is Unknown.
  lemma {:induction false} FastIsSuccessful(results: seq<CheckResult>, since: Time, latencyTarget: Duration)
    ensures Tally(results, IsFast(since, latencyTarget)) == Tally(results, IsFastSuccess(since, latencyTarget))
       <==> forall r <- results :: !(r.state == Unknown && Fast(since, latencyTarget, r))
  {
    FastSplits(results, since, latencyTarget);
    TallyPositive(results, IsFastUnknown(since, latencyTarget));
  }

  // Good checks are eligible and so are fast ones; a fast check is good or Unknown.
  lemma {:induction false} CountsAreOrdered(results: seq<CheckResult>, since: Time, latencyTarget: Duration)
    ensures
      var c := CountsSince(results, since, latencyTarget);
      && c.good <= c.eligible
      && c.latencyGood <= c.eligible
      && c.latencyGood <= c.good + Tally(results, IsFastUnknown(since, latencyTarget))
      && ((forall r <- results :: !(r.state == Unknown && Fast(since, latencyTarget, r))) ==> c.latencyGood <= c.good)
  {
    TallyMonotone(results, IsGood(since), IsEligible(since));
    TallyMonotone(results, IsFast(since, latencyTarget), IsEligible(since));
    FastSplits(results, since, latencyTarget);
    TallyMonotone(results, IsFastSuccess(since, latencyTarget), IsGood(since));
    TallyPositive(results, IsFastUnknown(since, latencyTarget));
  }

  // A single fast check in state Unknown counts for latency and is not good.
  lemma UnknownCountsAsFast(at: Time, latencyTarget: Duration)
    requires latencyTarget >= 0
    ensures CountsSince([Sample(Unknown, at)], at, latencyTarget) == Counts(1, 0, 1)
    ensures Tally([Sample(Unknown, at)], IsFastSuccess(at, latencyTarget)) == 0
  {
    TallyOne(Sample(Unknown, at), IsEligible(at));
    TallyOne(Sample(Unknown, at), IsGood(at));
    TallyOne(Sample(Unknown, at), IsFast(at, latencyTarget));
    TallyOne(Sample(Unknown, at), IsFastSuccess(at, latencyTarget));
  }

  lemma {:induction false} TallyOne(r: CheckResult, p: CheckResult -> bool)
    ensures Tally([r], p) == if p(r) then 1 else 0
  {
    var none: seq<CheckResult> := [];
    assert none + [r] == [r];
    TallySnoc(none, r, p);
  }

  // ---- Defaults ----

  function EffectiveWindow(endpoint: Endpoint): Duration {
    if endpoint.slo.window <= 0 then THIRTY_DAYS else endpoint.slo.window
  }

  function EffectiveTarget(endpoint: Endpoint): real {
    if endpoint.slo.availabilityTarget <= 0.0 then 0.999 else endpoint.slo.availabilityTarget
  }

  function EffectiveLatencyTarget(endpoint: Endpoint): Duration {
    if endpoint.slo.latencyTarget <= 0 then endpoint.latencyTarget else endpoint.slo.latencyTarget
  }

  function Ratio(numerator: int, denominator: int): real {
    if denominator == 0 then 0.0 else numerator as real / denominator as real
  }

  function Max(a: real, b: real): real {
    if a >= b then a else b
  }

  function CalculateSLOCounts(endpoint: Endpoint, eligible: int, good: int, latencyGood: int): SLOStatus {
    var availability := Ratio(good, eligible);
    var allowedBad := 1.0 - EffectiveTarget(endpoint);
    var actualBad := 1.0 - availability;
    var burnRate := if eligible > 0 && allowedBad > 0.0 then actualBad / allowedBad else 0.0;
    var remaining := if eligible > 0 && allowedBad > 0.0 then Max(0.0, 1.0 - burnRate) else 1.0;
    SLOStatus(EffectiveWindow(endpoint), EffectiveTarget(endpoint), availability,
              EffectiveLatencyTarget(endpoint), Ratio(latencyGood, eligible),
              allowedBad, burnRate, remaining, burnRate, eligible)
  }

  // ---- What the figures of a status mean ----

  /** The figures of a status for `eligible` checks in the window, `good` and `fast` ones among them. */
  predicate Figures(s: SLOStatus, endpoint: Endpoint, eligible: int, good: int, fast: int) {
    && s.window == (if endpoint.slo.window > 0 then endpoint.slo.window else 2_592_000_000_000_000)
    && s.availabilityTarget
       == (if endpoint.slo.availabilityTarget > 0.0 then endpoint.slo.availabilityTarget else 0.999)
    && s.latencyTarget
       == (if endpoint.slo.latencyTarget > 0 then endpoint.slo.latencyTarget else endpoint.latencyTarget)
    && s.sampleCount == eligible
    && IsRatio(s.availability, good, eligible) && IsRatio(s.latencyCompliance, fast, eligible)
    && s.errorBudgetTotal == 1.0 - s.availabilityTarget
    && IsBurn(s.burnRate, s.errorBudgetTotal, good, eligible)
    && s.errorBudgetUsed == s.burnRate
    && s.errorBudgetRemain == (if s.burnRate > 1.0 then 0.0 else 1.0 - s.burnRate)
  }

  /** `x` is the fraction n / d, and 0 of nothing. */
  predicate IsRatio(x: real, n: int, d: int) {
    if d == 0 then x == 0.0 else x * d as real == n as real
  }

  /** At this rate the bad checks use up the allowed fraction; without samples or budget nothing burns. */
  predicate IsBurn(rate: real, allowed: real, good: int, eligible: int) {
    if eligible > 0 && allowed > 0.0 then rate * allowed * eligible as real == (eligible - good) as real
    else rate == 0.0
  }

  lemma RatioIsRatio(n: int, d: int)
    ensures IsRatio(Ratio(n, d), n, d)
  {}

  lemma BurnIsBurn(good: int, eligible: int, allowed: real)
    requires eligible > 0 && allowed > 0.0
    ensures (1.0 - Ratio(good, eligible)) / allowed * allowed * eligible as real == (eligible - good) as real
  {
    var bad := 1.0 - Ratio(good, eligible);
    DivMul(bad, allowed);
    RatioIsRatio(good, eligible);
    assert bad * eligible as real == eligible as real - good as real;
  }

  lemma StatusHasFigures(endpoint: Endpoint, eligible: int, good: int, fast: int)
    ensures Figures(CalculateSLOCounts(endpoint, eligible, good, fast), endpoint, eligible, good, fast)
  {
    RatioIsRatio(good, eligible);
    RatioIsRatio(fast, eligible);
    if eligible > 0 && EffectiveTarget(endpoint) < 1.0 {
      BurnIsBurn(good, eligible, 1.0 - EffectiveTarget(endpoint));
    }
  }

  // ---- The fold over results ----

  /** The log computation counts no check as fast when no positive latency target is in force. */
  function LoggedFast(endpoint: Endpoint, counts: Counts): nat {
    if EffectiveLatencyTarget(endpoint) > 0 then counts.latencyGood else 0
  }

  /** The counts a status page reads for `endpoint` at `now`. */
  function WindowCounts(endpoint: Endpoint, results: seq<CheckResult>, now: Time): Counts {
    CountsSince(results, now - EffectiveWindow(endpoint), EffectiveLatencyTarget(endpoint))
  }

  /** The figures are those of the checks in the window, none being fast without a latency target. */
  predicate Logs(status: SLOStatus, endpoint: Endpoint, results: seq<CheckResult>, now: Time, c: Counts) {
    && CountedByState(c, results, now - status.window, status.latencyTarget)
    && Figures(status, endpoint, c.eligible, c.good, if status.latencyTarget > 0 then c.latencyGood else 0)
  }

  lemma LoggedFigures(endpoint: Endpoint, results: seq<CheckResult>, now: Time)
    ensures
      var c := WindowCounts(endpoint, results, now);
      Logs(CalculateSLOCounts(endpoint, c.eligible, c.good, LoggedFast(endpoint, c)), endpoint, results, now, c)
  {
    var c := WindowCounts(endpoint, results, now);
    CountsByState(results, now - EffectiveWindow(endpoint), EffectiveLatencyTarget(endpoint));
    StatusHasFigures(endpoint, c.eligible, c.good, LoggedFast(endpoint, c));
  }

  lemma StatusIsLogged(endpoint: Endpoint, results: seq<CheckResult>, now: Time)
    ensures
      var c := WindowCounts(endpoint, results, now);
      var status := CalculateSLOCounts(endpoint, c.eligible, c.good, LoggedFast(endpoint, c));
      && Logs(status, endpoint, results, now, c)
      && (LatencyCountsAgree(endpoint, results, now)
          <==> status == CalculateSLOCounts(endpoint, c.eligible, c.good, c.latencyGood))
  {
    LoggedFigures(endpoint, results, now);
    ComputationsAgree(endpoint, results, now);
  }

  method CalculateSLO(endpoint: Endpoint, results: seq<CheckResult>, now: Time) returns (status: SLOStatus)
    ensures
      var c := WindowCounts(endpoint, results, now);
      status == CalculateSLOCounts(endpoint, c.eligible, c.good, LoggedFast(endpoint, c))
    ensures LatencyCountsAgree(endpoint, results, now) <==>
      var c := WindowCounts(endpoint, results, now);
      status == CalculateSLOCounts(endpoint, c.eligible, c.good, c.latencyGood)
    ensures Logs(status, endpoint, results, now, WindowCounts(endpoint, results, now))
  {
    var window := endpoint.slo.window;
    if window <= 0 {
      window := THIRTY_DAYS;
    }
    var availabilityTarget := endpoint.slo.availabilityTarget;
    if availabilityTarget <= 0.0 {
      availabilityTarget := 0.999;
    }
    var latencyTarget := endpoint.slo.latencyTarget;
    if latencyTarget <= 0 {
      latencyTarget := endpoint.latencyTarget;
    }
    var cutoff := now - window;
    var eligible, good, latencyGood := 0, 0, 0;
    for i := 0 to |results|
      invariant
        var c := CountsSince(results[..i], cutoff, latencyTarget);
        && eligible == c.eligible && good == c.good
        && latencyGood == (if latencyTarget > 0 then c.latencyGood else 0)
    {
      OneMoreResult(results, i, cutoff, latencyTarget);
      var result := results[i];
      if result.checkedAt < cutoff || result.state == Maintenance {
        continue;
      }
      eligible := eligible + 1;
      if result.state == Healthy || result.state == Degraded {
        good := good + 1;
      }
      if latencyTarget > 0 && result.latency <= latencyTarget && result.state != Unavailable {
        latencyGood := latencyGood + 1;
      }
    }
    assert results[..|results|] == results;
    var availability := Ratio(good, eligible);
    var latencyCompliance := Ratio(latencyGood, eligible);
    var allowedBad := 1.0 - availabilityTarget;
    var actualBad := 1.0 - availability;
    var burnRate, budgetUsed, budgetRemaining := 0.0, 0.0, 1.0;
    if eligible > 0 && allowedBad > 0.0 {
      burnRate := actualBad / allowedBad;
      budgetUsed := burnRate;
      budgetRemaining := Max(0.0, 1.0 - budgetUsed);
    }
    status := SLOStatus(window, availabilityTarget, availability, latencyTarget, latencyCompliance,
                        allowedBad, budgetUsed, budgetRemaining, burnRate, eligible);
    assert status == CalculateSLOCounts(endpoint, eligible, good, latencyGood);
    StatusIsLogged(endpoint, results, now);
  }

  // ---- The two computations agree ----

  /** A latency target is in force, or no check in the window would count as fast anyway. */
  predicate LatencyCountsAgree(endpoint: Endpoint, results: seq<CheckResult>, now: Time) {
    var since, target := now - EffectiveWindow(endpoint), EffectiveLatencyTarget(endpoint);
    target > 0 || forall r <- results :: !Fast(since, target, r)
  }

  lemma RatioDiffers(a: int, b: int, d: int)
    requires d > 0 && a != b
    ensures Ratio(a, d) != Ratio(b, d)
  {
    assert Ratio(a, d) * d as real == a as real;
    assert Ratio(b, d) * d as real == b as real;
  }

  // The log computation and the status page's count computation give the same status exactly
  // when a latency target is in force or no check in the window is fast for the target given.
  lemma ComputationsAgree(endpoint: Endpoint, results: seq<CheckResult>, now: Time)
    ensures LatencyCountsAgree(endpoint, results, now) <==>
      var c := WindowCounts(endpoint, results, now);
      CalculateSLOCounts(endpoint, c.eligible, c.good, LoggedFast(endpoint, c))
        == CalculateSLOCounts(endpoint, c.eligible, c.good, c.latencyGood)
  {
    var since, target := now - EffectiveWindow(endpoint), EffectiveLatencyTarget(endpoint);
    var c := WindowCounts(endpoint, results, now);
    TallyPositive(results, IsFast(since, target));
    CountsAreOrdered(results, since, target);
    if target <= 0 && c.latencyGood > 0 {
      RatioDiffers(0, c.latencyGood, c.eligible);
    }
  }

  // Without a positive latency target one instant check tells the two computations apart: the
  // log's says that no check was fast, the count's that every check was.
  lemma ZeroTargetDisagrees(endpoint: Endpoint, at: Time)
    requires EffectiveLatencyTarget(endpoint) == 0
    ensures
      var results := [Sample(Healthy, at)];
      var c := WindowCounts(endpoint, results, at);
      && !LatencyCountsAgree(endpoint, results, at)
      && CalculateSLOCounts(endpoint, c.eligible, c.good, LoggedFast(endpoint, c)).latencyCompliance == 0.0
      && CalculateSLOCounts(endpoint, c.eligible, c.good, c.latencyGood).latencyCompliance == 1.0
  {
    var since := at - EffectiveWindow(endpoint);
    TallyOne(Sample(Healthy, at), IsEligible(since));
    TallyOne(Sample(Healthy, at), IsGood(since));
    TallyOne(Sample(Healthy, at), IsFast(since, 0));
    assert Sample(Healthy, at) in [Sample(Healthy, at)];
    assert Ratio(1, 1) == 1.0;
  }

  // ---- Arithmetic of the error budget ----

  function StatusOf(endpoint: Endpoint, results: seq<CheckResult>, now: Time): SLOStatus {
    var c := WindowCounts(endpoint, results, now);
    CalculateSLOCounts(endpoint, c.eligible, c.good, c.latencyGood)
  }

  /** The figures are those of the checks the window holds, all latency targets being in force. */
  predicate Summarizes(status: SLOStatus, endpoint: Endpoint, results: seq<CheckResult>, now: Time, c: Counts) {
    && CountedByState(c, results, now - status.window, status.latencyTarget)
    && Figures(status, endpoint, c.eligible, c.good, c.latencyGood)
  }

  lemma StatusSummarizes(endpoint: Endpoint, results: seq<CheckResult>, now: Time)
    ensures Summarizes(StatusOf(endpoint, results, now), endpoint, results, now, WindowCounts(endpoint, results, now))
  {
    var c := WindowCounts(endpoint, results, now);
    CountsByState(results, now - EffectiveWindow(endpoint), EffectiveLatencyTarget(endpoint));
    StatusHasFigures(endpoint, c.eligible, c.good, c.latencyGood);
  }

  lemma FractionBounds(n: int, d: int)
    requires 0 <= n <= d && d > 0
    ensures 0.0 <= Ratio(n, d) <= 1.0
  {
    DivMul(n as real, d as real);
    DivMonotone(n as real, d as real, d as real);
    assert d as real / d as real == 1.0;
  }

  lemma DivMul(a: real, d: real)
    requires d > 0.0
    ensures a / d * d == a
    ensures a >= 0.0 ==> a / d >= 0.0
    ensures a >= d <==> a / d >= 1.0
  {}

  // Every published figure is a fraction where it should be, the burn rate times the allowed
  // bad fraction is the observed bad fraction, and the budget is spent exactly when there are
  // samples and availability is no better than the target.
  lemma BudgetArithmetic(endpoint: Endpoint, results: seq<CheckResult>, now: Time)
    requires EffectiveTarget(endpoint) < 1.0
    ensures
      var s := StatusOf(endpoint, results, now);
      && 0.0 <= s.availability <= 1.0
      && 0.0 <= s.latencyCompliance <= 1.0
      && 0.0 <= s.errorBudgetRemain <= 1.0
      && s.burnRate >= 0.0
      && (s.sampleCount > 0 ==> s.burnRate * s.errorBudgetTotal == 1.0 - s.availability)
      && (s.errorBudgetRemain == 0.0 <==> s.sampleCount > 0 && s.availability <= EffectiveTarget(endpoint))
  {
    var c := WindowCounts(endpoint, results, now);
    CountsAreOrdered(results, now - EffectiveWindow(endpoint), EffectiveLatencyTarget(endpoint));
    if c.eligible > 0 {
      FractionBounds(c.good, c.eligible);
      FractionBounds(c.latencyGood, c.eligible);
      DivMul(1.0 - Ratio(c.good, c.eligible), 1.0 - EffectiveTarget(endpoint));
    }
  }

  lemma DivMonotone(a: real, b: real, d: real)
    requires d > 0.0 && a <= b
    ensures a / d <= b / d
  {}

  // One more good sample does not lower the good fraction; one more bad sample does not raise it.
  lemma FractionMoves(good: int, total: int)
    requires 0 <= good <= total && total > 0
    ensures Ratio(good, total) <= Ratio(good + 1, total + 1)
    ensures Ratio(good, total + 1) <= Ratio(good, total)
  {
    var g, t := good as real, total as real;
    assert (good + 1) as real == g + 1.0 && (total + 1) as real == t + 1.0;
    assert g / t * t == g;
    var x := g / t;
    assert x <= 1.0 by { FractionBounds(good, total); }
    assert x * (t + 1.0) == g + x;
    DivMonotone(x * (t + 1.0), g + 1.0, t + 1.0);
    CancelDiv(x, t + 1.0);
    assert 0.0 <= x by { FractionBounds(good, total); }
    DivMonotone(g, x * (t + 1.0), t + 1.0);
  }

  lemma CancelDiv(x: real, d: real)
    requires d > 0.0
    ensures x * d / d == x
  {}

  function BurnRate(endpoint: Endpoint, eligible: nat, good: nat): real {
    CalculateSLOCounts(endpoint, eligible, good, 0).burnRate
  }

  lemma BurnMoves(endpoint: Endpoint, eligible: nat, good: nat)
    requires EffectiveTarget(endpoint) < 1.0 && good <= eligible
    ensures BurnRate(endpoint, eligible + 1, good + 1) <= BurnRate(endpoint, eligible, good)
    ensures BurnRate(endpoint, eligible + 1, good) >= BurnRate(endpoint, eligible, good)
  {
    var allowed := 1.0 - EffectiveTarget(endpoint);
    if eligible == 0 {
      assert Ratio(1, 1) == 1.0 && Ratio(0, 1) == 0.0;
      DivMul(1.0, allowed);
    } else {
      FractionMoves(good, eligible);
      DivMonotone(1.0 - Ratio(good + 1, eligible + 1), 1.0 - Ratio(good, eligible), allowed);
      DivMonotone(1.0 - Ratio(good, eligible), 1.0 - Ratio(good, eligible + 1), allowed);
    }
  }

  // Recording one more check in the window: a good one never raises the burn rate, a bad one
  // never lowers it, and Maintenance changes nothing at all.
  lemma RecordingMovesBurn(endpoint: Endpoint, results: seq<CheckResult>, r: CheckResult, now: Time)
    requires EffectiveTarget(endpoint) < 1.0
    ensures
      var since := now - EffectiveWindow(endpoint);
      var before, after := StatusOf(endpoint, results, now), StatusOf(endpoint, results + [r], now);
      && (Good(since, r) ==> after.burnRate <= before.burnRate)
      && (Eligible(since, r) && !Good(since, r) ==> after.burnRate >= before.burnRate)
      && (!Eligible(since, r) ==> after == before)
  {
    var since, target := now - EffectiveWindow(endpoint), EffectiveLatencyTarget(endpoint);
    TallySnoc(results, r, IsEligible(since));
    TallySnoc(results, r, IsGood(since));
    TallySnoc(results, r, IsFast(since, target));
    CountsAreOrdered(results, since, target);
    var c := WindowCounts(endpoint, results, now);
    BurnMoves(endpoint, c.eligible, c.good);
  }
}
