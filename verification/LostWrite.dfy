// Runs, one for every threshold, on which a check is skipped although nothing on record says the
// endpoint is down: every verdict of the streak that opened its circuit is lost.
module LostWrite {
  import opened Domain
  import opened Scheduler
  import opened Streaks
  import Circuit
  import Timeline
  import Probes
  import Mem = MemoryStore

  const WEB: string := "web"

  // The steps of one round: a tick finds the endpoint due, its check fails and the result is lost.
  const ROUND: nat := 14

  /** One endpoint due every nanosecond and one worker. */
  function Alone(threshold: nat): Config {
    Config([Endpoint(WEB, 1, 0, 0, SLOConfig(0.999, 0, 0))], 1, 1, 1, threshold, 5, 5)
  }

  function Outage(k: nat): CheckResult {
    Sample(Unavailable, k + 1)
  }

  /** What is handed to the store in round `k`: only the last failure opens the circuit. */
  function LostResult(threshold: nat, k: nat): CheckResult {
    Outage(k).(circuitBreakerOpen := k + 1 >= threshold)
  }

  // ---- The breaker and the histories after `k` rounds ----

  function ItemAfter(threshold: nat, k: nat): Circuit.Item {
    Circuit.Item(k, if k >= threshold then k else 0, false)
  }

  function BreakerAfter(threshold: nat, k: nat): Circuit.Items {
    if k == 0 then map[] else map[WEB := ItemAfter(threshold, k)]
  }

  function CallsAfter(k: nat): seq<Circuit.Call> {
    if k == 0 then [] else CallsAfter(k - 1) + [Circuit.Allow(WEB, k)] + [Circuit.Failure(WEB, k)]
  }

  function LostAfter(threshold: nat, k: nat): seq<Handed> {
    if k == 0 then []
    else LostAfter(threshold, k - 1) + [Handed(Timeline.Write(LostResult(threshold, k - 1), 5), false)]
  }

  // ---- The scenes of round `k` ----

  function Before(threshold: nat, k: nat, main: MainPhase, worker: Phase): Service {
    Service(main, k + 1, false, false, [], [], 0, [worker], {WEB}, map[WEB := k + 1], BreakerAfter(threshold, k),
            Mem.NEW, CallsAfter(k), LostAfter(threshold, k), multiset{})
  }

  function Asked(threshold: nat, k: nat, worker: Phase): Service {
    Before(threshold, k, Scanning(k + 1, 1), worker).(
      semaphore := 1,
      breaker := map[WEB := ItemAfter(threshold, k)],
      calls := CallsAfter(k) + [Circuit.Allow(WEB, k + 1)])
  }

  function Told(threshold: nat, k: nat, main: MainPhase, worker: Phase): Service {
    Before(threshold, k, main, worker).(breaker := BreakerAfter(threshold, k + 1), calls := CallsAfter(k + 1))
  }

  function Hurt(threshold: nat, k: nat, main: MainPhase, worker: Phase): Service {
    Told(threshold, k, main, worker).(handed := LostAfter(threshold, k + 1))
  }

  function Scene(threshold: nat, k: nat, n: nat): Service
    requires 1 <= threshold && n < ROUND
  {
    var queued := Scanning(k + 1, 1);
    if n == 0 then Before(threshold, k, Selecting, Idle).(inFlight := {})
    else if n == 1 then Before(threshold, k, Scanning(k + 1, 0), Idle).(inFlight := {})
    else if n == 2 then Before(threshold, k, queued, Idle).(jobs := [WEB])
    else if n == 3 then Before(threshold, k, queued, Acquiring(WEB))
    else if n == 4 then Before(threshold, k, queued, Entering(WEB)).(semaphore := 1)
    else if n == 5 then Before(threshold, k, queued, Deciding(WEB, k + 1)).(semaphore := 1)
    else if n == 6 then Asked(threshold, k, Checking(WEB, k + 1, false))
    else if n == 7 then Asked(threshold, k, Resolving(WEB, Outage(k), k + 1, false))
    else if n == 8 then Told(threshold, k, queued, Recording(WEB, LostResult(threshold, k))).(semaphore := 1)
    else if n == 9 then Hurt(threshold, k, queued, Releasing(WEB)).(semaphore := 1)
    else if n == 10 then Hurt(threshold, k, queued, Reporting(WEB))
    else if n == 11 then Hurt(threshold, k, queued, Idle).(done := [WEB])
    else if n == 12 then Hurt(threshold, k, Selecting, Idle).(done := [WEB])
    else Hurt(threshold, k, Selecting, Idle).(inFlight := {}, next := map[WEB := k + 2])
  }

  function Play(k: nat, n: nat): Action
    requires n < ROUND
  {
    if n == 0 then Main(Tick(k + 1))
    else if n == 1 then Main(Enqueue)
    else if n == 2 then Worker(0, TakeJob)
    else if n == 3 then Worker(0, Acquire)
    else if n == 4 then Worker(0, ReadClock)
    else if n == 5 then Worker(0, Decide(false))
    else if n == 6 then Worker(0, Respond(Outage(k)))
    else if n == 7 then Worker(0, Resolve)
    else if n == 8 then Worker(0, StoreFails)
    else if n == 9 then Worker(0, Release)
    else if n == 10 then Worker(0, Report)
    else if n == 11 then Main(EndScan)
    else if n == 12 then Main(ReceiveDone)
    else Advance(k + 2)
  }

  function Next(threshold: nat, k: nat, n: nat): Service
    requires 1 <= threshold && n < ROUND
  {
    if n + 1 < ROUND then Scene(threshold, k, n + 1) else Scene(threshold, k + 1, 0)
  }

  predicate Plays(threshold: nat, k: nat, n: nat)
    requires 1 <= threshold && n < ROUND
  {
    && Enabled(Alone(threshold), Scene(threshold, k, n), Play(k, n))
    && Apply(Alone(threshold), Scene(threshold, k, n), Play(k, n)) == Next(threshold, k, n)
  }

  // ---- Every scene leads to the next ----

  lemma AloneIds(threshold: nat)
    ensures Ids(Alone(threshold)) == {WEB} && IntervalOf(Alone(threshold).endpoints, WEB) == 1
  {
    assert Alone(threshold).endpoints[0].id == WEB;
  }

  lemma DispatchPlays(threshold: nat, k: nat, n: nat)
    requires 1 <= threshold && n < 3
    ensures Plays(threshold, k, n)
  {}

  lemma EnterPlays(threshold: nat, k: nat, n: nat)
    requires 1 <= threshold && 3 <= n < 5
    ensures Plays(threshold, k, n)
  {}

  // The circuit is still closed until the last round is over.
  lemma AskPlays(threshold: nat, k: nat)
    requires k < threshold
    ensures Plays(threshold, k, 5)
  {}

  lemma AnswerPlays(threshold: nat, k: nat)
    requires 1 <= threshold
    ensures Plays(threshold, k, 6)
  {}

  lemma BreakerIsTold(threshold: nat, k: nat)
    requires k < threshold
    ensures Circuit.Step(threshold, 5, map[WEB := ItemAfter(threshold, k)], Circuit.Failure(WEB, k + 1))
         == BreakerAfter(threshold, k + 1)
  {}

  lemma {:induction false} VerdictIsTold(threshold: nat, k: nat)
    requires k < threshold
    ensures
      var s := Asked(threshold, k, Resolving(WEB, Outage(k), k + 1, false));
      CallBreaker(Alone(threshold), s, Circuit.Failure(WEB, k + 1))
        == s.(breaker := BreakerAfter(threshold, k + 1), calls := CallsAfter(k + 1))
  {
    BreakerIsTold(threshold, k);
  }

  lemma VerdictPlays(threshold: nat, k: nat)
    requires k < threshold
    ensures Plays(threshold, k, 7)
  {
    VerdictIsTold(threshold, k);
  }

  lemma LossPlays(threshold: nat, k: nat)
    requires 1 <= threshold
    ensures Plays(threshold, k, 8)
  {}

  lemma ReleasePlays(threshold: nat, k: nat)
    requires 1 <= threshold
    ensures Plays(threshold, k, 9)
  {}

  lemma ReportPlays(threshold: nat, k: nat)
    requires 1 <= threshold
    ensures Plays(threshold, k, 10)
  {}

  lemma EndPlays(threshold: nat, k: nat)
    requires 1 <= threshold
    ensures Plays(threshold, k, 11)
  {}

  lemma ReceiptPlays(threshold: nat, k: nat, n: nat)
    requires 1 <= threshold && 12 <= n < ROUND
    ensures Plays(threshold, k, n)
  {
    AloneIds(threshold);
  }

  lemma EverySceneLeadsOn(threshold: nat, k: nat, n: nat)
    requires 1 <= threshold && n < ROUND && (k < threshold || n < 5)
    ensures Plays(threshold, k, n)
  {
    if n < 3 {
      DispatchPlays(threshold, k, n);
    } else if n < 5 {
      EnterPlays(threshold, k, n);
    } else if n == 5 {
      AskPlays(threshold, k);
    } else if n == 6 {
      AnswerPlays(threshold, k);
    } else if n == 7 {
      VerdictPlays(threshold, k);
    } else if n == 8 {
      LossPlays(threshold, k);
    } else if n == 9 {
      ReleasePlays(threshold, k);
    } else if n == 10 {
      ReportPlays(threshold, k);
    } else if n == 11 {
      EndPlays(threshold, k);
    } else {
      ReceiptPlays(threshold, k, n);
    }
  }

  // ---- The runs ----

  lemma {:induction false} AllLost(threshold: nat, k: nat)
    ensures Streak(LostAfter(threshold, k), WEB) == Losses(LostAfter(threshold, k), WEB) == k
    ensures StreakLost(LostAfter(threshold, k), WEB)
    ensures BeforeStreak(LostAfter(threshold, k), WEB) == []
  {
    if k == 0 {
    } else {
      AllLost(threshold, k - 1);
      var lost := LostAfter(threshold, k);
      assert lost[..|lost| - 1] == LostAfter(threshold, k - 1);
    }
  }

  lemma SceneStarts(threshold: nat)
    requires 1 <= threshold
    ensures Init(Alone(threshold), Scene(threshold, 0, 0))
  {
    AloneIds(threshold);
  }

  lemma NextIndex(i: nat)
    ensures i % ROUND + 1 < ROUND ==> (i + 1) / ROUND == i / ROUND && (i + 1) % ROUND == i % ROUND + 1
    ensures i % ROUND + 1 == ROUND ==> (i + 1) / ROUND == i / ROUND + 1 && (i + 1) % ROUND == 0
  {}

  lemma NextScene(threshold: nat, i: nat)
    requires 1 <= threshold
    ensures Next(threshold, i / ROUND, i % ROUND) == Scene(threshold, (i + 1) / ROUND, (i + 1) % ROUND)
  {
    NextIndex(i);
  }

  lemma ScenesRun(threshold: nat, states: seq<Service>, actions: seq<Action>)
    requires 1 <= threshold && |states| == ROUND * threshold + 6 && |actions| == ROUND * threshold + 5
    requires forall i | 0 <= i < |states| :: states[i] == Scene(threshold, i / ROUND, i % ROUND)
    requires forall i | 0 <= i < |actions| :: actions[i] == Play(i / ROUND, i % ROUND)
    ensures IsRun(Alone(threshold), states, actions)
  {
    SceneStarts(threshold);
    forall i | 0 <= i < |actions|
      ensures StepAt(Alone(threshold), states, actions, i)
    {
      EverySceneLeadsOn(threshold, i / ROUND, i % ROUND);
      NextScene(threshold, i);
      assert Plays(threshold, i / ROUND, i % ROUND);
    }
  }

  lemma {:induction false} SceneSkips(threshold: nat)
    requires 1 <= threshold
    ensures
      var s := Scene(threshold, threshold, 5);
      && s.workers == [Deciding(WEB, threshold + 1)] && !Permitted(Alone(threshold), s, WEB, threshold + 1)
      && s.log == Mem.NEW && s.handed == LostAfter(threshold, threshold)
  {}

  // For every threshold there is a run that loses just the verdicts that open the circuit, and
  // then skips a check with no outage on record.
  lemma LostVerdictsSkip(threshold: nat) returns (states: seq<Service>, actions: seq<Action>)
    requires 1 <= threshold
    ensures IsRun(Alone(threshold), states, actions)
    ensures
      var s := states[|actions|];
      && s.workers == [Deciding(WEB, threshold + 1)] && !Permitted(Alone(threshold), s, WEB, threshold + 1)
      && Losses(s.handed, WEB) == threshold && !OutageShows(s.handed, WEB, None)
      && Probes.VerdictOn(s, WEB) == None
  {
    var last := ROUND * threshold + 5;
    states := seq(last + 1, i requires 0 <= i <= last => Scene(threshold, i / ROUND, i % ROUND));
    actions := seq(last, i requires 0 <= i < last => Play(i / ROUND, i % ROUND));
    ScenesRun(threshold, states, actions);
    SceneSkips(threshold);
    AllLost(threshold, threshold);
    assert last / ROUND == threshold && last % ROUND == 5;
  }
}
