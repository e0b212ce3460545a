// What a store holds about one endpoint, and what recording one more result does to it.
// Row ids are erased here (set to 0), so that the two stores can be compared.
module Timeline {
  import opened Domain
  import opened Spacing

  datatype Timeline = Timeline(results: seq<CheckResult>, transitions: seq<Transition>, alerts: seq<Alert>)

  const EMPTY := Timeline([], [], [])

  datatype Write = Write(result: CheckResult, window: Duration)

  function Bare(r: CheckResult): CheckResult {
    r.(id := 0)
  }

  function ChangeRow(previous: State, r: CheckResult): Transition {
    Transition(0, r.endpointID, previous, r.state, r.checkedAt, r.message)
  }

  function AlertRow(r: CheckResult): Alert {
    Alert(0, r.endpointID, r.state, DedupeKey(r.endpointID, r.state), r.checkedAt, r.message)
  }

  /** The state before result `i`; before the first one it is Unknown. */
  function StateBefore(results: seq<CheckResult>, i: nat): State
    requires i <= |results|
  {
    if i == 0 then Unknown else results[i - 1].state
  }

  /** The in-memory store's previous state: that of the result recorded last. */
  function LastState(results: seq<CheckResult>): State {
    StateBefore(results, |results|)
  }

  /** The database's newest row: greatest check time, and among those the one recorded last. */
  function NewestRow(results: seq<CheckResult>): Option<CheckResult> {
    if results == [] then None
    else
      var last := results[|results| - 1];
      match NewestRow(results[..|results| - 1])
      case None => Some(last)
      case Some(row) => if last.checkedAt >= row.checkedAt then Some(last) else Some(row)
  }

  function NewestState(results: seq<CheckResult>): State {
    match NewestRow(results)
    case None => Unknown
    case Some(row) => row.state
  }

  predicate TooSoon(alerts: seq<Alert>, state: State, at: Time, window: Duration) {
    exists a <- alerts :: a.state == state && at - a.createdAt < window
  }

  predicate TooSoonOrAt(alerts: seq<Alert>, state: State, at: Time, window: Duration) {
    exists a <- alerts :: a.state == state && at - a.createdAt <= window
  }

  function Extend(t: Timeline, r: CheckResult, previous: State, duplicate: bool): Timeline {
    Timeline(
      t.results + [Bare(r)],
      t.transitions + (if previous != r.state then [ChangeRow(previous, r)] else []),
      t.alerts + if AlertWorthy(previous, r.state) && !duplicate then [AlertRow(r)] else [])
  }

  function MemStep(t: Timeline, c: Write): Timeline {
    Extend(t, c.result, LastState(t.results), TooSoon(t.alerts, c.result.state, c.result.checkedAt, c.window))
  }

  function PgStep(t: Timeline, c: Write): Timeline {
    Extend(t, c.result, NewestState(t.results), TooSoonOrAt(t.alerts, c.result.state, c.result.checkedAt, c.window))
  }

  function MemRun(writes: seq<Write>): Timeline {
    if writes == [] then EMPTY else MemStep(MemRun(writes[..|writes| - 1]), writes[|writes| - 1])
  }

  function PgRun(writes: seq<Write>): Timeline {
    if writes == [] then EMPTY else PgStep(PgRun(writes[..|writes| - 1]), writes[|writes| - 1])
  }

  lemma {:induction false} RunRecordsWrites(writes: seq<Write>)
    ensures Holds(MemRun(writes), writes) && Holds(PgRun(writes), writes)
  {
    if writes == [] {
    } else {
      var n := |writes| - 1;
      RunRecordsWrites(writes[..n]);
      LastRecorded(writes);
    }
  }

  lemma {:induction false} LastRecorded(writes: seq<Write>)
    requires writes != []
    requires
      var before := writes[..|writes| - 1];
      Holds(MemRun(before), before) && Holds(PgRun(before), before)
    ensures Holds(MemRun(writes), writes) && Holds(PgRun(writes), writes)
  {
    var n := |writes| - 1;
    LastResult(writes);
    HoldsOneMore(MemRun(writes[..n]), MemRun(writes), writes);
    HoldsOneMore(PgRun(writes[..n]), PgRun(writes), writes);
  }

  lemma {:induction false} LastResult(writes: seq<Write>)
    requires writes != []
    ensures
      var n := |writes| - 1;
      && MemRun(writes).results == MemRun(writes[..n]).results + [Bare(writes[n].result)]
      && PgRun(writes).results == PgRun(writes[..n]).results + [Bare(writes[n].result)]
  {
    LastStep(writes);
  }

  lemma HoldsOneMore(was: Timeline, now: Timeline, writes: seq<Write>)
    requires writes != [] && Holds(was, writes[..|writes| - 1])
    requires now.results == was.results + [Bare(writes[|writes| - 1].result)]
    ensures Holds(now, writes)
  {}

  lemma {:induction false} LastStep(writes: seq<Write>)
    requires writes != []
    ensures MemRun(writes) == MemStep(MemRun(writes[..|writes| - 1]), writes[|writes| - 1])
    ensures PgRun(writes) == PgStep(PgRun(writes[..|writes| - 1]), writes[|writes| - 1])
  {}

  /** The results are those of the writes, in order. */
  predicate Holds(t: Timeline, writes: seq<Write>) {
    && |t.results| == |writes|
    && forall i | 0 <= i < |writes| :: t.results[i] == Bare(writes[i].result)
  }

  // ---- The transition log is the stutter-free compression of the results ----

  predicate Increasing(indices: seq<nat>) {
    forall j, k | 0 <= j < k < |indices| :: indices[j] < indices[k]
  }

  predicate InRange(indices: seq<nat>, n: nat) {
    forall k | 0 <= k < |indices| :: indices[k] < n
  }

  predicate ChangesAt(results: seq<CheckResult>, i: nat)
    requires i < |results|
  {
    StateBefore(results, i) != results[i].state
  }

  /** `where` lists exactly the positions at which the state changes, in order. */
  predicate ListsChanges(results: seq<CheckResult>, where: seq<nat>) {
    && Increasing(where)
    && InRange(where, |results|)
    && (forall k | 0 <= k < |where| :: ChangesAt(results, where[k]))
    && (forall i: nat | i < |results| && ChangesAt(results, i) :: i in where)
  }

  predicate CompressionOf(transitions: seq<Transition>, results: seq<CheckResult>, where: seq<nat>) {
    && ListsChanges(results, where)
    && |transitions| == |where|
    && forall k | 0 <= k < |where| ::
         transitions[k] == ChangeRow(StateBefore(results, where[k]), results[where[k]])
  }

  lemma CompressionGrows(transitions: seq<Transition>, results: seq<CheckResult>, where: seq<nat>, r: CheckResult)
    requires CompressionOf(transitions, results, where)
    ensures LastState(results) == r.state ==> CompressionOf(transitions, results + [r], where)
    ensures LastState(results) != r.state ==>
      CompressionOf(transitions + [ChangeRow(LastState(results), r)], results + [r], where + [|results|])
  {
    var n, more := |results|, results + [r];
    assert forall i: nat | i < n :: more[i] == results[i];
    assert forall i: nat | i <= n :: StateBefore(more, i) == StateBefore(results, i);
    assert forall i: nat | i < n :: ChangesAt(more, i) == ChangesAt(results, i);
    if LastState(results) != r.state {
      assert (where + [n])[|where|] == n;
      assert forall i | i in where :: i in where + [n];
    }
  }

  // One transition for every change of state, in order, and none besides.
  lemma {:induction false} TransitionsAreChanges(writes: seq<Write>) returns (where: seq<nat>)
    ensures CompressionOf(MemRun(writes).transitions, MemRun(writes).results, where)
  {
    if writes == [] {
      where := [];
    } else {
      var before, r := writes[..|writes| - 1], writes[|writes| - 1].result;
      where := TransitionsAreChanges(before);
      var t := MemRun(before);
      CompressionGrows(t.transitions, t.results, where, Bare(r));
      if LastState(t.results) != r.state {
        where := where + [|t.results|];
      }
    }
  }

  /** The state reached by a chain of transitions that starts at Unknown. */
  function Reached(transitions: seq<Transition>): State {
    if transitions == [] then Unknown else transitions[|transitions| - 1].toState
  }

  predicate Chained(transitions: seq<Transition>) {
    forall k | 0 <= k < |transitions| ::
      && transitions[k].fromState == Reached(transitions[..k])
      && transitions[k].fromState != transitions[k].toState
  }

  // Each transition starts where the one before it ended (the first one at Unknown), really
  // changes the state, and the last one ends in the state of the newest result.
  lemma {:induction false} TransitionsChain(writes: seq<Write>)
    ensures Chained(MemRun(writes).transitions)
    ensures Reached(MemRun(writes).transitions) == LastState(MemRun(writes).results)
  {
    if writes == [] {
    } else {
      TransitionsChain(writes[..|writes| - 1]);
      LastStep(writes);
      StepExtendsChain(MemRun(writes[..|writes| - 1]), writes[|writes| - 1]);
    }
  }

  lemma StepExtendsChain(t: Timeline, c: Write)
    requires Chained(t.transitions) && Reached(t.transitions) == LastState(t.results)
    ensures Chained(MemStep(t, c).transitions)
    ensures Reached(MemStep(t, c).transitions) == LastState(MemStep(t, c).results)
  {
    var was, now := t.transitions, MemStep(t, c).transitions;
    assert forall k | 0 <= k <= |was| :: now[..k] == was[..k];
    assert was[..|was|] == was;
  }

  // ---- Which results deserve an alert, and which of them get one ----

  /** Check times of the results that ask for an alert in `state`, in recording order. */
  function Wanted(results: seq<CheckResult>, state: State): seq<Time> {
    if results == [] then []
    else
      var n := |results| - 1;
      Wanted(results[..n], state)
        + if results[n].state == state && AlertWorthy(StateBefore(results, n), state)
          then [results[n].checkedAt] else []
  }

  function AlertTimes(alerts: seq<Alert>, state: State): seq<Time> {
    if alerts == [] then []
    else
      var n := |alerts| - 1;
      AlertTimes(alerts[..n], state) + if alerts[n].state == state then [alerts[n].createdAt] else []
  }

  lemma {:induction false} AlertTimesSnoc(alerts: seq<Alert>, a: Alert, state: State)
    ensures AlertTimes(alerts + [a], state)
         == AlertTimes(alerts, state) + if a.state == state then [a.createdAt] else []
  {
    assert (alerts + [a])[..|alerts + [a]| - 1] == alerts;
  }

  lemma {:induction false} AlertTimesMembers(alerts: seq<Alert>, state: State, at: Time)
    ensures at in AlertTimes(alerts, state) <==> exists a <- alerts :: a.state == state && a.createdAt == at
  {
    if alerts == [] {
    } else {
      var init, last := alerts[..|alerts| - 1], alerts[|alerts| - 1];
      assert alerts == init + [last];
      AlertTimesMembers(init, state, at);
    }
  }

  predicate Blocked(times: seq<Time>, picks: seq<nat>, at: Time, window: Duration)
    requires InRange(picks, |times|)
  {
    exists k | 0 <= k < |picks| :: at - times[picks[k]] < window
  }

  /** Left to right, keep every instant that no kept instant blocks. */
  function Greedy(times: seq<Time>, window: Duration): (picks: seq<nat>)
    ensures InRange(picks, |times|)
  {
    if times == [] then []
    else
      var n := |times| - 1;
      var picks := Greedy(times[..n], window);
      if Blocked(times, picks, times[n], window) then picks else picks + [n]
  }

  function At(times: seq<Time>, picks: seq<nat>): (some: seq<Time>)
    requires InRange(picks, |times|)
    ensures |some| == |picks| && forall k | 0 <= k < |picks| :: some[k] == times[picks[k]]
  {
    if picks == [] then [] else At(times, picks[..|picks| - 1]) + [times[picks[|picks| - 1]]]
  }

  lemma {:induction false} GreedySnoc(times: seq<Time>, at: Time, window: Duration)
    ensures
      var picks := Greedy(times, window);
      Greedy(times + [at], window)
        == if Blocked(times, picks, at, window) then picks else picks + [|times|]
  {
    var more, picks := times + [at], Greedy(times, window);
    assert more[..|more| - 1] == times;
    assert forall k | 0 <= k < |picks| :: more[picks[k]] == times[picks[k]];
  }

  lemma {:induction false} AlertsAreGreedy(writes: seq<Write>, window: Duration, state: State)
    requires forall c <- writes :: c.window == window
    ensures
      var t := MemRun(writes);
      var wanted := Wanted(t.results, state);
      AlertTimes(t.alerts, state) == At(wanted, Greedy(wanted, window))
  {
    if writes == [] {
    } else {
      var n := |writes| - 1;
      var before, c := writes[..n], writes[n];
      assert c in writes && forall d <- before :: d in writes;
      AlertsAreGreedy(before, window, state);
      var t := MemRun(before);
      GreedyFollowsStep(t, c, window, state);
    }
  }

  lemma {:induction false} GreedyFollowsStep(t: Timeline, c: Write, window: Duration, state: State)
    requires c.window == window
    requires
      var wanted := Wanted(t.results, state);
      AlertTimes(t.alerts, state) == At(wanted, Greedy(wanted, window))
    ensures
      var after := MemStep(t, c);
      var wanted := Wanted(after.results, state);
      AlertTimes(after.alerts, state) == At(wanted, Greedy(wanted, window))
  {
    var r := c.result;
    var wanted := Wanted(t.results, state);
    StepWanted(t, c, state);
    StepAlertTimes(t, c, state);
    if r.state == state && AlertWorthy(LastState(t.results), state) {
      TooSoonIsBlocked(t.alerts, state, r.checkedAt, window, wanted, Greedy(wanted, window));
      GreedyAdds(wanted, r.checkedAt, window);
    }
  }

  lemma {:induction false} StepWanted(t: Timeline, c: Write, state: State)
    ensures
      var asked := c.result.state == state && AlertWorthy(LastState(t.results), state);
      Wanted(MemStep(t, c).results, state)
        == if asked then Wanted(t.results, state) + [c.result.checkedAt] else Wanted(t.results, state)
  {
    WantedSnoc(t.results, Bare(c.result), state);
  }

  lemma {:induction false} StepAlertTimes(t: Timeline, c: Write, state: State)
    ensures
      var r := c.result;
      var asked := r.state == state && AlertWorthy(LastState(t.results), state);
      AlertTimes(MemStep(t, c).alerts, state)
        == AlertTimes(t.alerts, state)
           + if asked && !TooSoon(t.alerts, state, r.checkedAt, c.window) then [r.checkedAt] else []
  {
    AlertTimesSnoc(t.alerts, AlertRow(c.result), state);
    assert t.alerts + [] == t.alerts;
    assert AlertTimes(t.alerts, state) + [] == AlertTimes(t.alerts, state);
  }

  lemma {:induction false} GreedyAdds(times: seq<Time>, at: Time, window: Duration)
    ensures
      var picks := Greedy(times, window);
      At(times + [at], Greedy(times + [at], window))
        == At(times, picks) + if Blocked(times, picks, at, window) then [] else [at]
  {
    var more, picks := times + [at], Greedy(times, window);
    GreedySnoc(times, at, window);
    AtLonger(times, at, picks);
    if !Blocked(times, picks, at, window) {
      assert (picks + [|times|])[..|picks|] == picks;
      assert At(more, picks + [|times|]) == At(more, picks) + [at];
    }
  }

  lemma {:induction false} AtLonger(times: seq<Time>, at: Time, picks: seq<nat>)
    requires InRange(picks, |times|)
    ensures At(times + [at], picks) == At(times, picks)
  {
    assert forall k | 0 <= k < |picks| :: (times + [at])[picks[k]] == times[picks[k]];
  }

  lemma {:induction false} WantedSnoc(results: seq<CheckResult>, r: CheckResult, state: State)
    ensures Wanted(results + [r], state)
         == Wanted(results, state)
            + if r.state == state && AlertWorthy(LastState(results), state) then [r.checkedAt] else []
  {
    assert (results + [r])[..|results + [r]| - 1] == results;
    assert StateBefore(results + [r], |results|) == LastState(results);
  }

  lemma {:induction false} TooSoonIsBlocked(alerts: seq<Alert>, state: State, at: Time, window: Duration,
                                            times: seq<Time>, picks: seq<nat>)
    requires InRange(picks, |times|)
    requires AlertTimes(alerts, state) == At(times, picks)
    ensures TooSoon(alerts, state, at, window) <==> Blocked(times, picks, at, window)
  {
    var made := At(times, picks);
    if a :| a in alerts && a.state == state && at - a.createdAt < window {
      AlertTimesMembers(alerts, state, a.createdAt);
      var i :| 0 <= i < |made| && made[i] == a.createdAt;
      assert times[picks[i]] == a.createdAt;
    }
    if i :| 0 <= i < |picks| && at - times[picks[i]] < window {
      assert made[i] == times[picks[i]];
      AlertTimesMembers(alerts, state, made[i]);
    }
  }

  // ---- Greedy selection: separation, coverage, optimality ----

  function Members(picks: seq<nat>): set<nat> {
    set k | 0 <= k < |picks| :: picks[k]
  }

  /** Picked positions increase, and the instants there keep the window between them. */
  predicate Spread(times: seq<Time>, picks: seq<nat>, window: Duration) {
    && Increasing(picks) && InRange(picks, |times|)
    && forall i, j | 0 <= i < j < |picks| :: times[picks[j]] - times[picks[i]] >= window
  }

  lemma SpreadGrows(times: seq<Time>, picks: seq<nat>, at: Time, window: Duration)
    requires Spread(times, picks, window)
    ensures Spread(times + [at], picks, window)
    ensures !Blocked(times, picks, at, window) ==> Spread(times + [at], picks + [|times|], window)
  {
    var more := times + [at];
    assert forall k | 0 <= k < |picks| :: more[picks[k]] == times[picks[k]];
    if !Blocked(times, picks, at, window) {
      assert forall k | 0 <= k < |picks| :: at - times[picks[k]] >= window;
    }
  }

  lemma {:induction false} GreedySeparates(times: seq<Time>, window: Duration)
    ensures Spread(times, Greedy(times, window), window)
  {
    if times == [] {
    } else {
      var n := |times| - 1;
      GreedySeparates(times[..n], window);
      SpreadGrows(times[..n], Greedy(times[..n], window), times[n], window);
      GreedySnoc(times[..n], times[n], window);
      assert times[..n] + [times[n]] == times;
    }
  }

  lemma {:induction false} GreedySelection(times: seq<Time>, window: Duration)
    ensures Separated(times, Members(Greedy(times, window)), window)
    ensures |Members(Greedy(times, window))| == |Greedy(times, window)|
  {
    var picks := Greedy(times, window);
    GreedySeparates(times, window);
    IncreasingMembers(picks);
    forall a, b | a in Members(picks) && b in Members(picks) && a < b
      ensures times[b] - times[a] >= window
    {
      var i :| 0 <= i < |picks| && picks[i] == a;
      var j :| 0 <= j < |picks| && picks[j] == b;
      assert i < j;
    }
  }

  lemma {:induction false} GreedyCovers(times: seq<Time>, window: Duration, i: nat) returns (k: nat)
    requires window > 0 && i < |times|
    ensures
      var picks := Greedy(times, window);
      k < |picks| && picks[k] <= i && times[i] - window < times[picks[k]]
  {
    var n := |times| - 1;
    var picks := Greedy(times[..n], window);
    if i < n {
      k := GreedyCovers(times[..n], window, i);
    } else if Blocked(times, picks, times[n], window) {
      k :| k < |picks| && times[n] - times[picks[k]] < window;
    } else {
      k := |picks|;
    }
  }

  lemma {:induction false} IncreasingMembers(picks: seq<nat>)
    requires Increasing(picks)
    ensures |Members(picks)| == |picks|
  {
    if picks == [] {
    } else {
      var n := |picks| - 1;
      IncreasingMembers(picks[..n]);
      assert Members(picks) == Members(picks[..n]) + {picks[n]};
      assert picks[n] !in Members(picks[..n]);
    }
  }

  predicate Ascending(times: seq<Time>) {
    forall i, j | 0 <= i < j < |times| :: times[i] <= times[j]
  }

  // The picks before the last pick `p` are what the selection makes of the instants before `p`.
  lemma {:induction false} GreedyUpToLast(times: seq<Time>, window: Duration)
    requires Greedy(times, window) != []
    ensures
      var picks := Greedy(times, window);
      Greedy(times[..picks[|picks| - 1]], window) == picks[..|picks| - 1]
  {
    var n := |times| - 1;
    var init, picks := times[..n], Greedy(times, window);
    var p := picks[|picks| - 1];
    if Blocked(times, Greedy(init, window), times[n], window) {
      GreedyUpToLast(init, window);
      assert init[..p] == times[..p];
    }
  }

  // No choice of pairwise separated instants is larger than the greedy one: an exchange
  // argument, from the last instant backwards.
  lemma {:induction false} GreedyIsOptimal(times: seq<Time>, window: Duration, chosen: set<nat>)
    requires Ascending(times) && Separated(times, chosen, window)
    ensures |chosen| <= |Greedy(times, window)|
    decreases |times|
  {
    if times == [] {
      assert chosen == {};
    } else {
      var n := |times| - 1;
      var rest := chosen - {n};
      if n in chosen && Blocked(times, Greedy(times[..n], window), times[n], window) {
        var p := Exchange(times, window, chosen);
        GreedyIsOptimal(times[..p], window, rest);
        assert chosen == rest + {n};
      } else {
        SeparatedInPrefix(times, chosen, window);
        GreedyIsOptimal(times[..n], window, rest);
        assert chosen == if n in chosen then rest + {n} else rest;
      }
    }
  }

  lemma SeparatedInPrefix(times: seq<Time>, chosen: set<nat>, window: Duration)
    requires times != [] && Separated(times, chosen, window)
    ensures Separated(times[..|times| - 1], chosen - {|times| - 1}, window)
  {}

  // When the last instant is chosen but blocked, the pick that blocks it takes its place: the
  // rest of the choice lies before that pick, and the selection up to it is one pick smaller.
  lemma {:induction false} Exchange(times: seq<Time>, window: Duration, chosen: set<nat>) returns (p: nat)
    requires Ascending(times) && Separated(times, chosen, window)
    requires times != [] && |times| - 1 in chosen
    requires Blocked(times, Greedy(times[..|times| - 1], window), times[|times| - 1], window)
    ensures p < |times| && Separated(times[..p], chosen - {|times| - 1}, window)
    ensures |Greedy(times[..p], window)| + 1 == |Greedy(times, window)|
  {
    var n := |times| - 1;
    var init := times[..n];
    p := LastPickBlocks(times, Greedy(init, window), n, window);
    SeparatedBefore(times, chosen, p, window);
    GreedyUpToLast(times, window);
  }

  lemma LastPickBlocks(times: seq<Time>, picks: seq<nat>, n: nat, window: Duration) returns (p: nat)
    requires Ascending(times) && n == |times| - 1 && picks == Greedy(times[..n], window)
    requires Blocked(times, picks, times[n], window)
    ensures picks != [] && p == picks[|picks| - 1] && p < n
    ensures times[n] - times[p] < window
  {
    GreedySeparates(times[..n], window);
    var k :| 0 <= k < |picks| && times[n] - times[picks[k]] < window;
    var last := |picks| - 1;
    p := picks[last];
    assert picks[k] <= p;
  }

  // Everything chosen together with the last instant lies before any instant that blocks it.
  lemma SeparatedBefore(times: seq<Time>, chosen: set<nat>, p: nat, window: Duration)
    requires Ascending(times) && p < |times|
    requires Separated(times, chosen, window) && |times| - 1 in chosen
    requires times[|times| - 1] - times[p] < window
    ensures Separated(times[..p], chosen - {|times| - 1}, window)
  {
    var n := |times| - 1;
    forall i | i in chosen && i != n
      ensures i < p
    {
      assert times[n] - times[i] >= window;
    }
  }

  // ---- What this means for the alerts of one endpoint and state ----

  predicate Chronological(results: seq<CheckResult>) {
    forall i, j | 0 <= i < j < |results| :: results[i].checkedAt <= results[j].checkedAt
  }

  lemma {:induction false} WantedMembers(results: seq<CheckResult>, state: State, i: nat) returns (k: nat)
    requires i < |results| && results[i].state == state && AlertWorthy(StateBefore(results, i), state)
    ensures k < |Wanted(results, state)| && Wanted(results, state)[k] == results[i].checkedAt
  {
    var n := |results| - 1;
    if i == n {
      k := |Wanted(results[..n], state)|;
    } else {
      assert StateBefore(results[..n], i) == StateBefore(results, i);
      k := WantedMembers(results[..n], state, i);
    }
  }

  lemma {:induction false} WantedAscends(results: seq<CheckResult>, state: State)
    requires Chronological(results)
    ensures
      var wanted := Wanted(results, state);
      && Ascending(wanted)
      && (results == [] ==> wanted == [])
      && (results != [] ==> UpTo(wanted, results[|results| - 1].checkedAt))
  {
    if results == [] {
    } else {
      var n := |results| - 1;
      var at := results[n].checkedAt;
      WantedAscends(results[..n], state);
      assert n > 0 ==> results[..n][n - 1].checkedAt <= at;
      AscendingGrows(Wanted(results[..n], state), at);
    }
  }

  predicate UpTo(times: seq<Time>, last: Time) {
    forall k | 0 <= k < |times| :: times[k] <= last
  }

  lemma AscendingGrows(times: seq<Time>, at: Time)
    requires Ascending(times) && UpTo(times, at)
    ensures Ascending(times + [at]) && UpTo(times + [at], at)
    ensures times + [] == times
  {}

  // For results in any order of check times: a later alert of the same state is at least the
  // window after every earlier one.
  lemma {:induction false} AlertsAreSeparated(writes: seq<Write>, window: Duration, state: State)
    requires forall c <- writes :: c.window == window
    ensures
      var made := AlertTimes(MemRun(writes).alerts, state);
      forall i, j | 0 <= i < j < |made| :: made[j] - made[i] >= window
  {
    AlertsAreGreedy(writes, window, state);
    GreedySeparates(Wanted(MemRun(writes).results, state), window);
  }

  // At most floor(L / window) + 1 alerts of one state fall in a span of length L.
  lemma {:induction false} AlertRate(writes: seq<Write>, window: Duration, state: State, some: set<nat>, from: Time,
                                     to: Time)
    requires window > 0 && from <= to
    requires forall c <- writes :: c.window == window
    requires
      var made := AlertTimes(MemRun(writes).alerts, state);
      forall i <- some :: i < |made| && from <= made[i] <= to
    ensures |some| <= (to - from) / window + 1
  {
    AlertsAreSeparated(writes, window, state);
    SeparatedBound(AlertTimes(MemRun(writes).alerts, state), some, window, from, to);
  }

  // Every result that deserves an alert has one of its own state, no further than the window
  // in the past.
  lemma AlertsCover(writes: seq<Write>, window: Duration, i: nat) returns (a: Alert)
    requires window > 0 && forall c <- writes :: c.window == window
    requires i < |writes| == |MemRun(writes).results|
    requires AlertWorthy(StateBefore(MemRun(writes).results, i), writes[i].result.state)
    ensures a in MemRun(writes).alerts && a.state == writes[i].result.state
    ensures a.createdAt > writes[i].result.checkedAt - window
  {
    RunRecordsWrites(writes);
    var t, state := MemRun(writes), writes[i].result.state;
    var wanted := Wanted(t.results, state);
    var at := WantedMembers(t.results, state, i);
    var k := GreedyCovers(wanted, window, at);
    AlertsAreGreedy(writes, window, state);
    var made := At(wanted, Greedy(wanted, window));
    AlertTimesMembers(t.alerts, state, made[k]);
    a :| a in t.alerts && a.state == state && a.createdAt == made[k];
  }

  // With check times in order, the alerts of a state are a largest possible selection, with
  // the window kept between them, from the results that deserve one.
  lemma {:induction false} AlertsAreMaximal(writes: seq<Write>, window: Duration, state: State, chosen: set<nat>)
    requires forall c <- writes :: c.window == window
    requires Chronological(MemRun(writes).results)
    requires Separated(Wanted(MemRun(writes).results, state), chosen, window)
    ensures |chosen| <= |AlertTimes(MemRun(writes).alerts, state)|
  {
    var wanted := Wanted(MemRun(writes).results, state);
    AlertsAreGreedy(writes, window, state);
    WantedAscends(MemRun(writes).results, state);
    GreedyIsOptimal(wanted, window, chosen);
  }

  // ... and they are such a selection themselves.
  lemma AlertsAreASelection(writes: seq<Write>, window: Duration, state: State) returns (picks: seq<nat>)
    requires forall c <- writes :: c.window == window
    ensures
      var wanted := Wanted(MemRun(writes).results, state);
      && Increasing(picks) && InRange(picks, |wanted|)
      && AlertTimes(MemRun(writes).alerts, state) == At(wanted, picks)
      && Separated(wanted, Members(picks), window)
      && |Members(picks)| == |AlertTimes(MemRun(writes).alerts, state)|
  {
    var wanted := Wanted(MemRun(writes).results, state);
    picks := Greedy(wanted, window);
    AlertsAreGreedy(writes, window, state);
    GreedySeparates(wanted, window);
    GreedySelection(wanted, window);
  }
}
