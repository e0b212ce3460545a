// Where the in-memory store and the database agree about one endpoint, and where they do not.
module StoreAgreement {
  import opened Domain
  import opened Timeline

  predicate InOrder(writes: seq<Write>) {
    forall i, j | 0 <= i < j < |writes| :: writes[i].result.checkedAt <= writes[j].result.checkedAt
  }

  lemma {:induction false} NewestIsLast(results: seq<CheckResult>)
    requires Chronological(results)
    ensures NewestState(results) == LastState(results)
    ensures results != [] ==> NewestRow(results) == Some(results[|results| - 1])
  {
    if results == [] {
    } else {
      NewestIsLast(results[..|results| - 1]);
    }
  }

  /** The result falls exactly the window after an alert of its state, and nothing nearer blocks it. */
  predicate OnBoundary(t: Timeline, c: Write) {
    var r := c.result;
    && AlertWorthy(LastState(t.results), r.state)
    && !TooSoon(t.alerts, r.state, r.checkedAt, c.window)
    && exists a <- t.alerts :: a.state == r.state && r.checkedAt - a.createdAt == c.window
  }

  // Recording one result in both stores, each with alerts of its own, leaves the same
  // transitions exactly when the two read the same previous state.
  lemma TransitionStepsAgree(mem: Timeline, pg: Timeline, c: Write)
    requires mem.results == pg.results && mem.transitions == pg.transitions
    ensures MemStep(mem, c).results == PgStep(pg, c).results
    ensures MemStep(mem, c).transitions == PgStep(pg, c).transitions
       <==> NewestState(pg.results) == LastState(mem.results)
  {
    var r := c.result;
    if NewestState(pg.results) != LastState(mem.results) {
      var n := |mem.transitions|;
      var last, newest := LastState(mem.results), NewestState(pg.results);
      assert MemStep(mem, c).transitions[n..] == if last != r.state then [ChangeRow(last, r)] else [];
      assert PgStep(pg, c).transitions[n..] == if newest != r.state then [ChangeRow(newest, r)] else [];
    }
  }

  // One recorded result leaves both stores with the same rows exactly when they read the same
  // previous state and the result is not on the boundary; on it the in-memory store alerts and
  // the database does not.
  lemma StepsAgree(t: Timeline, c: Write)
    ensures MemStep(t, c) == PgStep(t, c) <==> NewestState(t.results) == LastState(t.results) && !OnBoundary(t, c)
    ensures OnBoundary(t, c) ==>
      && MemStep(t, c).alerts == t.alerts + [AlertRow(c.result)]
      && PgStep(t, c).alerts == t.alerts
  {
    var r := c.result;
    TransitionStepsAgree(t, t, c);
    if OnBoundary(t, c) {
      assert TooSoonOrAt(t.alerts, r.state, r.checkedAt, c.window);
      assert |MemStep(t, c).alerts| == |t.alerts| + 1;
      assert t.alerts + [] == t.alerts;
    } else if AlertWorthy(LastState(t.results), r.state) {
      assert TooSoon(t.alerts, r.state, r.checkedAt, c.window)
        <==> TooSoonOrAt(t.alerts, r.state, r.checkedAt, c.window);
    }
  }

  lemma {:induction false} RunInOrder(writes: seq<Write>)
    requires InOrder(writes)
    ensures Chronological(MemRun(writes).results) && Chronological(PgRun(writes).results)
  {
    RunRecordsWrites(writes);
  }

  // Check results, their newest row, and transitions agree over every run in check-time order.
  lemma {:induction false} LogsAgree(writes: seq<Write>)
    requires InOrder(writes)
    ensures MemRun(writes).results == PgRun(writes).results
    ensures MemRun(writes).transitions == PgRun(writes).transitions
    ensures writes != [] ==> NewestRow(PgRun(writes).results) == Some(Bare(writes[|writes| - 1].result))
  {
    if writes == [] {
    } else {
      var n := |writes| - 1;
      LogsAgree(writes[..n]);
      RunInOrder(writes[..n]);
      NewestIsLast(PgRun(writes[..n]).results);
      RunInOrder(writes);
      NewestIsLast(PgRun(writes).results);
      RunRecordsWrites(writes);
    }
  }

  predicate BoundaryAt(writes: seq<Write>, i: nat)
    requires i < |writes|
  {
    OnBoundary(MemRun(writes[..i]), writes[i])
  }

  predicate HitsBoundary(writes: seq<Write>) {
    exists i: nat | i < |writes| :: BoundaryAt(writes, i)
  }

  lemma BoundaryInPrefix(writes: seq<Write>, n: nat, i: nat)
    requires i < n <= |writes|
    ensures BoundaryAt(writes[..n], i) == BoundaryAt(writes, i)
  {
    assert writes[..n][..i] == writes[..i];
  }

  lemma PrefixHits(writes: seq<Write>)
    requires writes != []
    ensures HitsBoundary(writes) <==> HitsBoundary(writes[..|writes| - 1]) || BoundaryAt(writes, |writes| - 1)
  {
    var n := |writes| - 1;
    if HitsBoundary(writes) {
      var i: nat :| i < |writes| && BoundaryAt(writes, i);
      if i < n {
        BoundaryInPrefix(writes, n, i);
      }
    }
    if HitsBoundary(writes[..n]) {
      var i: nat :| i < n && BoundaryAt(writes[..n], i);
      BoundaryInPrefix(writes, n, i);
    }
  }

  /** The in-memory store holds an alert the database refused and, its blocker staying, will go on refusing. */
  predicate Diverged(mem: seq<Alert>, pg: seq<Alert>, state: State, at: Time, window: Duration) {
    && (exists a <- mem :: a.state == state && a.createdAt == at)
    && (exists a <- pg :: a.state == state && a.createdAt == at - window)
    && (forall a <- pg :: !(a.state == state && a.createdAt == at))
  }

  lemma DivergenceStays(mem: Timeline, pg: Timeline, c: Write, state: State, at: Time)
    requires Diverged(mem.alerts, pg.alerts, state, at, c.window)
    ensures Diverged(MemStep(mem, c).alerts, PgStep(pg, c).alerts, state, at, c.window)
  {
    var b :| b in pg.alerts && b.state == state && b.createdAt == at - c.window;
    var a :| a in mem.alerts && a.state == state && a.createdAt == at;
    assert a in MemStep(mem, c).alerts;
    assert b in PgStep(pg, c).alerts;
    if c.result.state == state && c.result.checkedAt == at {
      assert TooSoonOrAt(pg.alerts, state, at, c.window);
    }
  }

  lemma BoundaryDiverges(t: Timeline, c: Write) returns (state: State, at: Time)
    requires c.window > 0 && OnBoundary(t, c) && NewestState(t.results) == LastState(t.results)
    ensures Diverged(MemStep(t, c).alerts, PgStep(t, c).alerts, state, at, c.window)
  {
    state, at := c.result.state, c.result.checkedAt;
    StepsAgree(t, c);
    assert AlertRow(c.result) in MemStep(t, c).alerts;
    forall a | a in t.alerts && a.state == state
      ensures a.createdAt != at
    {
      assert at - a.createdAt >= c.window;
    }
  }

  ghost predicate Parted(writes: seq<Write>, window: Duration) {
    exists state, at :: Diverged(MemRun(writes).alerts, PgRun(writes).alerts, state, at, window)
  }

  lemma PartedStays(writes: seq<Write>, window: Duration)
    requires writes != [] && writes[|writes| - 1].window == window
    requires Parted(writes[..|writes| - 1], window)
    ensures Parted(writes, window)
  {
    var before := writes[..|writes| - 1];
    var state, at :| Diverged(MemRun(before).alerts, PgRun(before).alerts, state, at, window);
    DivergenceStays(MemRun(before), PgRun(before), writes[|writes| - 1], state, at);
    assert Diverged(MemRun(writes).alerts, PgRun(writes).alerts, state, at, window);
  }

  lemma PartsAtBoundary(writes: seq<Write>, window: Duration)
    requires writes != [] && window > 0 && InOrder(writes) && writes[|writes| - 1].window == window
    requires MemRun(writes[..|writes| - 1]) == PgRun(writes[..|writes| - 1])
    requires BoundaryAt(writes, |writes| - 1)
    ensures Parted(writes, window)
  {
    var before, c := writes[..|writes| - 1], writes[|writes| - 1];
    var t := MemRun(before);
    RunInOrder(before);
    NewestIsLast(t.results);
    var state, at := BoundaryDiverges(t, c);
    assert MemRun(writes) == MemStep(t, c) && PgRun(writes) == PgStep(t, c);
    assert Diverged(MemRun(writes).alerts, PgRun(writes).alerts, state, at, window);
  }

  lemma {:induction false} StaysTogether(writes: seq<Write>)
    requires writes != [] && InOrder(writes)
    requires MemRun(writes[..|writes| - 1]) == PgRun(writes[..|writes| - 1])
    requires !BoundaryAt(writes, |writes| - 1)
    ensures MemRun(writes) == PgRun(writes)
  {
    var before, c := writes[..|writes| - 1], writes[|writes| - 1];
    RunInOrder(before);
    NewestIsLast(MemRun(before).results);
    StepsAgree(MemRun(before), c);
  }

  // Off the boundary the two stores agree, each write with a window of its own.
  lemma {:induction false} AgreeOffBoundary(writes: seq<Write>)
    requires InOrder(writes) && !HitsBoundary(writes)
    ensures MemRun(writes) == PgRun(writes)
  {
    if writes == [] {
    } else {
      PrefixHits(writes);
      AgreeOffBoundary(writes[..|writes| - 1]);
      StaysTogether(writes);
    }
  }

  // With a positive window the boundary parts the alert logs for good.
  lemma {:induction false} PartedOnBoundary(writes: seq<Write>, window: Duration)
    requires window > 0 && InOrder(writes) && forall c <- writes :: c.window == window
    requires HitsBoundary(writes)
    ensures Parted(writes, window)
  {
    var n := |writes| - 1;
    assert writes[n] in writes && forall d <- writes[..n] :: d in writes;
    PrefixHits(writes);
    if HitsBoundary(writes[..n]) {
      PartedOnBoundary(writes[..n], window);
      PartedStays(writes, window);
    } else {
      AgreeOffBoundary(writes[..n]);
      PartsAtBoundary(writes, window);
    }
  }

  // Without a positive window the in-memory store suppresses nothing, so it ends up with the
  // more alerts the more results fall on the boundary.
  lemma {:induction false} AheadOnBoundary(writes: seq<Write>)
    requires InOrder(writes) && forall c <- writes :: c.window <= 0
    ensures |MemRun(writes).alerts| >= |PgRun(writes).alerts| + if HitsBoundary(writes) then 1 else 0
  {
    if writes == [] {
    } else {
      var n := |writes| - 1;
      assert writes[n] in writes && forall d <- writes[..n] :: d in writes;
      AheadOnBoundary(writes[..n]);
      PrefixHits(writes);
      LogsAgree(writes[..n]);
      RunInOrder(writes[..n]);
      NewestIsLast(PgRun(writes[..n]).results);
      NothingTooSoon(writes);
      StepKeepsLead(MemRun(writes[..n]), PgRun(writes[..n]), writes[n]);
      if BoundaryAt(writes, n) && !HitsBoundary(writes[..n]) {
        AgreeOffBoundary(writes[..n]);
        StepsAgree(MemRun(writes[..n]), writes[n]);
      }
    }
  }

  lemma StepKeepsLead(mem: Timeline, pg: Timeline, c: Write)
    requires LastState(mem.results) == NewestState(pg.results)
    requires !TooSoon(mem.alerts, c.result.state, c.result.checkedAt, c.window)
    ensures |MemStep(mem, c).alerts| - |mem.alerts| >= |PgStep(pg, c).alerts| - |pg.alerts|
  {}

  lemma {:induction false} NothingTooSoon(writes: seq<Write>)
    requires writes != [] && InOrder(writes) && writes[|writes| - 1].window <= 0
    ensures
      var c := writes[|writes| - 1];
      !TooSoon(MemRun(writes[..|writes| - 1]).alerts, c.result.state, c.result.checkedAt, c.window)
  {
    var n := |writes| - 1;
    forall a | a in MemRun(writes[..n]).alerts
      ensures a.createdAt <= writes[n].result.checkedAt
    {
      var i := AlertIsOfResult(writes[..n], a);
    }
  }

  // Every alert carries the check time of one of the results.
  lemma {:induction false} AlertIsOfResult(writes: seq<Write>, a: Alert) returns (i: nat)
    requires a in MemRun(writes).alerts
    ensures i < |writes| && a == AlertRow(writes[i].result)
  {
    var n := |writes| - 1;
    if a in MemRun(writes[..n]).alerts {
      i := AlertIsOfResult(writes[..n], a);
    } else {
      i := n;
    }
  }

  // Over a whole run in check-time order with one window, the two stores hold the same rows
  // exactly when no result ever falls on the boundary; after such a result their alert logs
  // never coincide again.
  lemma {:induction false} StoresAgreeExactly(writes: seq<Write>, window: Duration)
    requires InOrder(writes) && forall c <- writes :: c.window == window
    ensures MemRun(writes) == PgRun(writes) <==> !HitsBoundary(writes)
    ensures MemRun(writes).alerts == PgRun(writes).alerts <==> !HitsBoundary(writes)
  {
    if !HitsBoundary(writes) {
      AgreeOffBoundary(writes);
    } else if window > 0 {
      PartedOnBoundary(writes, window);
    } else {
      AheadOnBoundary(writes);
    }
  }

  // ---- The boundary can be hit ----

  // A second outage report exactly one window after the first.
  lemma {:induction false} BoundaryIsReachable(window: Duration)
    requires window > 0
    ensures HitsBoundary([Write(Sample(Unavailable, 5), window), Write(Sample(Unavailable, 5 + window), window)])
  {
    var writes := [Write(Sample(Unavailable, 5), window), Write(Sample(Unavailable, 5 + window), window)];
    assert writes[..1][..0] == [];
    assert MemRun(writes[..1]) == MemStep(EMPTY, writes[0]);
    assert EMPTY.alerts + [AlertRow(writes[0].result)] == [AlertRow(writes[0].result)];
    assert BoundaryAt(writes, 1);
  }

  // ---- The database's alerts ----

  predicate SpacedBeyond(alerts: seq<Alert>, window: Duration) {
    forall i, j | 0 <= i < j < |alerts| && alerts[i].state == alerts[j].state ::
      alerts[j].createdAt - alerts[i].createdAt > window
  }

  lemma PgStepKeepsSpacing(t: Timeline, c: Write)
    requires SpacedBeyond(t.alerts, c.window)
    ensures SpacedBeyond(PgStep(t, c).alerts, c.window)
  {
    assert forall i | 0 <= i < |t.alerts| :: t.alerts[i] in t.alerts;
  }

  // The database keeps strictly more than the window between alerts of one state, whatever
  // the order of check times.
  lemma {:induction false} PgAlertsAreSeparated(writes: seq<Write>, window: Duration)
    requires forall c <- writes :: c.window == window
    ensures SpacedBeyond(PgRun(writes).alerts, window)
  {
    if writes == [] {
    } else {
      var n := |writes| - 1;
      assert writes[n] in writes && forall d <- writes[..n] :: d in writes;
      PgAlertsAreSeparated(writes[..n], window);
      PgStepKeepsSpacing(PgRun(writes[..n]), writes[n]);
    }
  }

  // Along the transition log, change times never go back when check times do not.
  lemma {:induction false} TransitionsInOrder(writes: seq<Write>)
    requires InOrder(writes)
    ensures
      var transitions := MemRun(writes).transitions;
      forall j, k | 0 <= j < k < |transitions| :: transitions[j].changedAt <= transitions[k].changedAt
  {
    var where := TransitionsAreChanges(writes);
    RunInOrder(writes);
    assert forall j, k | 0 <= j < k < |where| :: where[j] < where[k];
  }
}
