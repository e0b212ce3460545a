// Which results have an alert, and which result an alert or a transition comes from: said of both
// stores by the states, instants and fields of the rows alone.
module Alerts {
  import opened Domain
  import opened Timeline
  import opened Rows
  import opened Stores
  import opened AnyOrder
  import StoreAgreement
  import Mem = MemoryStore
  import Pg = PostgresStore

  // ---- Previous states ----

  /** The state of the write before; before the first one it is Unknown. */
  function MemPrevious(writes: seq<Write>, i: nat): State
    requires i <= |writes|
  {
    if i == 0 then Unknown else writes[i - 1].result.state
  }

  /** Of the first `i` writes, number `j` has the greatest check time, and is the last one that has it. */
  predicate Newest(writes: seq<Write>, i: nat, j: nat)
    requires i <= |writes|
  {
    && j < i
    && forall k | 0 <= k < i ::
         || writes[k].result.checkedAt < writes[j].result.checkedAt
         || (writes[k].result.checkedAt == writes[j].result.checkedAt && k <= j)
  }

  predicate PgPrevious(writes: seq<Write>, i: nat, previous: State)
    requires i <= |writes|
  {
    if i == 0 then previous == Unknown
    else exists j: nat | j < i :: Newest(writes, i, j) && writes[j].result.state == previous
  }

  lemma {:induction false} NewestAt(rows: seq<CheckResult>) returns (j: nat)
    requires rows != []
    ensures j < |rows| && NewestRow(rows) == Some(rows[j])
    ensures forall k | 0 <= k < |rows| ::
      rows[k].checkedAt < rows[j].checkedAt || (rows[k].checkedAt == rows[j].checkedAt && k <= j)
  {
    var n := |rows| - 1;
    if n == 0 {
      assert rows[..n] == [];
      j := 0;
    } else {
      j := NewestAt(rows[..n]);
      if rows[n].checkedAt >= rows[j].checkedAt {
        j := n;
      }
    }
  }

  lemma {:induction false} PgPreviousIsNewest(writes: seq<Write>, i: nat, previous: State)
    requires i <= |writes| && PgPrevious(writes, i, previous)
    ensures previous == NewestState(PgRun(writes[..i]).results)
  {
    RunsHoldWritten(writes[..i]);
    if i > 0 {
      var j: nat :| j < i && Newest(writes, i, j) && writes[j].result.state == previous;
      var k := NewestWrite(writes, i);
      assert j == k;
    }
  }

  lemma {:induction false} PreviousIsOne(writes: seq<Write>, i: nat, one: State, other: State)
    requires i <= |writes| && PgPrevious(writes, i, one) && PgPrevious(writes, i, other)
    ensures one == other
  {
    PgPreviousIsNewest(writes, i, one);
    PgPreviousIsNewest(writes, i, other);
  }

  // In check-time order the newest write is the last one.
  lemma PreviousInOrder(writes: seq<Write>, i: nat)
    requires StoreAgreement.InOrder(writes) && i <= |writes|
    ensures PgPrevious(writes, i, MemPrevious(writes, i))
  {
    if i > 0 {
      NewestInOrder(writes, i);
      var j: nat := i - 1;
      assert Newest(writes, i, j) && writes[j].result.state == MemPrevious(writes, i);
    }
  }

  lemma NewestInOrder(writes: seq<Write>, i: nat)
    requires StoreAgreement.InOrder(writes) && 0 < i <= |writes|
    ensures Newest(writes, i, i - 1)
  {
    forall k | 0 <= k < i - 1
      ensures writes[k].result.checkedAt <= writes[i - 1].result.checkedAt
    {}
  }

  lemma {:induction false} MemPreviousIsLast(writes: seq<Write>, i: nat)
    requires i <= |writes|
    ensures MemPrevious(writes, i) == LastState(MemRun(writes[..i]).results)
  {
    RunsHoldWritten(writes[..i]);
  }

  // ---- One step ----

  /** Less than the window older than the result, or made at its instant. */
  predicate Near(a: Alert, c: Write) {
    c.result.checkedAt - a.createdAt < c.window || a.createdAt == c.result.checkedAt
  }

  /** At most the window older. */
  predicate NearOrAt(a: Alert, c: Write) {
    c.result.checkedAt - a.createdAt <= c.window || a.createdAt == c.result.checkedAt
  }

  lemma MemStepAlerts(t: Timeline, c: Write)
    requires
      var r := c.result;
      r.state == Degraded || r.state == Unavailable || (r.state == Healthy && LastState(t.results) != Healthy)
    ensures exists a <- MemStep(t, c).alerts :: a.state == c.result.state && Near(a, c)
  {
    if TooSoon(t.alerts, c.result.state, c.result.checkedAt, c.window) {
      var a :| a in t.alerts && a.state == c.result.state && c.result.checkedAt - a.createdAt < c.window;
      assert a in MemStep(t, c).alerts && Near(a, c);
    } else {
      assert AlertRow(c.result) in MemStep(t, c).alerts && Near(AlertRow(c.result), c);
    }
  }

  lemma PgStepAlerts(t: Timeline, c: Write)
    requires
      var r := c.result;
      r.state == Degraded || r.state == Unavailable || (r.state == Healthy && NewestState(t.results) != Healthy)
    ensures exists a <- PgStep(t, c).alerts :: a.state == c.result.state && NearOrAt(a, c)
  {
    if TooSoonOrAt(t.alerts, c.result.state, c.result.checkedAt, c.window) {
      var a :| a in t.alerts && a.state == c.result.state && c.result.checkedAt - a.createdAt <= c.window;
      assert a in PgStep(t, c).alerts && NearOrAt(a, c);
    } else {
      assert AlertRow(c.result) in PgStep(t, c).alerts && NearOrAt(AlertRow(c.result), c);
    }
  }

  // What a step adds to the alerts is the alert of its own result, about a degradation, an outage or
  // a recovery, and only with every other alert of that state the window away.
  lemma MemStepAdds(t: Timeline, c: Write, a: Alert)
    requires a in MemStep(t, c).alerts && a !in t.alerts
    ensures IsAlert(a, c.result)
    ensures a.state == Degraded || a.state == Unavailable || (a.state == Healthy && LastState(t.results) != Healthy)
    ensures forall b <- t.alerts | b.state == a.state :: a.createdAt - b.createdAt >= c.window
  {
    assert a == AlertRow(c.result);
  }

  lemma PgStepAdds(t: Timeline, c: Write, a: Alert)
    requires a in PgStep(t, c).alerts && a !in t.alerts
    ensures IsAlert(a, c.result)
    ensures a.state == Degraded || a.state == Unavailable || (a.state == Healthy && NewestState(t.results) != Healthy)
    ensures forall b <- t.alerts | b.state == a.state :: a.createdAt - b.createdAt > c.window
  {
    assert a == AlertRow(c.result);
  }

  // ---- Runs ----

  lemma {:induction false} MemKeeps(writes: seq<Write>, n: nat)
    requires n <= |writes|
    ensures forall a <- MemRun(writes[..n]).alerts :: a in MemRun(writes).alerts
    ensures forall t <- MemRun(writes[..n]).transitions :: t in MemRun(writes).transitions
  {
    if n == |writes| {
      assert writes[..n] == writes;
    } else {
      var before := writes[..|writes| - 1];
      assert before[..n] == writes[..n];
      MemKeeps(before, n);
    }
  }

  lemma {:induction false} PgKeeps(writes: seq<Write>, n: nat)
    requires n <= |writes|
    ensures forall a <- PgRun(writes[..n]).alerts :: a in PgRun(writes).alerts
    ensures forall t <- PgRun(writes[..n]).transitions :: t in PgRun(writes).transitions
  {
    if n == |writes| {
      assert writes[..n] == writes;
    } else {
      var before := writes[..|writes| - 1];
      assert before[..n] == writes[..n];
      PgKeeps(before, n);
    }
  }

  // Every degradation, every outage and every recovery has an alert of its own state in the
  // in-memory store, less than the window older than itself.
  lemma {:induction false} MemAlertFor(writes: seq<Write>, i: nat) returns (a: Alert)
    requires i < |writes|
    requires
      var r := writes[i].result;
      r.state == Degraded || r.state == Unavailable || (r.state == Healthy && MemPrevious(writes, i) != Healthy)
    ensures a in MemRun(writes).alerts && a.state == writes[i].result.state && Near(a, writes[i])
  {
    var t := MemRun(writes[..i]);
    MemPreviousIsLast(writes, i);
    NextRun(writes, i);
    MemStepAlerts(t, writes[i]);
    a :| a in MemStep(t, writes[i]).alerts && a.state == writes[i].result.state && Near(a, writes[i]);
    MemKeeps(writes, i + 1);
  }

  // So it has in the database, where a recovery is one from the newest state by check time.
  lemma {:induction false} PgAlertFor(writes: seq<Write>, i: nat, previous: State) returns (a: Alert)
    requires i < |writes| && PgPrevious(writes, i, previous)
    requires
      var r := writes[i].result;
      r.state == Degraded || r.state == Unavailable || (r.state == Healthy && previous != Healthy)
    ensures a in PgRun(writes).alerts && a.state == writes[i].result.state && NearOrAt(a, writes[i])
  {
    var t := PgRun(writes[..i]);
    PgPreviousIsNewest(writes, i, previous);
    NextRun(writes, i);
    PgStepAlerts(t, writes[i]);
    a :| a in PgStep(t, writes[i]).alerts && a.state == writes[i].result.state && NearOrAt(a, writes[i]);
    PgKeeps(writes, i + 1);
  }

  // Every alert is the alert of a result, which degraded, went down or recovered: none is ever about
  // maintenance or an unknown state.
  lemma {:induction false} MemAlertFrom(writes: seq<Write>, a: Alert) returns (i: nat)
    requires a in MemRun(writes).alerts
    ensures i < |writes| && IsAlert(a, writes[i].result)
    ensures a.state == Degraded || a.state == Unavailable || (a.state == Healthy && MemPrevious(writes, i) != Healthy)
    ensures forall b <- MemRun(writes[..i]).alerts | b.state == a.state :: a.createdAt - b.createdAt >= writes[i].window
  {
    var n := |writes| - 1;
    if a in MemRun(writes[..n]).alerts {
      i := MemAlertFrom(writes[..n], a);
      assert writes[..n][..i] == writes[..i];
    } else {
      i := n;
      MemPreviousIsLast(writes, n);
      MemStepAdds(MemRun(writes[..n]), writes[n], a);
    }
  }

  lemma {:induction false} PgAlertFrom(writes: seq<Write>, a: Alert) returns (i: nat, previous: State)
    requires a in PgRun(writes).alerts
    ensures i < |writes| && IsAlert(a, writes[i].result) && PgPrevious(writes, i, previous)
    ensures a.state == Degraded || a.state == Unavailable || (a.state == Healthy && previous != Healthy)
    ensures forall b <- PgRun(writes[..i]).alerts | b.state == a.state :: a.createdAt - b.createdAt > writes[i].window
  {
    var n := |writes| - 1;
    if a in PgRun(writes[..n]).alerts {
      i, previous := PgAlertFrom(writes[..n], a);
      assert writes[..n][..i] == writes[..i];
      PreviousInPrefix(writes, n, i, previous);
    } else {
      i, previous := n, NewestState(PgRun(writes[..n]).results);
      NewestIsPrevious(writes, n);
      PgStepAdds(PgRun(writes[..n]), writes[n], a);
    }
  }

  lemma PreviousInPrefix(writes: seq<Write>, n: nat, i: nat, previous: State)
    requires i <= n <= |writes| && PgPrevious(writes[..n], i, previous)
    ensures PgPrevious(writes, i, previous)
  {
    if i > 0 {
      var j: nat :| j < i && Newest(writes[..n], i, j) && writes[..n][j].result.state == previous;
      assert forall k | 0 <= k < i :: writes[..n][k] == writes[k];
      assert Newest(writes, i, j);
    }
  }

  lemma {:induction false} NewestIsPrevious(writes: seq<Write>, i: nat)
    requires i <= |writes|
    ensures PgPrevious(writes, i, NewestState(PgRun(writes[..i]).results))
  {
    RunsHoldWritten(writes[..i]);
    if i > 0 {
      var j := NewestWrite(writes, i);
    }
  }

  lemma {:induction false} NewestWrite(writes: seq<Write>, i: nat) returns (j: nat)
    requires 0 < i <= |writes|
    ensures j < i && Newest(writes, i, j) && writes[j].result.state == NewestState(Written(writes[..i]))
  {
    var rows := Written(writes[..i]);
    j := NewestAt(rows);
    forall k | 0 <= k < i
      ensures rows[k] == Bare(writes[k].result)
    {
      assert writes[..i][k] == writes[k];
    }
  }

  // ---- Transitions ----

  // A result whose state is not the previous one is recorded as the change it is, and every
  // transition is such a change.
  lemma {:induction false} MemTransitionFor(writes: seq<Write>, i: nat) returns (t: Transition)
    requires i < |writes| && MemPrevious(writes, i) != writes[i].result.state
    ensures t in MemRun(writes).transitions && IsTransition(t, MemPrevious(writes, i), writes[i].result)
  {
    MemPreviousIsLast(writes, i);
    NextRun(writes, i);
    t := ChangeRow(MemPrevious(writes, i), writes[i].result);
    assert t in MemRun(writes[..i + 1]).transitions;
    MemKeeps(writes, i + 1);
  }

  lemma {:induction false} PgTransitionFor(writes: seq<Write>, i: nat, previous: State) returns (t: Transition)
    requires i < |writes| && PgPrevious(writes, i, previous) && previous != writes[i].result.state
    ensures t in PgRun(writes).transitions && IsTransition(t, previous, writes[i].result)
  {
    PgPreviousIsNewest(writes, i, previous);
    NextRun(writes, i);
    t := ChangeRow(previous, writes[i].result);
    assert t in PgRun(writes[..i + 1]).transitions;
    PgKeeps(writes, i + 1);
  }

  lemma {:induction false} MemTransitionFrom(writes: seq<Write>, t: Transition) returns (i: nat)
    requires t in MemRun(writes).transitions
    ensures i < |writes| && IsTransition(t, MemPrevious(writes, i), writes[i].result) && t.fromState != t.toState
  {
    var n := |writes| - 1;
    if t in MemRun(writes[..n]).transitions {
      i := MemTransitionFrom(writes[..n], t);
    } else {
      i := n;
      MemPreviousIsLast(writes, n);
      assert t == ChangeRow(MemPrevious(writes, n), writes[n].result);
    }
  }

  lemma {:induction false} PgTransitionFrom(writes: seq<Write>, t: Transition) returns (i: nat, previous: State)
    requires t in PgRun(writes).transitions
    ensures i < |writes| && PgPrevious(writes, i, previous)
    ensures IsTransition(t, previous, writes[i].result) && t.fromState != t.toState
  {
    var n := |writes| - 1;
    if t in PgRun(writes[..n]).transitions {
      i, previous := PgTransitionFrom(writes[..n], t);
      PreviousInPrefix(writes, n, i, previous);
    } else {
      i, previous := n, NewestState(PgRun(writes[..n]).results);
      NewestIsPrevious(writes, n);
      assert t == ChangeRow(previous, writes[n].result);
    }
  }

  // ---- The tables themselves ----

  lemma {:induction false} ShareOfAlert(alerts: seq<Alert>, a: Alert)
    requires a in alerts
    ensures a.(id := 0) in AlertsOf(alerts, a.endpointID)
  {
    var n := |alerts| - 1;
    if a in alerts[..n] {
      ShareOfAlert(alerts[..n], a);
    } else {
      assert a == alerts[n];
    }
  }

  lemma {:induction false} AlertOfShare(alerts: seq<Alert>, endpointID: string, bare: Alert) returns (a: Alert)
    requires bare in AlertsOf(alerts, endpointID)
    ensures a in alerts && a.endpointID == endpointID && a.(id := 0) == bare
  {
    var n := |alerts| - 1;
    if bare in AlertsOf(alerts[..n], endpointID) {
      a := AlertOfShare(alerts[..n], endpointID, bare);
    } else {
      a := alerts[n];
    }
  }

  // In every state of the database that transactions can reach, each committed degradation, outage
  // or recovery has an alert row of its own endpoint and state at most the window older.
  lemma {:induction false} TableAlertFor(hash: Pg.Hash, s: Pg.Db, endpointID: string, i: nat, previous: State)
    returns (a: Alert)
    requires Pg.Inv(hash, s) && i < |Committed(s, endpointID)|
    requires PgPrevious(Committed(s, endpointID), i, previous)
    requires
      var r := Committed(s, endpointID)[i].result;
      r.state == Degraded || r.state == Unavailable || (r.state == Healthy && previous != Healthy)
    ensures a in s.alerts && a.endpointID == endpointID
    ensures a.state == Committed(s, endpointID)[i].result.state && NearOrAt(a, Committed(s, endpointID)[i])
  {
    InvHoldsCommits(hash, s, endpointID);
    var bare := PgAlertFor(Committed(s, endpointID), i, previous);
    a := AlertOfShare(s.alerts, endpointID, bare);
  }

  // And each alert row is about a committed degradation, outage or recovery of its endpoint.
  lemma {:induction false} TableAlertFrom(hash: Pg.Hash, s: Pg.Db, a: Alert) returns (i: nat, previous: State)
    requires Pg.Inv(hash, s) && a in s.alerts
    ensures
      var writes := Committed(s, a.endpointID);
      i < |writes| && IsAlert(a, writes[i].result) && PgPrevious(writes, i, previous)
    ensures a.state == Degraded || a.state == Unavailable || (a.state == Healthy && previous != Healthy)
  {
    InvHoldsCommits(hash, s, a.endpointID);
    ShareOfAlert(s.alerts, a);
    i, previous := PgAlertFrom(Committed(s, a.endpointID), a.(id := 0));
  }

  // So it is in the in-memory log after any writes about any endpoints.
  lemma {:induction false} LogAlertFor(writes: seq<Write>, endpointID: string, i: nat) returns (a: Alert)
    requires i < |WritesOf(writes, endpointID)|
    requires
      var own := WritesOf(writes, endpointID);
      var r := own[i].result;
      r.state == Degraded || r.state == Unavailable || (r.state == Healthy && MemPrevious(own, i) != Healthy)
    ensures a in Mem.Replay(writes).alerts && a.endpointID == endpointID
    ensures
      var own := WritesOf(writes, endpointID);
      a.state == own[i].result.state && Near(a, own[i])
  {
    Mem.ReplayIsPerEndpoint(writes, endpointID);
    var bare := MemAlertFor(WritesOf(writes, endpointID), i);
    assert Mem.TimelineOf(Mem.Replay(writes), endpointID).alerts == AlertsOf(Mem.Replay(writes).alerts, endpointID);
    a := AlertOfShare(Mem.Replay(writes).alerts, endpointID, bare);
  }

  lemma {:induction false} LogAlertFrom(writes: seq<Write>, a: Alert) returns (i: nat)
    requires a in Mem.Replay(writes).alerts
    ensures
      var own := WritesOf(writes, a.endpointID);
      && i < |own| && IsAlert(a, own[i].result)
      && (a.state == Degraded || a.state == Unavailable || (a.state == Healthy && MemPrevious(own, i) != Healthy))
  {
    var log := Mem.Replay(writes);
    Mem.ReplayIsPerEndpoint(writes, a.endpointID);
    ShareOfAlert(log.alerts, a);
    assert Mem.TimelineOf(log, a.endpointID).alerts == AlertsOf(log.alerts, a.endpointID);
    i := MemAlertFrom(WritesOf(writes, a.endpointID), a.(id := 0));
  }
}
