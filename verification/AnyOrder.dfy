// The two stores on results written in any order of check times: exactly when they agree, and
// exactly when the database's transition log leads to its newest state.
module AnyOrder {
  import opened Domain
  import opened Timeline
  import opened StoreAgreement

  /** The result rows both stores hold after these writes, ids aside. */
  function Written(writes: seq<Write>): (rows: seq<CheckResult>)
    ensures |rows| == |writes|
    ensures forall i | 0 <= i < |writes| :: rows[i] == Bare(writes[i].result)
  {
    if writes == [] then [] else Written(writes[..|writes| - 1]) + [Bare(writes[|writes| - 1].result)]
  }

  lemma {:induction false} RunsHoldWritten(writes: seq<Write>)
    ensures MemRun(writes).results == PgRun(writes).results == Written(writes)
  {
    RunRecordsWrites(writes);
  }

  /** Before write `i`, the newest result by check time and the one written last are in one state. */
  predicate SamePrevious(writes: seq<Write>, i: nat)
    requires i < |writes|
  {
    NewestState(Written(writes[..i])) == LastState(Written(writes[..i]))
  }

  lemma NextRun(writes: seq<Write>, n: nat)
    requires n < |writes|
    ensures MemRun(writes[..n + 1]) == MemStep(MemRun(writes[..n]), writes[n])
    ensures PgRun(writes[..n + 1]) == PgStep(PgRun(writes[..n]), writes[n])
  {
    assert writes[..n + 1][..n] == writes[..n];
  }

  // If every step from a state with `kept` keeps it exactly when `good`, then `kept` holds
  // throughout exactly when every step is good.
  lemma {:induction false} Throughout(kept: nat -> bool, good: nat -> bool, m: nat)
    requires kept(0)
    requires forall n: nat | n < m && kept(n) :: kept(n + 1) <==> good(n)
    ensures (forall n: nat | n <= m :: kept(n)) <==> forall i: nat | i < m :: good(i)
  {
    if m == 0 {
    } else {
      Throughout(kept, good, m - 1);
      assert kept(m - 1) ==> (kept(m - 1 + 1) <==> good(m - 1));
    }
  }

  // ---- Transitions ----

  predicate SameTransitionsAfter(writes: seq<Write>, n: nat)
    requires n <= |writes|
  {
    MemRun(writes[..n]).transitions == PgRun(writes[..n]).transitions
  }

  // Whatever the check times and windows, the transition logs are the same after every write
  // exactly when before every write the newest result and the last one are in the same state.
  lemma TransitionsAgreeExactly(writes: seq<Write>)
    ensures (forall n: nat | n <= |writes| :: SameTransitionsAfter(writes, n))
       <==> forall i: nat | i < |writes| :: SamePrevious(writes, i)
  {
    assert writes[..0] == [];
    forall n: nat | n < |writes| && SameTransitionsAfter(writes, n)
      ensures SameTransitionsAfter(writes, n + 1) <==> SamePrevious(writes, n)
    {
      TransitionsNext(writes, n);
    }
    var kept := (n: nat) => n <= |writes| && SameTransitionsAfter(writes, n);
    var good := (i: nat) => i < |writes| && SamePrevious(writes, i);
    Throughout(kept, good, |writes|);
    assert forall n: nat | n <= |writes| :: kept(n) == SameTransitionsAfter(writes, n);
    assert forall i: nat | i < |writes| :: good(i) == SamePrevious(writes, i);
  }

  lemma TransitionsNext(writes: seq<Write>, n: nat)
    requires n < |writes| && SameTransitionsAfter(writes, n)
    ensures SameTransitionsAfter(writes, n + 1) <==> SamePrevious(writes, n)
  {
    NextRun(writes, n);
    RunsHoldWritten(writes[..n]);
    TransitionStepsAgree(MemRun(writes[..n]), PgRun(writes[..n]), writes[n]);
  }

  // ---- Whole timelines ----

  predicate SameRowsAfter(writes: seq<Write>, n: nat)
    requires n <= |writes|
  {
    MemRun(writes[..n]) == PgRun(writes[..n])
  }

  /** Write `i` finds the previous states alike and is not on the dedupe boundary. */
  predicate Ordinary(writes: seq<Write>, i: nat)
    requires i < |writes|
  {
    SamePrevious(writes, i) && !BoundaryAt(writes, i)
  }

  // Whatever the check times and windows, the stores hold the same rows after every write exactly
  // when that holds of previous states and no result falls on the dedupe boundary.
  lemma RowsAgreeExactly(writes: seq<Write>)
    ensures (forall n: nat | n <= |writes| :: SameRowsAfter(writes, n))
       <==> forall i: nat | i < |writes| :: Ordinary(writes, i)
  {
    assert writes[..0] == [];
    forall n: nat | n < |writes| && SameRowsAfter(writes, n)
      ensures SameRowsAfter(writes, n + 1) <==> Ordinary(writes, n)
    {
      RowsNext(writes, n);
    }
    var kept := (n: nat) => n <= |writes| && SameRowsAfter(writes, n);
    var good := (i: nat) => i < |writes| && Ordinary(writes, i);
    Throughout(kept, good, |writes|);
    assert forall n: nat | n <= |writes| :: kept(n) == SameRowsAfter(writes, n);
    assert forall i: nat | i < |writes| :: good(i) == Ordinary(writes, i);
  }

  lemma RowsNext(writes: seq<Write>, n: nat)
    requires n < |writes| && SameRowsAfter(writes, n)
    ensures SameRowsAfter(writes, n + 1) <==> Ordinary(writes, n)
  {
    NextRun(writes, n);
    RunsHoldWritten(writes[..n]);
    StepsAgree(MemRun(writes[..n]), writes[n]);
  }

  // ---- The database's log and its newest state ----

  /** A result older than the newest one on record, and in another state. */
  predicate LateChange(rows: seq<CheckResult>, r: CheckResult) {
    NewestRow(rows).Some? && r.checkedAt < NewestRow(rows).value.checkedAt && r.state != NewestState(rows)
  }

  // Recording a result keeps the log leading to the newest state exactly when it is no late change.
  lemma StepLeadsToNewest(t: Timeline, c: Write)
    requires Reached(t.transitions) == NewestState(t.results)
    ensures Reached(PgStep(t, c).transitions) == NewestState(PgStep(t, c).results) <==> !LateChange(t.results, c.result)
  {
    var r := c.result;
    var after := PgStep(t, c);
    assert after.results[..|after.results| - 1] == t.results;
    assert Reached(after.transitions) == r.state;
  }

  predicate LeadsToNewest(writes: seq<Write>, n: nat)
    requires n <= |writes|
  {
    Reached(PgRun(writes[..n]).transitions) == NewestState(Written(writes[..n]))
  }

  predicate LateAt(writes: seq<Write>, i: nat)
    requires i < |writes|
  {
    LateChange(Written(writes[..i]), writes[i].result)
  }

  // The database's transition log leads to the newest state after every write exactly when no
  // write is a late change.
  lemma LeadsToNewestExactly(writes: seq<Write>)
    ensures (forall n: nat | n <= |writes| :: LeadsToNewest(writes, n))
       <==> forall i: nat | i < |writes| :: !LateAt(writes, i)
  {
    LeadsThroughout(writes, |writes|);
  }

  lemma LeadsThroughout(writes: seq<Write>, m: nat)
    requires m <= |writes|
    ensures (forall n: nat | n <= m :: LeadsToNewest(writes, n)) <==> forall i: nat | i < m :: !LateAt(writes, i)
  {
    assert writes[..0] == [];
    forall n: nat | n < m && LeadsToNewest(writes, n)
      ensures LeadsToNewest(writes, n + 1) <==> !LateAt(writes, n)
    {
      LeadsNext(writes, n);
    }
    var kept := (n: nat) => n <= m && LeadsToNewest(writes, n);
    var good := (i: nat) => i < m && !LateAt(writes, i);
    Throughout(kept, good, m);
    assert forall n: nat | n <= m :: kept(n) == LeadsToNewest(writes, n);
    assert forall i: nat | i < m :: good(i) == !LateAt(writes, i);
  }

  lemma LeadsNext(writes: seq<Write>, n: nat)
    requires n < |writes| && LeadsToNewest(writes, n)
    ensures LeadsToNewest(writes, n + 1) <==> !LateAt(writes, n)
  {
    NextRun(writes, n);
    RunsHoldWritten(writes[..n]);
    RunsHoldWritten(writes[..n + 1]);
    StepLeadsToNewest(PgRun(writes[..n]), writes[n]);
  }

  // ... and then it is a chain: each transition starts where the one before it ended.
  lemma {:induction false} ChainedUnlessLate(writes: seq<Write>, m: nat)
    requires m <= |writes| && forall i: nat | i < m :: !LateAt(writes, i)
    ensures Chained(PgRun(writes[..m]).transitions)
  {
    if m == 0 {
      assert writes[..0] == [];
    } else {
      ChainedUnlessLate(writes, m - 1);
      LeadsThroughout(writes, m - 1);
      NextRun(writes, m - 1);
      RunsHoldWritten(writes[..m - 1]);
      assert LeadsToNewest(writes, m - 1);
      ChainGrows(PgRun(writes[..m - 1]), writes[m - 1]);
    }
  }

  /** The write adds a transition while the log does not lead to the newest state. */
  predicate BreaksChain(t: Timeline, r: CheckResult) {
    NewestState(t.results) != r.state && Reached(t.transitions) != NewestState(t.results)
  }

  lemma ChainGrowsExactly(t: Timeline, c: Write)
    ensures Chained(PgStep(t, c).transitions) <==> Chained(t.transitions) && !BreaksChain(t, c.result)
  {
    var was, now := t.transitions, PgStep(t, c).transitions;
    assert forall k | 0 <= k <= |was| :: now[..k] == was[..k];
    assert was[..|was|] == was;
    if Chained(now) {
      assert forall k | 0 <= k < |was| :: was[k] == now[k];
    }
  }

  predicate BreaksChainAt(writes: seq<Write>, i: nat)
    requires i < |writes|
  {
    BreaksChain(PgRun(writes[..i]), writes[i].result)
  }

  predicate ChainedAfter(writes: seq<Write>, n: nat)
    requires n <= |writes|
  {
    Chained(PgRun(writes[..n]).transitions)
  }

  lemma NothingChained(writes: seq<Write>)
    ensures ChainedAfter(writes, 0)
  {
    assert writes[..0] == [];
  }

  lemma ChainedNext(writes: seq<Write>, n: nat)
    requires n < |writes|
    ensures ChainedAfter(writes, n + 1) == (ChainedAfter(writes, n) && !BreaksChainAt(writes, n))
  {
    NextRun(writes, n);
    ChainGrowsExactly(PgRun(writes[..n]), writes[n]);
  }

  predicate NoBreakBefore(writes: seq<Write>, m: nat)
    requires m <= |writes|
  {
    forall i: nat | i < m :: !BreaksChainAt(writes, i)
  }

  lemma NoBreakNext(writes: seq<Write>, n: nat)
    requires n < |writes|
    ensures NoBreakBefore(writes, n + 1) == (NoBreakBefore(writes, n) && !BreaksChainAt(writes, n))
  {}

  lemma {:induction false} ChainedUpTo(writes: seq<Write>, m: nat)
    requires m <= |writes|
    ensures ChainedAfter(writes, m) == NoBreakBefore(writes, m)
  {
    if m == 0 {
      NothingChained(writes);
    } else {
      ChainedUpTo(writes, m - 1);
      ChainedNext(writes, m - 1);
      NoBreakNext(writes, m - 1);
    }
  }

  // Each transition of the database's log starts where the one before it ended exactly when no
  // write adds one while the log leads elsewhere than to the newest state.
  lemma {:induction false} ChainedExactly(writes: seq<Write>)
    ensures Chained(PgRun(writes).transitions) <==> forall i: nat | i < |writes| :: !BreaksChainAt(writes, i)
  {
    ChainedUpTo(writes, |writes|);
    assert writes[..|writes|] == writes;
  }

  lemma ChainGrows(t: Timeline, c: Write)
    requires Chained(t.transitions) && Reached(t.transitions) == NewestState(t.results)
    ensures Chained(PgStep(t, c).transitions)
  {
    var was, now := t.transitions, PgStep(t, c).transitions;
    assert forall k | 0 <= k <= |was| :: now[..k] == was[..k];
    assert was[..|was|] == was;
  }

  // The newest row is the one written last exactly when nothing written was checked later.
  lemma {:induction false} NewestIsLastExactly(rows: seq<CheckResult>)
    requires rows != []
    ensures NewestRow(rows) == Some(rows[|rows| - 1])
       <==> forall i | 0 <= i < |rows| :: rows[i].checkedAt <= rows[|rows| - 1].checkedAt
  {
    var n := |rows| - 1;
    NewestIsGreatest(rows);
    NewestIsGreatest(rows[..n]);
    assert forall i | 0 <= i < n :: rows[..n][i] == rows[i];
  }

  lemma {:induction false} NewestIsGreatest(rows: seq<CheckResult>)
    ensures NewestRow(rows).None? <==> rows == []
    ensures rows != [] ==>
      && NewestRow(rows).value in rows
      && forall i | 0 <= i < |rows| :: rows[i].checkedAt <= NewestRow(rows).value.checkedAt
  {
    if rows == [] {
    } else {
      var n := |rows| - 1;
      NewestIsGreatest(rows[..n]);
      assert rows == rows[..n] + [rows[n]];
    }
  }

  // ---- A run on which the stores part without any boundary ----

  function LateRecovery(window: Duration): seq<Write> {
    [Write(Sample(Healthy, 5), window), Write(Sample(Unavailable, 3), window),
     Write(Sample(Healthy, 6 + window), window)]
  }

  function AfterOutage(window: Duration): Timeline {
    var up, down := Sample(Healthy, 5), Sample(Unavailable, 3);
    Timeline([up, down], [ChangeRow(Unknown, up), ChangeRow(Healthy, down)], [AlertRow(up), AlertRow(down)])
  }

  lemma FirstStep(r: CheckResult, window: Duration)
    requires r.state == Healthy && r == Bare(r)
    ensures MemStep(EMPTY, Write(r, window)) == PgStep(EMPTY, Write(r, window))
         == Timeline([r], [ChangeRow(Unknown, r)], [AlertRow(r)])
  {}

  lemma SecondStep(up: CheckResult, down: CheckResult, window: Duration)
    requires up.state == Healthy && down.state == Unavailable && down == Bare(down)
    ensures
      var t := Timeline([up], [ChangeRow(Unknown, up)], [AlertRow(up)]);
      MemStep(t, Write(down, window)) == PgStep(t, Write(down, window))
        == Timeline([up, down], [ChangeRow(Unknown, up), ChangeRow(Healthy, down)], [AlertRow(up), AlertRow(down)])
  {
    assert NewestRow([up]) == Some(up);
  }

  lemma LateRecoveryRuns(window: Duration)
    ensures
      var writes, up := LateRecovery(window), Sample(Healthy, 5);
      && MemRun(writes[..0]) == EMPTY
      && MemRun(writes[..1]) == PgRun(writes[..1]) == Timeline([up], [ChangeRow(Unknown, up)], [AlertRow(up)])
      && MemRun(writes[..2]) == PgRun(writes[..2]) == AfterOutage(window)
  {
    var writes := LateRecovery(window);
    assert writes[..0] == [];
    NextRun(writes, 0);
    NextRun(writes, 1);
    FirstStep(writes[0].result, window);
    SecondStep(writes[0].result, writes[1].result, window);
  }

  lemma LateRecoveryOffBoundary(window: Duration)
    requires 0 < window
    ensures !HitsBoundary(LateRecovery(window))
  {
    var writes := LateRecovery(window);
    LateRecoveryRuns(window);
    forall i: nat | i < 3
      ensures !BoundaryAt(writes, i)
    {
      SampleIsClear(window, i);
    }
  }

  lemma SampleIsClear(window: Duration, i: nat)
    requires 0 < window && i < 3
    ensures
      var up := Sample(Healthy, 5);
      var t := if i == 0 then EMPTY
               else if i == 1 then Timeline([up], [ChangeRow(Unknown, up)], [AlertRow(up)])
               else AfterOutage(window);
      !OnBoundary(t, LateRecovery(window)[i])
  {
    var up := Sample(Healthy, 5);
    ClearOfAlerts(EMPTY, LateRecovery(window)[0]);
    ClearOfAlerts(Timeline([up], [ChangeRow(Unknown, up)], [AlertRow(up)]), LateRecovery(window)[1]);
    ClearOfAlerts(AfterOutage(window), LateRecovery(window)[2]);
  }

  lemma ClearOfAlerts(t: Timeline, c: Write)
    requires forall a <- t.alerts :: a.state != c.result.state || c.result.checkedAt - a.createdAt != c.window
    ensures !OnBoundary(t, c)
  {}

  // An outage older than the recovery it is written after: the in-memory store sees it end, the
  // database never does.
  lemma LateChangeParts(window: Duration)
    requires 0 < window
    ensures
      var writes := LateRecovery(window);
      && LateAt(writes, 1) && !LeadsToNewest(writes, 2)
      && !SamePrevious(writes, 2) && !SameTransitionsAfter(writes, 3)
      && !HitsBoundary(writes)
  {
    var writes := LateRecovery(window);
    LateRecoveryRuns(window);
    LateRecoveryOffBoundary(window);
    NewestOfSample(writes[0].result, writes[1].result);
    RunsHoldWritten(writes[..1]);
    RunsHoldWritten(writes[..2]);
    TransitionsNext(writes, 2);
  }

  lemma NewestOfSample(first: CheckResult, second: CheckResult)
    requires second.checkedAt < first.checkedAt
    ensures NewestRow([first]) == NewestRow([first, second]) == Some(first)
  {
    assert [first, second][..1] == [first];
  }
}
