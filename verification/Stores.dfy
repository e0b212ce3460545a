// The two stores side by side: a database shared by concurrent writers, and the in-memory
// store given the committed results in commit order.
module Stores {
  import opened Domain
  import opened Timeline
  import opened Rows
  import opened Slo
  import opened StoreAgreement
  import opened AnyOrder
  import Mem = MemoryStore
  import Pg = PostgresStore

  // ---- Commits and prefixes of the committed writes ----

  /** The writes about an endpoint committed so far, in commit order. */
  function Committed(s: Pg.Db, endpointID: string): seq<Write> {
    WritesOf(s.committed, endpointID)
  }

  lemma {:induction false} PrefixRuns(hash: Pg.Hash, actions: seq<Pg.Action>, k: nat)
    requires k <= |actions| && Pg.Execute(hash, actions).Some?
    ensures Pg.Execute(hash, actions[..k]).Some?
    decreases |actions|
  {
    if k == |actions| {
      assert actions[..k] == actions;
    } else {
      var before := actions[..|actions| - 1];
      PrefixRuns(hash, before, k);
      assert before[..k] == actions[..k];
    }
  }

  /** The database after the first `k` actions. */
  function After(hash: Pg.Hash, actions: seq<Pg.Action>, k: nat): Pg.Db
    requires k <= |actions| && Pg.Execute(hash, actions).Some?
  {
    PrefixRuns(hash, actions, k);
    Pg.Execute(hash, actions[..k]).value
  }

  lemma {:induction false} StepCommits(hash: Pg.Hash, s: Pg.Db, a: Pg.Action, endpointID: string)
    requires Pg.Enabled(hash, s, a)
    ensures
      var was, now := Committed(s, endpointID), Committed(Pg.Apply(hash, s, a), endpointID);
      now == was || (|now| == |was| + 1 && now[..|was|] == was)
  {
    match a
    case Commit(tid) => WritesOfSnoc(s.committed, s.txns[tid].write, endpointID);
    case _ =>
  }

  lemma {:induction false} NextState(hash: Pg.Hash, actions: seq<Pg.Action>, k: nat)
    requires k < |actions| && Pg.Execute(hash, actions).Some?
    ensures Pg.Enabled(hash, After(hash, actions, k), actions[k])
    ensures After(hash, actions, k + 1) == Pg.Apply(hash, After(hash, actions, k), actions[k])
  {
    PrefixRuns(hash, actions, k + 1);
    assert actions[..k + 1][..k] == actions[..k];
  }

  // At any moment the committed writes are a prefix of those committed later ...
  lemma {:induction false} CommitsGrowTo(hash: Pg.Hash, actions: seq<Pg.Action>, k: nat, l: nat, endpointID: string)
    requires k <= l <= |actions| && Pg.Execute(hash, actions).Some?
    ensures Committed(After(hash, actions, k), endpointID) <= Committed(After(hash, actions, l), endpointID)
    decreases l
  {
    if k < l {
      CommitsGrowTo(hash, actions, k, l - 1, endpointID);
      NextState(hash, actions, l - 1);
      StepCommits(hash, After(hash, actions, l - 1), actions[l - 1], endpointID);
    }
  }

  lemma {:induction false} CommitsGrow(hash: Pg.Hash, actions: seq<Pg.Action>, k: nat, endpointID: string)
    requires k <= |actions| && Pg.Execute(hash, actions).Some?
    ensures Committed(After(hash, actions, k), endpointID) <= Committed(Pg.Execute(hash, actions).value, endpointID)
  {
    CommitsGrowTo(hash, actions, k, |actions|, endpointID);
    assert actions[..|actions|] == actions;
  }

  // ... and every prefix of those is what was committed at some moment.
  lemma SharedPrefix(was: seq<Write>, now: seq<Write>, n: nat)
    requires now == was || (|now| == |was| + 1 && now[..|was|] == was)
    requires n < |now|
    ensures n <= |was| && was[..n] == now[..n]
  {
    assert now[..n] == now[..|was|][..n];
  }

  lemma {:induction false} CommitsReachTo(hash: Pg.Hash, actions: seq<Pg.Action>, l: nat, n: nat, endpointID: string)
    returns (k: nat)
    requires l <= |actions| && Pg.Execute(hash, actions).Some?
    requires n <= |Committed(After(hash, actions, l), endpointID)|
    ensures k <= l
    ensures Committed(After(hash, actions, k), endpointID) == Committed(After(hash, actions, l), endpointID)[..n]
    decreases l
  {
    var writes := Committed(After(hash, actions, l), endpointID);
    if n == |writes| || l == 0 {
      k := l;
      assert writes[..|writes|] == writes;
    } else {
      var was := Committed(After(hash, actions, l - 1), endpointID);
      NextState(hash, actions, l - 1);
      StepCommits(hash, After(hash, actions, l - 1), actions[l - 1], endpointID);
      SharedPrefix(was, writes, n);
      k := CommitsReachTo(hash, actions, l - 1, n, endpointID);
    }
  }

  lemma {:induction false} CommitsReach(hash: Pg.Hash, actions: seq<Pg.Action>, n: nat, endpointID: string)
    returns (k: nat)
    requires Pg.Execute(hash, actions).Some?
    requires n <= |Committed(Pg.Execute(hash, actions).value, endpointID)|
    ensures k <= |actions|
    ensures Committed(After(hash, actions, k), endpointID)
         == Committed(Pg.Execute(hash, actions).value, endpointID)[..n]
  {
    assert actions[..|actions|] == actions;
    k := CommitsReachTo(hash, actions, |actions|, n, endpointID);
  }

  // ---- Agreement whatever the order of check times ----

  /** What the two stores hold about an endpoint is what the committed writes, in order, leave. */
  predicate HoldsCommits(s: Pg.Db, endpointID: string) {
    && Pg.View(s, endpointID) == PgRun(Committed(s, endpointID))
    && Mem.TimelineOf(Mem.Replay(s.committed), endpointID) == MemRun(Committed(s, endpointID))
    && Pg.PreviousIn(s.results, endpointID) == NewestState(Written(Committed(s, endpointID)))
  }

  lemma {:induction false} InvHoldsCommits(hash: Pg.Hash, s: Pg.Db, endpointID: string)
    requires Pg.Inv(hash, s)
    ensures HoldsCommits(s, endpointID)
  {
    Mem.ReplayIsPerEndpoint(s.committed, endpointID);
    assert Pg.View(s, endpointID) == PgRun(Committed(s, endpointID));
    RunsHoldWritten(Committed(s, endpointID));
    NewestOf(s.results, s.nextResult, endpointID, Committed(s, endpointID));
  }

  lemma {:induction false} NewestOf(rows: seq<CheckResult>, next: int, endpointID: string, writes: seq<Write>)
    requires Pg.ResultIdsAscend(rows, next) && ResultsOf(rows, endpointID) == Written(writes)
    ensures Pg.PreviousIn(rows, endpointID) == NewestState(Written(writes))
    ensures Pg.BareOption(Pg.NewestIn(rows, endpointID)) == NewestRow(Written(writes))
  {
    Pg.NewestInCommitOrder(rows, next, endpointID);
  }

  lemma {:induction false} StateHoldsCommits(hash: Pg.Hash, actions: seq<Pg.Action>, k: nat, endpointID: string)
    requires k <= |actions| && Pg.Execute(hash, actions).Some?
    ensures HoldsCommits(After(hash, actions, k), endpointID)
  {
    PrefixRuns(hash, actions, k);
    Pg.RunKeepsInv(hash, actions[..k]);
    InvHoldsCommits(hash, After(hash, actions, k), endpointID);
  }

  /** Both stores hold the same rows of the endpoint, ids aside. */
  predicate RowsAgree(s: Pg.Db, endpointID: string) {
    Pg.View(s, endpointID) == Mem.TimelineOf(Mem.Replay(s.committed), endpointID)
  }

  predicate TransitionsAgree(s: Pg.Db, endpointID: string) {
    Pg.View(s, endpointID).transitions == Mem.TimelineOf(Mem.Replay(s.committed), endpointID).transitions
  }

  /** The endpoint's newest transition in the database leads to the state its next writer will read. */
  predicate LogLeadsToNewest(s: Pg.Db, endpointID: string) {
    Reached(Pg.View(s, endpointID).transitions) == Pg.PreviousIn(s.results, endpointID)
  }

  lemma {:induction false} RowsAgreeOf(s: Pg.Db, endpointID: string, writes: seq<Write>)
    requires HoldsCommits(s, endpointID) && Committed(s, endpointID) <= writes
    ensures RowsAgree(s, endpointID) == SameRowsAfter(writes, |Committed(s, endpointID)|)
  {
    assert writes[..|Committed(s, endpointID)|] == Committed(s, endpointID);
  }

  lemma {:induction false} TransitionsAgreeOf(s: Pg.Db, endpointID: string, writes: seq<Write>)
    requires HoldsCommits(s, endpointID) && Committed(s, endpointID) <= writes
    ensures TransitionsAgree(s, endpointID) == SameTransitionsAfter(writes, |Committed(s, endpointID)|)
  {
    assert writes[..|Committed(s, endpointID)|] == Committed(s, endpointID);
  }

  lemma {:induction false} LogLeadsToNewestOf(s: Pg.Db, endpointID: string, writes: seq<Write>)
    requires HoldsCommits(s, endpointID) && Committed(s, endpointID) <= writes
    ensures LogLeadsToNewest(s, endpointID) == LeadsToNewest(writes, |Committed(s, endpointID)|)
  {
    assert writes[..|Committed(s, endpointID)|] == Committed(s, endpointID);
  }

  // Under any interleaving of writers and any order of check times, the two stores hold the same
  // rows of an endpoint after every step exactly when each committed write finds the newest
  // result and the last committed one in the same state and is not on the dedupe boundary.
  lemma {:induction false} SameRowsExactly(hash: Pg.Hash, actions: seq<Pg.Action>, endpointID: string)
    requires Pg.Execute(hash, actions).Some?
    ensures
      var writes := Committed(Pg.Execute(hash, actions).value, endpointID);
      (forall k: nat | k <= |actions| :: RowsAgree(After(hash, actions, k), endpointID))
        <==> forall i: nat | i < |writes| :: Ordinary(writes, i)
  {
    var writes := Committed(Pg.Execute(hash, actions).value, endpointID);
    if forall k: nat | k <= |actions| :: RowsAgree(After(hash, actions, k), endpointID) {
      forall n: nat | n <= |writes|
        ensures SameRowsAfter(writes, n)
      {
        var k := CommitsReach(hash, actions, n, endpointID);
        StateHoldsCommits(hash, actions, k, endpointID);
        RowsAgreeOf(After(hash, actions, k), endpointID, writes);
      }
    }
    if forall n: nat | n <= |writes| :: SameRowsAfter(writes, n) {
      forall k: nat | k <= |actions|
        ensures RowsAgree(After(hash, actions, k), endpointID)
      {
        CommitsGrow(hash, actions, k, endpointID);
        StateHoldsCommits(hash, actions, k, endpointID);
        RowsAgreeOf(After(hash, actions, k), endpointID, writes);
      }
    }
    RowsAgreeExactly(writes);
  }

  // Likewise the transition logs alone, where the windows and the boundary do not matter.
  lemma {:induction false} SameTransitionsExactly(hash: Pg.Hash, actions: seq<Pg.Action>, endpointID: string)
    requires Pg.Execute(hash, actions).Some?
    ensures
      var writes := Committed(Pg.Execute(hash, actions).value, endpointID);
      (forall k: nat | k <= |actions| :: TransitionsAgree(After(hash, actions, k), endpointID))
        <==> forall i: nat | i < |writes| :: SamePrevious(writes, i)
  {
    var writes := Committed(Pg.Execute(hash, actions).value, endpointID);
    if forall k: nat | k <= |actions| :: TransitionsAgree(After(hash, actions, k), endpointID) {
      forall n: nat | n <= |writes|
        ensures SameTransitionsAfter(writes, n)
      {
        var k := CommitsReach(hash, actions, n, endpointID);
        StateHoldsCommits(hash, actions, k, endpointID);
        TransitionsAgreeOf(After(hash, actions, k), endpointID, writes);
      }
    }
    if forall n: nat | n <= |writes| :: SameTransitionsAfter(writes, n) {
      forall k: nat | k <= |actions|
        ensures TransitionsAgree(After(hash, actions, k), endpointID)
      {
        CommitsGrow(hash, actions, k, endpointID);
        StateHoldsCommits(hash, actions, k, endpointID);
        TransitionsAgreeOf(After(hash, actions, k), endpointID, writes);
      }
    }
    TransitionsAgreeExactly(writes);
  }

  // The database's transition log of an endpoint leads to its newest state after every step
  // exactly when no committed write was older than the newest row and in another state.
  lemma {:induction false} LogLeadsExactly(hash: Pg.Hash, actions: seq<Pg.Action>, endpointID: string)
    requires Pg.Execute(hash, actions).Some?
    ensures
      var writes := Committed(Pg.Execute(hash, actions).value, endpointID);
      (forall k: nat | k <= |actions| :: LogLeadsToNewest(After(hash, actions, k), endpointID))
        <==> forall i: nat | i < |writes| :: !LateAt(writes, i)
  {
    var writes := Committed(Pg.Execute(hash, actions).value, endpointID);
    if forall k: nat | k <= |actions| :: LogLeadsToNewest(After(hash, actions, k), endpointID) {
      forall n: nat | n <= |writes|
        ensures LeadsToNewest(writes, n)
      {
        var k := CommitsReach(hash, actions, n, endpointID);
        StateHoldsCommits(hash, actions, k, endpointID);
        LogLeadsToNewestOf(After(hash, actions, k), endpointID, writes);
      }
    }
    if forall n: nat | n <= |writes| :: LeadsToNewest(writes, n) {
      forall k: nat | k <= |actions|
        ensures LogLeadsToNewest(After(hash, actions, k), endpointID)
      {
        CommitsGrow(hash, actions, k, endpointID);
        StateHoldsCommits(hash, actions, k, endpointID);
        LogLeadsToNewestOf(After(hash, actions, k), endpointID, writes);
      }
    }
    LeadsToNewestExactly(writes);
  }

  // At any moment that log is a chain exactly when no committed write added a transition while it
  // led elsewhere.
  lemma {:induction false} LogChainedExactly(hash: Pg.Hash, s: Pg.Db, endpointID: string)
    requires Pg.Inv(hash, s)
    ensures
      var writes := Committed(s, endpointID);
      Chained(Pg.View(s, endpointID).transitions) <==> forall i: nat | i < |writes| :: !BreaksChainAt(writes, i)
  {
    InvHoldsCommits(hash, s, endpointID);
    ChainedExactly(Committed(s, endpointID));
  }

  lemma {:induction false} LastIsBare(log: Mem.Log, endpointID: string, writes: seq<Write>)
    requires Mem.TimelineOf(log, endpointID) == MemRun(writes)
    ensures Pg.BareOption(Mem.LastOf(log, endpointID))
         == if writes == [] then None else Some(Written(writes)[|writes| - 1])
  {
    RunsHoldWritten(writes);
    Mem.BareAllKeeps(Mem.History(log, endpointID));
  }

  /** No committed write was checked after the one committed last. */
  predicate LastIsLatest(writes: seq<Write>) {
    forall i | 0 <= i < |writes| :: writes[i].result.checkedAt <= writes[|writes| - 1].result.checkedAt
  }

  lemma {:induction false} LastIsNewest(writes: seq<Write>)
    requires writes != []
    ensures (NewestRow(Written(writes)) == Some(Written(writes)[|writes| - 1])) == LastIsLatest(writes)
  {
    NewestIsLastExactly(Written(writes));
  }

  // The database's newest row of an endpoint is the result the in-memory store keeps last exactly
  // when nothing was checked later than the result committed last.
  lemma {:induction false} LatestAgree(hash: Pg.Hash, s: Pg.Db, endpointID: string)
    requires Pg.Inv(hash, s)
    ensures
      var newest, last := Pg.NewestIn(s.results, endpointID), Mem.LastOf(Mem.Replay(s.committed), endpointID);
      (Pg.BareOption(newest) == Pg.BareOption(last)) == LastIsLatest(Committed(s, endpointID))
  {
    var writes := Committed(s, endpointID);
    InvHoldsCommits(hash, s, endpointID);
    LatestOfRun(s, endpointID, Mem.Replay(s.committed), writes);
  }

  lemma {:induction false} LatestOfRun(s: Pg.Db, endpointID: string, log: Mem.Log, writes: seq<Write>)
    requires Pg.ResultIdsAscend(s.results, s.nextResult) && Pg.View(s, endpointID) == PgRun(writes)
    requires Mem.TimelineOf(log, endpointID) == MemRun(writes)
    ensures
      var newest, last := Pg.NewestIn(s.results, endpointID), Mem.LastOf(log, endpointID);
      (Pg.BareOption(newest) == Pg.BareOption(last)) == LastIsLatest(writes)
  {
    RunsHoldWritten(writes);
    NewestOf(s.results, s.nextResult, endpointID, writes);
    LastIsBare(log, endpointID, writes);
    if writes != [] {
      LastIsNewest(writes);
    }
  }

  // ---- Check times in commit order ----

  // With check times in commit order and one window, the agreement at one moment alone decides:
  // the rows are the same exactly when no committed result falls on the dedupe boundary.
  lemma {:induction false} SameRowsUnlessBoundary(hash: Pg.Hash, s: Pg.Db, endpointID: string, window: Duration)
    requires Pg.Inv(hash, s)
    requires InOrder(Committed(s, endpointID)) && forall c <- Committed(s, endpointID) :: c.window == window
    ensures RowsAgree(s, endpointID) == !HitsBoundary(Committed(s, endpointID))
  {
    InvHoldsCommits(hash, s, endpointID);
    StoresAgreeExactly(Committed(s, endpointID), window);
  }

  // With check times in commit order the transitions are the same without any assumption on
  // windows, and the database's log is an unbroken chain of changes to the newest state.
  lemma {:induction false} SameTransitions(hash: Pg.Hash, s: Pg.Db, endpointID: string)
    requires Pg.Inv(hash, s) && InOrder(Committed(s, endpointID))
    ensures TransitionsAgree(s, endpointID) && LogLeadsToNewest(s, endpointID)
    ensures Chained(Pg.View(s, endpointID).transitions)
  {
    var writes := Committed(s, endpointID);
    InvHoldsCommits(hash, s, endpointID);
    LogsAgree(writes);
    TransitionsChain(writes);
    RunInOrder(writes);
    RunsHoldWritten(writes);
    NewestIsLast(Written(writes));
  }

  // ---- Counting ----

  predicate InWindow(endpointID: string, since: Time, r: CheckResult) {
    r.endpointID == endpointID && r.checkedAt >= since
  }

  function CountsEligible(endpointID: string, since: Time): CheckResult -> bool {
    r => InWindow(endpointID, since, r) && r.state != Maintenance
  }

  function CountsGood(endpointID: string, since: Time): CheckResult -> bool {
    r => InWindow(endpointID, since, r) && (r.state == Healthy || r.state == Degraded)
  }

  function CountsFast(endpointID: string, since: Time, latencyTarget: Duration): CheckResult -> bool {
    r =>
      && InWindow(endpointID, since, r)
      && r.state != Maintenance && r.state != Unavailable && r.latency <= latencyTarget
  }

  /** The filtered counts the database computes over the whole table. */
  function QueryCounts(rows: seq<CheckResult>, endpointID: string, since: Time, latencyTarget: Duration): Counts {
    Counts(Tally(rows, CountsEligible(endpointID, since)),
           Tally(rows, CountsGood(endpointID, since)),
           Tally(rows, CountsFast(endpointID, since, latencyTarget)))
  }

  lemma {:induction false} TallyOfShare(rows: seq<CheckResult>, endpointID: string,
                                        p: CheckResult -> bool, q: CheckResult -> bool)
    requires forall r :: p(r) <==> r.endpointID == endpointID && q(Bare(r))
    ensures Tally(rows, p) == Tally(ResultsOf(rows, endpointID), q)
  {
    if rows == [] {
    } else {
      var init, last := rows[..|rows| - 1], rows[|rows| - 1];
      TallyOfShare(init, endpointID, p, q);
      if last.endpointID == endpointID {
        TallySnoc(ResultsOf(init, endpointID), Bare(last), q);
      } else {
        assert ResultsOf(rows, endpointID) == ResultsOf(init, endpointID);
      }
    }
  }

  lemma {:induction false} QueryCountsShare(rows: seq<CheckResult>, endpointID: string, since: Time,
                                            latencyTarget: Duration)
    ensures QueryCounts(rows, endpointID, since, latencyTarget)
         == CountsSince(ResultsOf(rows, endpointID), since, latencyTarget)
  {
    TallyOfShare(rows, endpointID, CountsEligible(endpointID, since), IsEligible(since));
    TallyOfShare(rows, endpointID, CountsGood(endpointID, since), IsGood(since));
    TallyOfShare(rows, endpointID, CountsFast(endpointID, since, latencyTarget), IsFast(since, latencyTarget));
  }

  function IsRowSeen(endpointID: string, since: Time, state: State, limit: Option<Duration>): CheckResult -> bool {
    (r: CheckResult) =>
      && r.endpointID == endpointID && r.checkedAt >= since && r.state == state
      && (limit.Some? ==> r.latency <= limit.value)
  }

  /** How many rows of one endpoint, in `state` and no older than `since`, took no longer than `limit`. */
  function RowsSeen(rows: seq<CheckResult>, endpointID: string, since: Time, state: State,
                    limit: Option<Duration>): nat {
    Tally(rows, IsRowSeen(endpointID, since, state, limit))
  }

  // What the database counts, by the states of the endpoint's rows.
  lemma {:induction false} QueryCountsByState(rows: seq<CheckResult>, endpointID: string, since: Time,
                                              latencyTarget: Duration)
    ensures
      var c := QueryCounts(rows, endpointID, since, latencyTarget);
      var any, fast := None, Some(latencyTarget);
      && c.eligible == RowsSeen(rows, endpointID, since, Healthy, any)
                     + RowsSeen(rows, endpointID, since, Degraded, any)
                     + RowsSeen(rows, endpointID, since, Unavailable, any)
                     + RowsSeen(rows, endpointID, since, Unknown, any)
      && c.good == RowsSeen(rows, endpointID, since, Healthy, any) + RowsSeen(rows, endpointID, since, Degraded, any)
      && c.latencyGood == RowsSeen(rows, endpointID, since, Healthy, fast)
                        + RowsSeen(rows, endpointID, since, Degraded, fast)
                        + RowsSeen(rows, endpointID, since, Unknown, fast)
  {
    var share := ResultsOf(rows, endpointID);
    QueryCountsShare(rows, endpointID, since, latencyTarget);
    CountsByState(share, since, latencyTarget);
    forall state: State
      ensures RowsSeen(rows, endpointID, since, state, None) == Seen(share, since, state)
      ensures RowsSeen(rows, endpointID, since, state, Some(latencyTarget))
           == SeenWithin(share, since, state, latencyTarget)
    {
      RowsSeenShare(rows, endpointID, since, state, latencyTarget);
    }
  }

  lemma {:induction false} RowsSeenShare(rows: seq<CheckResult>, endpointID: string, since: Time, state: State,
                                         limit: Duration)
    ensures RowsSeen(rows, endpointID, since, state, None) == Seen(ResultsOf(rows, endpointID), since, state)
    ensures RowsSeen(rows, endpointID, since, state, Some(limit))
         == SeenWithin(ResultsOf(rows, endpointID), since, state, limit)
  {
    TallyOfShare(rows, endpointID, IsRowSeen(endpointID, since, state, None), IsSeen(since, state));
    TallyOfShare(rows, endpointID, IsRowSeen(endpointID, since, state, Some(limit)),
                 IsSeenWithin(since, state, limit));
  }

  lemma {:induction false} TallyIgnoresIds(results: seq<CheckResult>, p: CheckResult -> bool)
    requires forall r :: p(r) <==> p(Bare(r))
    ensures Tally(Mem.BareAll(results), p) == Tally(results, p)
  {
    if results == [] {
    } else {
      var init, last := results[..|results| - 1], results[|results| - 1];
      TallyIgnoresIds(init, p);
      TallySnoc(Mem.BareAll(init), Bare(last), p);
    }
  }

  // Whatever the order of check times, both stores count alike for every window and target.
  lemma {:induction false} CountsAgree(hash: Pg.Hash, s: Pg.Db, endpointID: string, since: Time,
                                       latencyTarget: Duration)
    requires Pg.Inv(hash, s)
    ensures QueryCounts(s.results, endpointID, since, latencyTarget)
         == CountsSince(Mem.History(Mem.Replay(s.committed), endpointID), since, latencyTarget)
  {
    var history := Mem.History(Mem.Replay(s.committed), endpointID);
    InvHoldsCommits(hash, s, endpointID);
    RunsHoldWritten(Committed(s, endpointID));
    assert ResultsOf(s.results, endpointID) == Mem.BareAll(history);
    QueryCountsShare(s.results, endpointID, since, latencyTarget);
    TallyIgnoresIds(history, IsEligible(since));
    TallyIgnoresIds(history, IsGood(since));
    TallyIgnoresIds(history, IsFast(since, latencyTarget));
  }

  // ---- Pages of transitions ----

  lemma {:induction false} ShareKeepsOrder(rows: seq<Transition>, endpointID: string, i: nat) returns (k: nat)
    requires i < |rows| && rows[i].endpointID == endpointID
    ensures k < |TransitionsOf(rows, endpointID)|
    ensures TransitionsOf(rows, endpointID)[k] == rows[i].(id := 0)
    ensures k == |TransitionsOf(rows[..i], endpointID)|
  {
    var n := |rows| - 1;
    if i == n {
      k := |TransitionsOf(rows[..n], endpointID)|;
    } else {
      k := ShareKeepsOrder(rows[..n], endpointID, i);
      assert rows[..n][..i] == rows[..i];
    }
  }

  lemma {:induction false} ShareGrows(rows: seq<Transition>, endpointID: string, i: nat, j: nat)
    requires i < j <= |rows| && rows[i].endpointID == endpointID
    ensures |TransitionsOf(rows[..i], endpointID)| < |TransitionsOf(rows[..j], endpointID)|
    decreases j
  {
    assert rows[..j][..j - 1] == rows[..j - 1];
    if i < j - 1 {
      ShareGrows(rows, endpointID, i, j - 1);
    }
  }

  // The database's order (newest change first, ties by id) of an endpoint's transitions is the
  // reverse of their commit order: the order the in-memory store's page lists them in.
  lemma {:induction false} TransitionOrdersAgree(hash: Pg.Hash, actions: seq<Pg.Action>, endpointID: string, i: nat,
                                                 j: nat)
    requires Pg.Execute(hash, actions).Some?
    requires InOrder(WritesOf(Pg.Execute(hash, actions).value.committed, endpointID))
    requires
      var rows := Pg.Execute(hash, actions).value.transitions;
      i < j < |rows| && rows[i].endpointID == endpointID == rows[j].endpointID
    ensures
      var rows := Pg.Execute(hash, actions).value.transitions;
      rows[i].changedAt <= rows[j].changedAt && rows[i].id < rows[j].id
  {
    var s := Pg.Execute(hash, actions).value;
    var writes := WritesOf(s.committed, endpointID);
    Pg.IdOrderIsCommitOrder(hash, actions);
    Pg.Serializable(hash, actions, endpointID);
    LogsAgree(writes);
    TransitionsInOrder(writes);
    var k := ShareKeepsOrder(s.transitions, endpointID, i);
    var l := ShareKeepsOrder(s.transitions, endpointID, j);
    ShareGrows(s.transitions, endpointID, i, j);
    var own := MemRun(writes).transitions;
    assert own[k].changedAt == s.transitions[i].changedAt && own[l].changedAt == s.transitions[j].changedAt;
  }
}
