// The database store: many writers, each recording one result in its own transaction under a
// per-endpoint advisory lock, interleaved statement by statement.
//
// Visibility is read committed: a statement sees the rows committed before it, and those of
// its own transaction. The advisory lock is held to the end of the transaction. The hash that
// turns an endpoint id into a lock number is arbitrary, so different endpoints may share one.
module PostgresStore {
  import opened Domain
  import opened Timeline
  import opened Rows

  type Hash = string -> int

  datatype Phase =
    | Begun
    | Locked
    | HasPrevious(previous: State)
    | WroteResult(previous: State)
    | WroteTransition(previous: State)
    | WroteAlert(previous: State)

  // The optional rows are the transaction's own, uncommitted writes.
  datatype Txn = Txn(
    write: Write,
    phase: Phase,
    result: Option<CheckResult>,
    transition: Option<Transition>,
    alert: Option<Alert>)

  // The three tables hold the committed rows, in commit order; each draws ids from its own
  // sequence, which transactions advance whether or not they commit.
  datatype Db = Db(
    results: seq<CheckResult>,
    transitions: seq<Transition>,
    alerts: seq<Alert>,
    nextResult: int,
    nextTransition: int,
    nextAlert: int,
    locks: map<int, int>,      // lock number to the transaction holding it
    txns: map<int, Txn>,       // transactions in progress
    committed: seq<Write>)      // history: the committed writes, in commit order

  const EMPTY_DB := Db([], [], [], 1, 1, 1, map[], map[], [])

  // ---- Queries ----

  predicate Newer(x: CheckResult, y: CheckResult) {
    x.checkedAt > y.checkedAt || (x.checkedAt == y.checkedAt && x.id > y.id)
  }

  /** ORDER BY checked_at DESC, id DESC LIMIT 1 over the endpoint's rows. */
  function NewestIn(rows: seq<CheckResult>, endpointID: string): Option<CheckResult> {
    if rows == [] then None
    else
      var last := rows[|rows| - 1];
      var best := NewestIn(rows[..|rows| - 1], endpointID);
      if last.endpointID == endpointID && (best.None? || Newer(last, best.value)) then Some(last) else best
  }

  function PreviousIn(rows: seq<CheckResult>, endpointID: string): State {
    match NewestIn(rows, endpointID)
    case None => Unknown
    case Some(row) => row.state
  }

  /** dedupe_key = key AND created_at >= at - window */
  predicate Recent(a: Alert, c: Write) {
    && a.dedupeKey == DedupeKey(c.result.endpointID, c.result.state)
    && a.createdAt >= c.result.checkedAt - c.window
  }

  predicate HasRecent(alerts: seq<Alert>, c: Write) {
    exists a <- alerts :: Recent(a, c)
  }

  // ---- Steps ----

  datatype Action =
    | Begin(tid: int, write: Write)
    | TakeLock(tid: int)
    | ReadPrevious(tid: int)
    | InsertResult(tid: int)
    | InsertTransition(tid: int)
    | InsertAlert(tid: int)
    | Commit(tid: int)
    | Abort(tid: int)
    | SkipIds(results: nat, transitions: nat, alerts: nat)  // ids lost to failed statements

  function LockOf(hash: Hash, t: Txn): int {
    hash(t.write.result.endpointID)
  }

  predicate Enabled(hash: Hash, s: Db, a: Action) {
    match a
    case Begin(tid, _) => tid !in s.txns
    case TakeLock(tid) => tid in s.txns && s.txns[tid].phase == Begun && LockOf(hash, s.txns[tid]) !in s.locks
    case ReadPrevious(tid) => tid in s.txns && s.txns[tid].phase == Locked
    case InsertResult(tid) => tid in s.txns && s.txns[tid].phase.HasPrevious?
    case InsertTransition(tid) => tid in s.txns && s.txns[tid].phase.WroteResult?
    case InsertAlert(tid) => tid in s.txns && s.txns[tid].phase.WroteTransition?
    case Commit(tid) => tid in s.txns && s.txns[tid].phase.WroteAlert?
    case Abort(tid) => tid in s.txns
    case SkipIds(_, _, _) => true
  }

  /** The end of a transaction: its lock, if it holds one, is free again. */
  function Finish(hash: Hash, s: Db, tid: int): Db
    requires tid in s.txns
  {
    var t := s.txns[tid];
    s.(locks := if t.phase == Begun then s.locks else s.locks - {LockOf(hash, t)}, txns := s.txns - {tid})
  }

  function Apply(hash: Hash, s: Db, a: Action): Db
    requires Enabled(hash, s, a)
  {
    match a
    case Begin(tid, write) =>
      s.(txns := s.txns[tid := Txn(write, Begun, None, None, None)])
    case TakeLock(tid) =>
      var t := s.txns[tid];
      s.(locks := s.locks[LockOf(hash, t) := tid], txns := s.txns[tid := t.(phase := Locked)])
    case ReadPrevious(tid) =>
      var t := s.txns[tid];
      var previous := PreviousIn(s.results + ToSeq(t.result), t.write.result.endpointID);
      s.(txns := s.txns[tid := t.(phase := HasPrevious(previous))])
    case InsertResult(tid) =>
      var t := s.txns[tid];
      var row := t.write.result.(id := s.nextResult);
      s.(nextResult := s.nextResult + 1,
         txns := s.txns[tid := t.(phase := WroteResult(t.phase.previous), result := Some(row))])
    case InsertTransition(tid) =>
      var t := s.txns[tid];
      var previous := t.phase.previous;
      var next := t.(phase := WroteTransition(previous));
      if previous == t.write.result.state then s.(txns := s.txns[tid := next])
      else
        var row := ChangeRow(previous, t.write.result).(id := s.nextTransition);
        s.(nextTransition := s.nextTransition + 1, txns := s.txns[tid := next.(transition := Some(row))])
    case InsertAlert(tid) =>
      var t := s.txns[tid];
      var previous := t.phase.previous;
      var next := t.(phase := WroteAlert(previous));
      if !AlertWorthy(previous, t.write.result.state) || HasRecent(s.alerts + ToSeq(t.alert), t.write)
      then s.(txns := s.txns[tid := next])
      else
        var row := AlertRow(t.write.result).(id := s.nextAlert);
        s.(nextAlert := s.nextAlert + 1, txns := s.txns[tid := next.(alert := Some(row))])
    case Commit(tid) =>
      var t := s.txns[tid];
      Finish(hash, s, tid).(
        results := s.results + ToSeq(t.result),
        transitions := s.transitions + ToSeq(t.transition),
        alerts := s.alerts + ToSeq(t.alert),
        committed := s.committed + [t.write])
    case Abort(tid) =>
      Finish(hash, s, tid)
    case SkipIds(r, t, a) =>
      s.(nextResult := s.nextResult + r, nextTransition := s.nextTransition + t, nextAlert := s.nextAlert + a)
  }

  // ---- What the newest-row query means ----

  // It returns one of the endpoint's rows, and none of the others is newer.
  lemma {:induction false} NewestInIsTop(rows: seq<CheckResult>, endpointID: string)
    ensures NewestIn(rows, endpointID).None? <==> forall r <- rows :: r.endpointID != endpointID
    ensures NewestIn(rows, endpointID).Some? ==>
      var top := NewestIn(rows, endpointID).value;
      && top in rows && top.endpointID == endpointID
      && forall r <- rows | r.endpointID == endpointID :: !Newer(r, top)
  {
    if rows == [] {
    } else {
      NewestInIsTop(rows[..|rows| - 1], endpointID);
      assert rows == rows[..|rows| - 1] + [rows[|rows| - 1]];
    }
  }

  // ---- Ids ----

  // Within one endpoint, ids grow along the table; every id is below the sequence.
  predicate ResultIdsAscend(rows: seq<CheckResult>, next: int) {
    && (forall i | 0 <= i < |rows| :: rows[i].id < next)
    && (forall i, j | 0 <= i < j < |rows| && rows[i].endpointID == rows[j].endpointID :: rows[i].id < rows[j].id)
  }

  predicate TransitionIdsAscend(rows: seq<Transition>, next: int) {
    && (forall i | 0 <= i < |rows| :: rows[i].id < next)
    && (forall i, j | 0 <= i < j < |rows| && rows[i].endpointID == rows[j].endpointID :: rows[i].id < rows[j].id)
  }

  predicate AlertIdsAscend(rows: seq<Alert>, next: int) {
    && (forall i | 0 <= i < |rows| :: rows[i].id < next)
    && (forall i, j | 0 <= i < j < |rows| && rows[i].endpointID == rows[j].endpointID :: rows[i].id < rows[j].id)
  }

  function BareOption(o: Option<CheckResult>): Option<CheckResult> {
    match o
    case None => None
    case Some(r) => Some(Bare(r))
  }

  // With ids growing in commit order, the id tie-break is the commit order.
  lemma {:induction false} NewestInCommitOrder(rows: seq<CheckResult>, next: int, endpointID: string)
    requires ResultIdsAscend(rows, next)
    ensures NewestRow(ResultsOf(rows, endpointID)) == BareOption(NewestIn(rows, endpointID))
  {
    if rows == [] {
    } else {
      var init, last := rows[..|rows| - 1], rows[|rows| - 1];
      NewestInCommitOrder(init, next, endpointID);
      NewestInIsTop(init, endpointID);
      if last.endpointID == endpointID {
        var own := ResultsOf(rows, endpointID);
        assert own[..|own| - 1] == ResultsOf(init, endpointID);
        if NewestIn(init, endpointID).Some? {
          var i :| 0 <= i < |init| && init[i] == NewestIn(init, endpointID).value;
          assert rows[i].id < last.id;
        }
      } else {
        assert ResultsOf(rows, endpointID) == ResultsOf(init, endpointID);
      }
    }
  }

  // ---- The invariant ----

  function View(s: Db, endpointID: string): Timeline {
    Timeline(ResultsOf(s.results, endpointID),
             TransitionsOf(s.transitions, endpointID),
             AlertsOf(s.alerts, endpointID))
  }

  predicate OwnsLock(hash: Hash, s: Db, tid: int)
    requires tid in s.txns
  {
    var lock := LockOf(hash, s.txns[tid]);
    lock in s.locks && s.locks[lock] == tid
  }

  /** The transition row this write needs, ids aside. */
  function WantedTransition(c: Write, previous: State): Option<Transition> {
    if previous != c.result.state then Some(ChangeRow(previous, c.result)) else None
  }

  function WantedAlert(c: Write, previous: State, alerts: seq<Alert>): Option<Alert> {
    var r := c.result;
    if AlertWorthy(previous, r.state) && !TooSoonOrAt(alerts, r.state, r.checkedAt, c.window)
    then Some(AlertRow(r)) else None
  }

  predicate ResultPending(s: Db, t: Txn) {
    && t.result.Some?
    && Bare(t.result.value) == Bare(t.write.result)
    && t.result.value.id < s.nextResult
    && forall r <- s.results | r.endpointID == t.write.result.endpointID :: r.id < t.result.value.id
  }

  predicate TransitionPending(s: Db, t: Txn, previous: State) {
    match t.transition
    case None => WantedTransition(t.write, previous) == None
    case Some(row) =>
      && WantedTransition(t.write, previous) == Some(row.(id := 0))
      && row.id < s.nextTransition
      && forall r <- s.transitions | r.endpointID == t.write.result.endpointID :: r.id < row.id
  }

  predicate AlertPending(s: Db, t: Txn, previous: State) {
    var own := AlertsOf(s.alerts, t.write.result.endpointID);
    match t.alert
    case None => WantedAlert(t.write, previous, own) == None
    case Some(row) =>
      && WantedAlert(t.write, previous, own) == Some(row.(id := 0))
      && row.id < s.nextAlert
      && forall r <- s.alerts | r.endpointID == t.write.result.endpointID :: r.id < row.id
  }

  /** What a transaction holding its lock knows about the committed rows of its endpoint. */
  predicate Progress(s: Db, t: Txn) {
    match t.phase
    case Begun => t.result == None && t.transition == None && t.alert == None
    case Locked => t.result == None && t.transition == None && t.alert == None
    case HasPrevious(p) =>
      t.result == None && t.transition == None && t.alert == None
      && p == NewestState(View(s, t.write.result.endpointID).results)
    case WroteResult(p) =>
      t.transition == None && t.alert == None
      && p == NewestState(View(s, t.write.result.endpointID).results)
      && ResultPending(s, t)
    case WroteTransition(p) =>
      t.alert == None
      && p == NewestState(View(s, t.write.result.endpointID).results)
      && ResultPending(s, t) && TransitionPending(s, t, p)
    case WroteAlert(p) =>
      && p == NewestState(View(s, t.write.result.endpointID).results)
      && ResultPending(s, t) && TransitionPending(s, t, p) && AlertPending(s, t, p)
  }

  predicate TxnInv(hash: Hash, s: Db, tid: int)
    requires tid in s.txns
  {
    && (s.txns[tid].phase != Begun ==> OwnsLock(hash, s, tid))
    && Progress(s, s.txns[tid])
  }

  predicate LocksInv(hash: Hash, s: Db) {
    forall lock <- s.locks ::
      && s.locks[lock] in s.txns
      && s.txns[s.locks[lock]].phase != Begun
      && LockOf(hash, s.txns[s.locks[lock]]) == lock
  }

  predicate TablesInv(s: Db) {
    && KeysMatch(s.alerts)
    && ResultIdsAscend(s.results, s.nextResult)
    && TransitionIdsAscend(s.transitions, s.nextTransition)
    && AlertIdsAscend(s.alerts, s.nextAlert)
  }

  ghost predicate Serial(s: Db) {
    forall e :: View(s, e) == PgRun(WritesOf(s.committed, e))
  }

  ghost predicate Inv(hash: Hash, s: Db) {
    && (forall tid <- s.txns :: TxnInv(hash, s, tid))
    && LocksInv(hash, s)
    && TablesInv(s)
    && Serial(s)
  }

  lemma InvInit(hash: Hash)
    ensures Inv(hash, EMPTY_DB)
  {}

  // ---- Each step keeps the invariant ----

  // A step that adds nothing to the tables and only advances sequences does not disturb a
  // transaction it does not touch.
  lemma ProgressUndisturbed(s: Db, after: Db, t: Txn)
    requires after.results == s.results && after.transitions == s.transitions && after.alerts == s.alerts
    requires after.nextResult >= s.nextResult && after.nextTransition >= s.nextTransition
    requires after.nextAlert >= s.nextAlert
    requires Progress(s, t)
    ensures Progress(after, t)
  {
    assert View(after, t.write.result.endpointID) == View(s, t.write.result.endpointID);
  }

  predicate SameTables(s: Db, after: Db) {
    && after.results == s.results && after.transitions == s.transitions && after.alerts == s.alerts
    && after.nextResult >= s.nextResult && after.nextTransition >= s.nextTransition
    && after.nextAlert >= s.nextAlert
    && after.committed == s.committed
  }

  lemma TablesKept(s: Db, after: Db)
    requires SameTables(s, after) && TablesInv(s) && Serial(s)
    ensures TablesInv(after) && Serial(after)
  {
    forall e
      ensures View(after, e) == PgRun(WritesOf(after.committed, e))
    {
      assert View(s, e) == View(after, e);
    }
  }

  /** A step of `tid` inside its transaction: it writes only its own entry and, to take it, the lock. */
  predicate Statement(hash: Hash, s: Db, after: Db, tid: int) {
    && SameTables(s, after)
    && tid in s.txns && tid in after.txns && after.txns == s.txns[tid := after.txns[tid]]
    && after.txns[tid].write == s.txns[tid].write && after.txns[tid].phase != Begun
    && if s.txns[tid].phase == Begun then
         LockOf(hash, s.txns[tid]) !in s.locks && after.locks == s.locks[LockOf(hash, s.txns[tid]) := tid]
       else
         after.locks == s.locks
  }

  lemma StepIsStatement(hash: Hash, s: Db, a: Action)
    requires Enabled(hash, s, a)
    requires a.TakeLock? || a.ReadPrevious? || a.InsertResult? || a.InsertTransition? || a.InsertAlert?
    ensures Statement(hash, s, Apply(hash, s, a), a.tid)
  {}

  lemma OthersUndisturbed(hash: Hash, s: Db, after: Db, tid: int, u: int)
    requires Statement(hash, s, after, tid) && u in s.txns && u != tid && TxnInv(hash, s, u)
    ensures TxnInv(hash, after, u)
  {
    ProgressUndisturbed(s, after, s.txns[u]);
  }

  lemma StatementKeepsLocks(hash: Hash, s: Db, after: Db, tid: int)
    requires Statement(hash, s, after, tid) && LocksInv(hash, s)
    ensures LocksInv(hash, after)
  {}

  lemma StatementKeepsInv(hash: Hash, s: Db, after: Db, tid: int)
    requires Inv(hash, s) && Statement(hash, s, after, tid) && Progress(after, after.txns[tid])
    ensures Inv(hash, after)
  {
    TablesKept(s, after);
    StatementKeepsLocks(hash, s, after, tid);
    assert TxnInv(hash, s, tid);
    forall u | u in after.txns
      ensures TxnInv(hash, after, u)
    {
      if u != tid {
        assert TxnInv(hash, s, u);
        OthersUndisturbed(hash, s, after, tid, u);
      }
    }
  }

  lemma ReadPreviousKeepsInv(hash: Hash, s: Db, tid: int)
    requires Inv(hash, s) && Enabled(hash, s, ReadPrevious(tid))
    ensures Inv(hash, Apply(hash, s, ReadPrevious(tid)))
  {
    var after, t := Apply(hash, s, ReadPrevious(tid)), s.txns[tid];
    assert TxnInv(hash, s, tid);
    assert s.results + ToSeq(t.result) == s.results;
    NewestInCommitOrder(s.results, s.nextResult, t.write.result.endpointID);
    StepIsStatement(hash, s, ReadPrevious(tid));
    StatementKeepsInv(hash, s, after, tid);
  }

  lemma InsertResultKeepsInv(hash: Hash, s: Db, tid: int)
    requires Inv(hash, s) && Enabled(hash, s, InsertResult(tid))
    ensures Inv(hash, Apply(hash, s, InsertResult(tid)))
  {
    var after := Apply(hash, s, InsertResult(tid));
    assert TxnInv(hash, s, tid);
    assert View(after, s.txns[tid].write.result.endpointID) == View(s, s.txns[tid].write.result.endpointID);
    StepIsStatement(hash, s, InsertResult(tid));
    StatementKeepsInv(hash, s, after, tid);
  }

  lemma InsertTransitionKeepsInv(hash: Hash, s: Db, tid: int)
    requires Inv(hash, s) && Enabled(hash, s, InsertTransition(tid))
    ensures Inv(hash, Apply(hash, s, InsertTransition(tid)))
  {
    var after := Apply(hash, s, InsertTransition(tid));
    assert TxnInv(hash, s, tid);
    TransitionIsPending(hash, s, tid);
    StepIsStatement(hash, s, InsertTransition(tid));
    StatementKeepsInv(hash, s, after, tid);
  }

  lemma TransitionIsPending(hash: Hash, s: Db, tid: int)
    requires Enabled(hash, s, InsertTransition(tid)) && Progress(s, s.txns[tid])
    requires TransitionIdsAscend(s.transitions, s.nextTransition)
    ensures
      var after := Apply(hash, s, InsertTransition(tid));
      Progress(after, after.txns[tid])
  {
    ProgressUndisturbed(s, Apply(hash, s, InsertTransition(tid)), s.txns[tid]);
  }

  // The conditional insert looks by key, in all endpoints' alerts; it finds what a look at the
  // endpoint's own alerts would.
  lemma {:induction false} RecentIsTooSoon(alerts: seq<Alert>, c: Write)
    requires KeysMatch(alerts)
    ensures HasRecent(alerts, c)
       <==> TooSoonOrAt(AlertsOf(alerts, c.result.endpointID), c.result.state, c.result.checkedAt, c.window)
  {
    var r := c.result;
    var own := AlertsOf(alerts, r.endpointID);
    if a :| a in alerts && Recent(a, c) {
      KeyFindsOwnAlerts(alerts, r.endpointID, r.state, a.createdAt);
    }
    if a :| a in own && a.state == r.state && r.checkedAt - a.createdAt <= c.window {
      KeyFindsOwnAlerts(alerts, r.endpointID, r.state, a.createdAt);
      var b :| b in alerts && b.dedupeKey == DedupeKey(r.endpointID, r.state) && b.createdAt == a.createdAt;
      assert Recent(b, c);
    }
  }

  lemma InsertAlertKeepsInv(hash: Hash, s: Db, tid: int)
    requires Inv(hash, s) && Enabled(hash, s, InsertAlert(tid))
    ensures Inv(hash, Apply(hash, s, InsertAlert(tid)))
  {
    var after := Apply(hash, s, InsertAlert(tid));
    assert TxnInv(hash, s, tid);
    AlertIsPending(hash, s, tid);
    StepIsStatement(hash, s, InsertAlert(tid));
    StatementKeepsInv(hash, s, after, tid);
  }

  lemma AlertIsPending(hash: Hash, s: Db, tid: int)
    requires Enabled(hash, s, InsertAlert(tid)) && Progress(s, s.txns[tid])
    requires AlertIdsAscend(s.alerts, s.nextAlert) && KeysMatch(s.alerts)
    ensures
      var after := Apply(hash, s, InsertAlert(tid));
      Progress(after, after.txns[tid])
  {
    var t := s.txns[tid];
    assert s.alerts + ToSeq(t.alert) == s.alerts;
    RecentIsTooSoon(s.alerts, t.write);
    ProgressUndisturbed(s, Apply(hash, s, InsertAlert(tid)), t);
  }

  // Two transactions past their lock statement are about different endpoints.
  lemma LocksSeparate(hash: Hash, s: Db, t: int, u: int)
    requires t in s.txns && u in s.txns && t != u
    requires s.txns[t].phase != Begun && s.txns[u].phase != Begun
    requires OwnsLock(hash, s, t) && OwnsLock(hash, s, u)
    ensures s.txns[t].write.result.endpointID != s.txns[u].write.result.endpointID
  {}

  lemma FinishKeepsLocks(hash: Hash, s: Db, tid: int)
    requires tid in s.txns && LocksInv(hash, s) && TxnInv(hash, s, tid)
    ensures LocksInv(hash, Finish(hash, s, tid))
    ensures forall u <- s.txns | u != tid && s.txns[u].phase != Begun && OwnsLock(hash, s, u) ::
      u in Finish(hash, s, tid).txns && OwnsLock(hash, Finish(hash, s, tid), u)
  {}

  lemma AbortKeepsInv(hash: Hash, s: Db, tid: int)
    requires Inv(hash, s) && Enabled(hash, s, Abort(tid))
    ensures Inv(hash, Apply(hash, s, Abort(tid)))
  {
    var after := Apply(hash, s, Abort(tid));
    assert TxnInv(hash, s, tid);
    FinishKeepsLocks(hash, s, tid);
    TablesKept(s, after);
    forall u | u in after.txns
      ensures TxnInv(hash, after, u)
    {
      assert TxnInv(hash, s, u);
      ProgressUndisturbed(s, after, s.txns[u]);
    }
  }

  // ---- Commit ----

  lemma {:induction false} CommittedResults(s: Db, t: Txn, e: string)
    requires ResultPending(s, t)
    ensures ResultsOf(s.results + ToSeq(t.result), e)
         == ResultsOf(s.results, e) + if t.write.result.endpointID == e then [Bare(t.write.result)] else []
  {
    ResultsOfSnoc(s.results, t.result.value, e);
    assert t.result.value.endpointID == Bare(t.result.value).endpointID;
  }

  lemma {:induction false} CommittedTransitions(s: Db, t: Txn, previous: State, e: string)
    requires TransitionPending(s, t, previous)
    ensures
      var r := t.write.result;
      TransitionsOf(s.transitions + ToSeq(t.transition), e)
        == TransitionsOf(s.transitions, e)
           + if r.endpointID == e && previous != r.state then [ChangeRow(previous, r)] else []
  {
    TransitionsOfMore(s.transitions, t.transition, t.write.result.endpointID, e);
  }

  lemma {:induction false} CommittedAlerts(s: Db, t: Txn, previous: State, e: string)
    requires AlertPending(s, t, previous)
    ensures
      var r := t.write.result;
      AlertsOf(s.alerts + ToSeq(t.alert), e)
        == AlertsOf(s.alerts, e)
           + if r.endpointID == e && WantedAlert(t.write, previous, AlertsOf(s.alerts, e)).Some?
             then [AlertRow(r)] else []
  {
    AlertsOfMore(s.alerts, t.alert, t.write.result.endpointID, e);
  }

  lemma CommittedView(hash: Hash, s: Db, tid: int, e: string)
    requires Inv(hash, s) && Enabled(hash, s, Commit(tid))
    ensures
      var c, after := s.txns[tid].write, Apply(hash, s, Commit(tid));
      View(after, e) == if c.result.endpointID == e then PgStep(View(s, e), c) else View(s, e)
  {
    var t := s.txns[tid];
    assert TxnInv(hash, s, tid);
    CommittedResults(s, t, e);
    CommittedTransitions(s, t, t.phase.previous, e);
    CommittedAlerts(s, t, t.phase.previous, e);
    ExtendsView(View(s, e), View(Apply(hash, s, Commit(tid)), e), t.write, e);
  }

  /** The rows of a transaction ready to commit, in plain terms, after a newest row in state `previous`. */
  predicate PlainRows(alerts: seq<Alert>, t: Txn, previous: State) {
    var r := t.write.result;
    && t.result.Some? && t.result.value == r.(id := t.result.value.id)
    && (t.transition.Some? <==> previous != r.state)
    && (t.transition.Some? ==> IsTransition(t.transition.value, previous, r))
    && (t.alert.Some? <==>
          && (r.state == Degraded || r.state == Unavailable || (r.state == Healthy && previous != Healthy))
          && forall a <- alerts | a.dedupeKey == r.endpointID + ":" + r.state.Name() ::
               r.checkedAt - a.createdAt > t.write.window)
    && (t.alert.Some? ==> IsAlert(t.alert.value, r))
  }

  lemma PendingIsPlain(s: Db, t: Txn, previous: State)
    requires KeysMatch(s.alerts)
    requires ResultPending(s, t) && TransitionPending(s, t, previous) && AlertPending(s, t, previous)
    ensures PlainRows(s.alerts, t, previous)
  {
    RecentIsTooSoon(s.alerts, t.write);
    SameButId(t.result.value, t.write.result);
    assert forall a <- s.alerts ::
      Recent(a, t.write) <==> a.dedupeKey == DedupeKey(t.write.result.endpointID, t.write.result.state)
                              && t.write.result.checkedAt - a.createdAt <= t.write.window;
  }

  lemma SameButId(row: CheckResult, r: CheckResult)
    requires Bare(row) == Bare(r)
    ensures row == r.(id := row.id)
  {
    assert row == Bare(row).(id := row.id);
  }

  // A commit adds the result, its transition if the endpoint's newest row was in another state, and
  // its alert if it degraded, went down or recovered and no alert with its key is as young as the
  // window.
  lemma CommitIsPlain(hash: Hash, s: Db, tid: int)
    requires Inv(hash, s) && Enabled(hash, s, Commit(tid))
    ensures
      var t, after := s.txns[tid], Apply(hash, s, Commit(tid));
      && after.results == s.results + ToSeq(t.result)
      && after.transitions == s.transitions + ToSeq(t.transition)
      && after.alerts == s.alerts + ToSeq(t.alert)
      && PlainRows(s.alerts, t, PreviousIn(s.results, t.write.result.endpointID))
  {
    var t := s.txns[tid];
    assert TxnInv(hash, s, tid);
    NewestInCommitOrder(s.results, s.nextResult, t.write.result.endpointID);
    PendingIsPlain(s, t, t.phase.previous);
  }

  lemma ExtendsView(before: Timeline, after: Timeline, c: Write, e: string)
    requires
      var r, previous := c.result, NewestState(before.results);
      && after.results == before.results + (if r.endpointID == e then [Bare(r)] else [])
      && after.transitions == before.transitions
           + (if r.endpointID == e && previous != r.state then [ChangeRow(previous, r)] else [])
      && after.alerts == before.alerts
           + (if r.endpointID == e && WantedAlert(c, previous, before.alerts).Some? then [AlertRow(r)] else [])
    ensures after == if c.result.endpointID == e then PgStep(before, c) else before
  {}

  lemma CommitKeepsSerial(hash: Hash, s: Db, tid: int)
    requires Inv(hash, s) && Enabled(hash, s, Commit(tid))
    ensures Serial(Apply(hash, s, Commit(tid)))
  {
    var c, after := s.txns[tid].write, Apply(hash, s, Commit(tid));
    forall e
      ensures View(after, e) == PgRun(WritesOf(after.committed, e))
    {
      CommittedView(hash, s, tid, e);
      assert View(s, e) == PgRun(WritesOf(s.committed, e));
      WritesOfSnoc(s.committed, c, e);
      var before, now := WritesOf(s.committed, e), WritesOf(after.committed, e);
      if c.result.endpointID == e {
        assert now[..|now| - 1] == before;
      } else {
        assert now == before;
      }
    }
  }

  lemma ResultIdsGrow(s: Db, t: Txn)
    requires ResultIdsAscend(s.results, s.nextResult) && ResultPending(s, t)
    ensures ResultIdsAscend(s.results + ToSeq(t.result), s.nextResult)
  {
    assert Bare(t.result.value).endpointID == t.write.result.endpointID;
    assert forall i | 0 <= i < |s.results| :: s.results[i] in s.results;
  }

  lemma TransitionIdsGrow(s: Db, t: Txn, previous: State)
    requires TransitionIdsAscend(s.transitions, s.nextTransition) && TransitionPending(s, t, previous)
    ensures TransitionIdsAscend(s.transitions + ToSeq(t.transition), s.nextTransition)
  {
    assert forall i | 0 <= i < |s.transitions| :: s.transitions[i] in s.transitions;
  }

  lemma AlertIdsGrow(s: Db, t: Txn, previous: State)
    requires AlertIdsAscend(s.alerts, s.nextAlert) && KeysMatch(s.alerts) && AlertPending(s, t, previous)
    ensures AlertIdsAscend(s.alerts + ToSeq(t.alert), s.nextAlert)
    ensures KeysMatch(s.alerts + ToSeq(t.alert))
  {
    assert forall i | 0 <= i < |s.alerts| :: s.alerts[i] in s.alerts;
  }

  lemma CommitKeepsTables(hash: Hash, s: Db, tid: int)
    requires Inv(hash, s) && Enabled(hash, s, Commit(tid))
    ensures TablesInv(Apply(hash, s, Commit(tid)))
  {
    assert TxnInv(hash, s, tid);
    var t := s.txns[tid];
    ResultIdsGrow(s, t);
    TransitionIdsGrow(s, t, t.phase.previous);
    AlertIdsGrow(s, t, t.phase.previous);
  }

  lemma ProgressElsewhere(s: Db, after: Db, t: Txn, owner: string)
    requires Progress(s, t) && t.write.result.endpointID != owner
    requires View(after, t.write.result.endpointID) == View(s, t.write.result.endpointID)
    requires after.nextResult == s.nextResult && after.nextTransition == s.nextTransition
    requires after.nextAlert == s.nextAlert
    requires forall r <- after.results :: r in s.results || r.endpointID == owner
    requires forall r <- after.transitions :: r in s.transitions || r.endpointID == owner
    requires forall r <- after.alerts :: r in s.alerts || r.endpointID == owner
    ensures Progress(after, t)
  {}

  lemma CommittedRows(hash: Hash, s: Db, tid: int)
    requires Enabled(hash, s, Commit(tid)) && Progress(s, s.txns[tid])
    ensures
      var after, owner := Apply(hash, s, Commit(tid)), s.txns[tid].write.result.endpointID;
      && (forall r <- after.results :: r in s.results || r.endpointID == owner)
      && (forall r <- after.transitions :: r in s.transitions || r.endpointID == owner)
      && (forall r <- after.alerts :: r in s.alerts || r.endpointID == owner)
  {
    var t := s.txns[tid];
    assert Bare(t.result.value).endpointID == t.write.result.endpointID;
  }

  lemma CommitSparesOthers(hash: Hash, s: Db, tid: int, u: int)
    requires Inv(hash, s) && Enabled(hash, s, Commit(tid)) && u in s.txns && u != tid
    requires s.txns[u].phase != Begun
    ensures Progress(Apply(hash, s, Commit(tid)), s.txns[u])
  {
    var t := s.txns[tid];
    assert TxnInv(hash, s, tid) && TxnInv(hash, s, u);
    LocksSeparate(hash, s, tid, u);
    CommittedView(hash, s, tid, s.txns[u].write.result.endpointID);
    CommittedRows(hash, s, tid);
    ProgressElsewhere(s, Apply(hash, s, Commit(tid)), s.txns[u], t.write.result.endpointID);
  }

  lemma CommitKeepsInv(hash: Hash, s: Db, tid: int)
    requires Inv(hash, s) && Enabled(hash, s, Commit(tid))
    ensures Inv(hash, Apply(hash, s, Commit(tid)))
  {
    var after := Apply(hash, s, Commit(tid));
    assert TxnInv(hash, s, tid);
    FinishKeepsLocks(hash, s, tid);
    CommitKeepsTables(hash, s, tid);
    CommitKeepsSerial(hash, s, tid);
    forall u | u in after.txns
      ensures TxnInv(hash, after, u)
    {
      assert TxnInv(hash, s, u);
      if s.txns[u].phase != Begun {
        CommitSparesOthers(hash, s, tid, u);
      }
    }
  }

  lemma BeginKeepsInv(hash: Hash, s: Db, tid: int, write: Write)
    requires Inv(hash, s) && Enabled(hash, s, Begin(tid, write))
    ensures Inv(hash, Apply(hash, s, Begin(tid, write)))
  {
    var after := Apply(hash, s, Begin(tid, write));
    TablesKept(s, after);
    forall u | u in after.txns
      ensures TxnInv(hash, after, u)
    {
      if u != tid {
        assert TxnInv(hash, s, u);
        ProgressUndisturbed(s, after, s.txns[u]);
      }
    }
  }

  lemma StepKeepsInv(hash: Hash, s: Db, a: Action)
    requires Inv(hash, s) && Enabled(hash, s, a)
    ensures Inv(hash, Apply(hash, s, a))
  {
    match a
    case Begin(tid, write) => BeginKeepsInv(hash, s, tid, write);
    case TakeLock(tid) =>
      var after := Apply(hash, s, a);
      assert TxnInv(hash, s, tid);
      StepIsStatement(hash, s, TakeLock(tid));
      StatementKeepsInv(hash, s, after, tid);
    case ReadPrevious(tid) => ReadPreviousKeepsInv(hash, s, tid);
    case InsertResult(tid) => InsertResultKeepsInv(hash, s, tid);
    case InsertTransition(tid) => InsertTransitionKeepsInv(hash, s, tid);
    case InsertAlert(tid) => InsertAlertKeepsInv(hash, s, tid);
    case Commit(tid) => CommitKeepsInv(hash, s, tid);
    case Abort(tid) => AbortKeepsInv(hash, s, tid);
    case SkipIds(_, _, _) =>
      var after := Apply(hash, s, a);
      TablesKept(s, after);
      forall u | u in after.txns
        ensures TxnInv(hash, after, u)
      {
        assert TxnInv(hash, s, u);
        ProgressUndisturbed(s, after, s.txns[u]);
      }
  }

  // ---- Over whole runs ----

  /** The database after a sequence of steps from empty tables; None if some step was not possible. */
  function Execute(hash: Hash, actions: seq<Action>): Option<Db> {
    if actions == [] then Some(EMPTY_DB)
    else
      match Execute(hash, actions[..|actions| - 1])
      case None => None
      case Some(s) =>
        var a := actions[|actions| - 1];
        if Enabled(hash, s, a) then Some(Apply(hash, s, a)) else None
  }

  lemma {:induction false} RunKeepsInv(hash: Hash, actions: seq<Action>)
    requires Execute(hash, actions).Some?
    ensures Inv(hash, Execute(hash, actions).value)
  {
    if actions == [] {
      InvInit(hash);
    } else {
      var before := actions[..|actions| - 1];
      RunKeepsInv(hash, before);
      StepKeepsInv(hash, Execute(hash, before).value, actions[|actions| - 1]);
    }
  }

  // Serializability. After any interleaving of any number of writers, with any of them aborted
  // anywhere and any lock hash, the committed rows of an endpoint are those of its committed
  // writes made one at a time in commit order.
  lemma {:induction false} Serializable(hash: Hash, actions: seq<Action>, endpointID: string)
    requires Execute(hash, actions).Some?
    ensures
      var s := Execute(hash, actions).value;
      View(s, endpointID) == PgRun(WritesOf(s.committed, endpointID))
  {
    RunKeepsInv(hash, actions);
  }

  // Every committed write left exactly one result row, and no other result row exists.
  lemma {:induction false} OneResultPerCommit(hash: Hash, actions: seq<Action>, endpointID: string)
    requires Execute(hash, actions).Some?
    ensures
      var s := Execute(hash, actions).value;
      var own, writes := ResultsOf(s.results, endpointID), WritesOf(s.committed, endpointID);
      |own| == |writes| && forall i | 0 <= i < |own| :: own[i] == Bare(writes[i].result)
  {
    RunKeepsInv(hash, actions);
    var s := Execute(hash, actions).value;
    assert View(s, endpointID) == PgRun(WritesOf(s.committed, endpointID));
    RunRecordsWrites(WritesOf(s.committed, endpointID));
  }

  // Per endpoint, the order of ids in every table is the order of commits.
  lemma {:induction false} IdOrderIsCommitOrder(hash: Hash, actions: seq<Action>)
    requires Execute(hash, actions).Some?
    ensures
      var s := Execute(hash, actions).value;
      && ResultIdsAscend(s.results, s.nextResult)
      && TransitionIdsAscend(s.transitions, s.nextTransition)
      && AlertIdsAscend(s.alerts, s.nextAlert)
  {
    RunKeepsInv(hash, actions);
  }

  predicate Advances(a: Action) {
    a.TakeLock? || a.ReadPrevious? || a.InsertResult? || a.InsertTransition? || a.InsertAlert? || a.Commit?
  }

  // Writers never deadlock: while a transaction is in progress, some transaction can take its
  // next statement without anything being aborted.
  lemma SomeoneAdvances(hash: Hash, s: Db, waiting: int) returns (a: Action)
    requires Inv(hash, s) && waiting in s.txns
    ensures Enabled(hash, s, a) && Advances(a)
  {
    var tid, lock := waiting, LockOf(hash, s.txns[waiting]);
    if s.txns[tid].phase == Begun && lock in s.locks {
      tid := s.locks[lock];
    }
    a := match s.txns[tid].phase
      case Begun => TakeLock(tid)
      case Locked => ReadPrevious(tid)
      case HasPrevious(_) => InsertResult(tid)
      case WroteResult(_) => InsertTransition(tid)
      case WroteTransition(_) => InsertAlert(tid)
      case WroteAlert(_) => Commit(tid);
  }

  lemma NoDeadlock(hash: Hash, actions: seq<Action>) returns (a: Action)
    requires Execute(hash, actions).Some?
    requires exists tid :: tid in Execute(hash, actions).value.txns
    ensures Enabled(hash, Execute(hash, actions).value, a) && Advances(a)
  {
    RunKeepsInv(hash, actions);
    var s := Execute(hash, actions).value;
    var tid :| tid in s.txns;
    a := SomeoneAdvances(hash, s, tid);
  }
}
