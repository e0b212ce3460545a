// The service on the database: the step system of the scheduler and its workers, with each
// result written in a transaction of its own, statement by statement, between the steps of
// everything else.
module Deployment {
  import opened Domain
  import opened Scheduler
  import opened Rows
  import opened Stores
  import opened StoreAgreement
  import opened Timeline
  import opened AnyOrder
  import opened Streaks
  import Alerts
  import Tokens
  import Probes
  import Progress
  import Monitoring
  import Mem = MemoryStore
  import Pg = PostgresStore

  // The service's own log plays the part of a specification: it holds what was committed, in
  // commit order. Nothing reads it but the statements below.
  datatype Deployment = Deployment(service: Service, db: Pg.Db)

  datatype Move =
    | Serve(a: Action)       // a step that does not touch the database
    | Query(q: Pg.Action)    // a statement; a worker's transaction carries the worker's index

  predicate Writing(d: Deployment, w: int) {
    0 <= w < |d.service.workers| && d.service.workers[w].Recording?
  }

  function WriteOf(c: Config, d: Deployment, w: int): Write
    requires Writing(d, w)
  {
    Write(d.service.workers[w].result, c.dedupeWindow)
  }

  predicate QueryAllowed(c: Config, d: Deployment, q: Pg.Action) {
    match q
    case Begin(tid, write) => Writing(d, tid) && write == WriteOf(c, d, tid)
    case Commit(tid) => Writing(d, tid)
    case Abort(tid) => Writing(d, tid)
    case _ => true
  }

  // Only a commit stores; a store fails by the abort of its transaction, or before it began.
  predicate ServeAllowed(d: Deployment, a: Action) {
    a.Worker? ==> a.step != Store && (a.step == StoreFails ==> a.w !in d.db.txns)
  }

  ghost predicate MoveEnabled(c: Config, hash: Pg.Hash, d: Deployment, m: Move) {
    match m
    case Serve(a) => Enabled(c, d.service, a) && ServeAllowed(d, a)
    case Query(q) => Pg.Enabled(hash, d.db, q) && QueryAllowed(c, d, q)
  }

  /** What a move is to the service: a statement in mid-transaction is nothing but time. */
  function ServiceAction(d: Deployment, m: Move): Action {
    match m
    case Serve(a) => a
    case Query(Commit(tid)) => if tid >= 0 then Worker(tid, Store) else Advance(d.service.clock)
    case Query(Abort(tid)) => if tid >= 0 then Worker(tid, StoreFails) else Advance(d.service.clock)
    case Query(_) => Advance(d.service.clock)
  }

  lemma ServiceCanFollow(c: Config, hash: Pg.Hash, d: Deployment, m: Move)
    requires MoveEnabled(c, hash, d, m)
    ensures Enabled(c, d.service, ServiceAction(d, m))
  {}

  ghost function MoveApply(c: Config, hash: Pg.Hash, d: Deployment, m: Move): Deployment
    requires MoveEnabled(c, hash, d, m)
  {
    ServiceCanFollow(c, hash, d, m);
    Deployment(Apply(c, d.service, ServiceAction(d, m)),
               match m
               case Serve(_) => d.db
               case Query(q) => Pg.Apply(hash, d.db, q))
  }

  // ---- Runs ----

  ghost predicate Starts(c: Config, d: Deployment) {
    Init(c, d.service) && d.service.log == Mem.NEW && d.db == Pg.EMPTY_DB
  }

  ghost predicate MoveAt(c: Config, hash: Pg.Hash, states: seq<Deployment>, moves: seq<Move>, i: nat)
    requires i < |moves| < |states|
  {
    MoveEnabled(c, hash, states[i], moves[i]) && states[i + 1] == MoveApply(c, hash, states[i], moves[i])
  }

  ghost predicate IsDeployed(c: Config, hash: Pg.Hash, states: seq<Deployment>, moves: seq<Move>) {
    && |states| == |moves| + 1
    && Starts(c, states[0])
    && forall i | 0 <= i < |moves| :: MoveAt(c, hash, states, moves, i)
  }

  function Services(states: seq<Deployment>): (services: seq<Service>)
    ensures |services| == |states| && forall i | 0 <= i < |states| :: services[i] == states[i].service
  {
    seq(|states|, i requires 0 <= i < |states| => states[i].service)
  }

  function ServiceActions(states: seq<Deployment>, moves: seq<Move>): (actions: seq<Action>)
    requires |moves| <= |states|
    ensures |actions| == |moves| && forall i | 0 <= i < |moves| :: actions[i] == ServiceAction(states[i], moves[i])
  {
    seq(|moves|, i requires 0 <= i < |moves| => ServiceAction(states[i], moves[i]))
  }

  // Seen without its database, a deployment runs as the step system does: everything proved of
  // its runs holds here.
  lemma ServiceRuns(c: Config, hash: Pg.Hash, states: seq<Deployment>, moves: seq<Move>)
    requires IsDeployed(c, hash, states, moves)
    ensures IsRun(c, Services(states), ServiceActions(states, moves))
  {
    var services, actions := Services(states), ServiceActions(states, moves);
    forall i | 0 <= i < |actions|
      ensures StepAt(c, services, actions, i)
    {
      assert MoveAt(c, hash, states, moves, i);
      ServiceCanFollow(c, hash, states[i], moves[i]);
    }
  }

  // ---- The invariant ----

  predicate TxnsFollow(c: Config, d: Deployment) {
    forall tid <- d.db.txns :: Writing(d, tid) && d.db.txns[tid].write == WriteOf(c, d, tid)
  }

  // The database is sound, its transactions are those of writing workers, and its commits are
  // what the log of the service kept.
  ghost predicate Inv(c: Config, hash: Pg.Hash, d: Deployment) {
    && Pg.Inv(hash, d.db)
    && TxnsFollow(c, d)
    && Kept(d.service.handed) == d.db.committed
  }

  lemma MainLeavesWriters(c: Config, s: Service, m: MainStep, w: nat)
    requires MainEnabled(c, s, m) && w < |s.workers| && s.workers[w].Recording?
    ensures w < |MainApply(c, s, m).workers| && MainApply(c, s, m).workers[w] == s.workers[w]
    ensures MainApply(c, s, m).handed == s.handed
  {}

  lemma MainHandsNothing(c: Config, s: Service, m: MainStep)
    requires MainEnabled(c, s, m)
    ensures MainApply(c, s, m).handed == s.handed
  {}

  lemma WorkerLeavesWriters(c: Config, s: Service, v: nat, step: WorkerStep, w: nat)
    requires WorkerEnabled(c, s, v, step) && w < |s.workers| && s.workers[w].Recording?
    requires v != w || (step != Store && step != StoreFails)
    ensures w < |WorkerApply(c, s, v, step).workers| && WorkerApply(c, s, v, step).workers[w] == s.workers[w]
  {
    Tokens.WorkerStepShape(c, s, v, step);
    Progress.StepFollows(c, s, v, step);
  }

  lemma ServeKeepsTxns(c: Config, hash: Pg.Hash, d: Deployment, a: Action, tid: int)
    requires MoveEnabled(c, hash, d, Serve(a)) && TxnsFollow(c, d) && tid in d.db.txns
    ensures
      var after := MoveApply(c, hash, d, Serve(a));
      Writing(after, tid) && after.service.workers[tid] == d.service.workers[tid]
  {
    match a
    case Worker(v, step) => WorkerLeavesWriters(c, d.service, v, step, tid);
    case Main(m) => MainLeavesWriters(c, d.service, m, tid);
    case _ =>
  }

  lemma {:induction false} ServeKeepsCommits(c: Config, hash: Pg.Hash, d: Deployment, a: Action)
    requires MoveEnabled(c, hash, d, Serve(a))
    ensures Kept(MoveApply(c, hash, d, Serve(a)).service.handed) == Kept(d.service.handed)
  {
    match a
    case Worker(w, step) =>
      if step == StoreFails {
        Probes.KeptAfter(d.service.handed, Handed(Write(d.service.workers[w].result, c.dedupeWindow), false));
      } else {
        Probes.OnlyStoreWrites(c, d.service, w, step);
      }
    case Main(m) => MainHandsNothing(c, d.service, m);
    case _ =>
  }

  lemma ServeKeepsInv(c: Config, hash: Pg.Hash, d: Deployment, a: Action)
    requires Inv(c, hash, d) && MoveEnabled(c, hash, d, Serve(a))
    ensures Inv(c, hash, MoveApply(c, hash, d, Serve(a)))
  {
    var after := MoveApply(c, hash, d, Serve(a));
    ServeKeepsCommits(c, hash, d, a);
    forall tid | tid in after.db.txns
      ensures Writing(after, tid) && after.db.txns[tid].write == WriteOf(c, after, tid)
    {
      ServeKeepsTxns(c, hash, d, a, tid);
    }
  }

  // A statement ends at most its own transaction and keeps what every transaction writes.
  lemma QueryKeepsWrites(hash: Pg.Hash, s: Pg.Db, q: Pg.Action, tid: int)
    requires Pg.Enabled(hash, s, q) && tid in Pg.Apply(hash, s, q).txns
    ensures tid in s.txns && !q.Begin? ==> Pg.Apply(hash, s, q).txns[tid].write == s.txns[tid].write
    ensures tid !in s.txns ==> q.Begin? && q.tid == tid && Pg.Apply(hash, s, q).txns[tid].write == q.write
    ensures tid in s.txns && q.Begin? ==> q.tid != tid && Pg.Apply(hash, s, q).txns[tid].write == s.txns[tid].write
    ensures q.Commit? || q.Abort? ==> q.tid != tid
  {}

  lemma EndLeavesWriters(c: Config, s: Service, v: nat, kept: bool, w: nat)
    requires v < |s.workers| && s.workers[v].Recording? && w < |s.workers| && v != w
    ensures
      var step := if kept then Store else StoreFails;
      && WorkerEnabled(c, s, v, step)
      && |WorkerApply(c, s, v, step).workers| == |s.workers|
      && WorkerApply(c, s, v, step).workers[w] == s.workers[w]
  {}

  lemma QueryKeepsTxns(c: Config, hash: Pg.Hash, d: Deployment, q: Pg.Action, tid: int)
    requires MoveEnabled(c, hash, d, Query(q)) && TxnsFollow(c, d)
    requires tid in MoveApply(c, hash, d, Query(q)).db.txns
    ensures
      var after := MoveApply(c, hash, d, Query(q));
      Writing(after, tid) && after.db.txns[tid].write == WriteOf(c, after, tid)
  {
    QueryKeepsWrites(hash, d.db, q, tid);
    match q
    case Commit(v) => EndLeavesWriters(c, d.service, v, true, tid);
    case Abort(v) => EndLeavesWriters(c, d.service, v, false, tid);
    case _ =>
  }

  lemma {:induction false} QueryKeepsCommits(c: Config, hash: Pg.Hash, d: Deployment, q: Pg.Action)
    requires MoveEnabled(c, hash, d, Query(q)) && TxnsFollow(c, d)
    requires Kept(d.service.handed) == d.db.committed
    ensures
      var after := MoveApply(c, hash, d, Query(q));
      Kept(after.service.handed) == after.db.committed
  {
    match q
    case Commit(tid) => CommitKeepsCommits(c, hash, d, tid);
    case Abort(tid) => EndHands(c, d.service, tid, false);
    case _ =>
  }

  lemma {:induction false} CommitKeepsCommits(c: Config, hash: Pg.Hash, d: Deployment, tid: int)
    requires MoveEnabled(c, hash, d, Query(Pg.Commit(tid))) && TxnsFollow(c, d)
    requires Kept(d.service.handed) == d.db.committed
    ensures
      var after := MoveApply(c, hash, d, Query(Pg.Commit(tid)));
      Kept(after.service.handed) == after.db.committed
  {
    EndHands(c, d.service, tid, true);
  }

  lemma {:induction false} EndHands(c: Config, s: Service, w: nat, kept: bool)
    requires w < |s.workers| && s.workers[w].Recording?
    ensures
      var step := if kept then Store else StoreFails;
      var write := Write(s.workers[w].result, c.dedupeWindow);
      && WorkerEnabled(c, s, w, step)
      && Kept(WorkerApply(c, s, w, step).handed) == if kept then Kept(s.handed) + [write] else Kept(s.handed)
  {
    Probes.KeptAfter(s.handed, Handed(Write(s.workers[w].result, c.dedupeWindow), kept));
  }

  lemma QueryKeepsInv(c: Config, hash: Pg.Hash, d: Deployment, q: Pg.Action)
    requires Inv(c, hash, d) && MoveEnabled(c, hash, d, Query(q))
    ensures Inv(c, hash, MoveApply(c, hash, d, Query(q)))
  {
    var after := MoveApply(c, hash, d, Query(q));
    Pg.StepKeepsInv(hash, d.db, q);
    QueryKeepsCommits(c, hash, d, q);
    forall tid | tid in after.db.txns
      ensures Writing(after, tid) && after.db.txns[tid].write == WriteOf(c, after, tid)
    {
      QueryKeepsTxns(c, hash, d, q, tid);
    }
  }

  lemma {:induction false} DeployedKeepsInv(c: Config, hash: Pg.Hash, states: seq<Deployment>, moves: seq<Move>, i: nat)
    requires IsDeployed(c, hash, states, moves) && i < |states|
    ensures Inv(c, hash, states[i])
  {
    if i == 0 {
      Pg.InvInit(hash);
    } else {
      DeployedKeepsInv(c, hash, states, moves, i - 1);
      assert MoveAt(c, hash, states, moves, i - 1);
      match moves[i - 1]
      case Serve(a) => ServeKeepsInv(c, hash, states[i - 1], a);
      case Query(q) => QueryKeepsInv(c, hash, states[i - 1], q);
    }
  }

  // ---- Theorems ----

  // The scheduler never has two transactions open about one endpoint, whatever the lock hash.
  lemma OneTransactionPerEndpoint(c: Config, hash: Pg.Hash, states: seq<Deployment>, moves: seq<Move>, i: nat,
                                  t: int, u: int)
    requires IsDeployed(c, hash, states, moves) && i < |states|
    requires t in states[i].db.txns && u in states[i].db.txns
    requires states[i].db.txns[t].write.result.endpointID == states[i].db.txns[u].write.result.endpointID
    ensures t == u
  {
    var d, services, actions := states[i], Services(states), ServiceActions(states, moves);
    DeployedKeepsInv(c, hash, states, moves, i);
    ServiceRuns(c, hash, states, moves);
    Probes.RunKeepsInv(c, services, actions, i);
    assert Probes.WorkerOk(d.service, d.service.workers[t]) && Probes.WorkerOk(d.service, d.service.workers[u]);
    Tokens.HoldersDiffer(c, d.service, t, u, d.service.workers[t].ep);
  }

  // Its commits come in check-time order per endpoint, all with one window.
  lemma {:induction false} CommitsInOrder(c: Config, hash: Pg.Hash, states: seq<Deployment>, moves: seq<Move>, i: nat,
                                          endpointID: string)
    requires IsDeployed(c, hash, states, moves) && i < |states|
    ensures
      var writes := Committed(states[i].db, endpointID);
      InOrder(writes) && forall w <- writes :: w.window == c.dedupeWindow
  {
    DeployedKeepsInv(c, hash, states, moves, i);
    ServiceRuns(c, hash, states, moves);
    Monitoring.StoredInOrder(c, Services(states), ServiceActions(states, moves), i, endpointID);
  }

  // So in every state of every run, for any lock hash and any aborts, an endpoint's transitions in
  // the database are one chain of changes to its newest state, its alerts of a state are more than
  // the window apart, and its rows are those of the in-memory store exactly when no committed
  // result fell on the dedupe boundary.
  lemma {:induction false} DatabaseIsSound(c: Config, hash: Pg.Hash, states: seq<Deployment>, moves: seq<Move>, i: nat,
                                           endpointID: string)
    requires IsDeployed(c, hash, states, moves) && i < |states|
    ensures
      var db := states[i].db;
      && Chained(Pg.View(db, endpointID).transitions) && LogLeadsToNewest(db, endpointID)
      && SpacedBeyond(Pg.View(db, endpointID).alerts, c.dedupeWindow)
      && RowsAgree(db, endpointID) == !HitsBoundary(Committed(db, endpointID))
  {
    var db := states[i].db;
    DeployedKeepsInv(c, hash, states, moves, i);
    CommitsInOrder(c, hash, states, moves, i, endpointID);
    SameTransitions(hash, db, endpointID);
    SameRowsUnlessBoundary(hash, db, endpointID, c.dedupeWindow);
    AlertsSpaced(hash, db, endpointID, c.dedupeWindow);
  }

  lemma {:induction false} AlertsSpaced(hash: Pg.Hash, db: Pg.Db, endpointID: string, window: Duration)
    requires Pg.Inv(hash, db) && forall w <- Committed(db, endpointID) :: w.window == window
    ensures SpacedBeyond(Pg.View(db, endpointID).alerts, window)
  {
    InvHoldsCommits(hash, db, endpointID);
    PgAlertsAreSeparated(Committed(db, endpointID), window);
  }

  // Over any deployed run, every committed degradation, outage and recovery has an alert row of its
  // endpoint and state, at most the window older, and every alert row is about one of those.
  lemma {:induction false} CommitsAreAlerted(c: Config, hash: Pg.Hash, states: seq<Deployment>, moves: seq<Move>,
                                             i: nat, endpointID: string, k: nat) returns (a: Alert)
    requires IsDeployed(c, hash, states, moves) && i < |states| && k < |Committed(states[i].db, endpointID)|
    requires
      var writes := Committed(states[i].db, endpointID);
      var r := writes[k].result;
      || r.state == Degraded || r.state == Unavailable
      || (r.state == Healthy && (k == 0 || writes[k - 1].result.state != Healthy))
    ensures a in states[i].db.alerts && a.endpointID == endpointID
    ensures
      var r := Committed(states[i].db, endpointID)[k].result;
      && a.state == r.state
      && (r.checkedAt - a.createdAt <= c.dedupeWindow || a.createdAt == r.checkedAt)
  {
    var writes := Committed(states[i].db, endpointID);
    DeployedKeepsInv(c, hash, states, moves, i);
    CommitsInOrder(c, hash, states, moves, i, endpointID);
    assert writes[k] in writes;
    Alerts.PreviousInOrder(writes, k);
    a := Alerts.TableAlertFor(hash, states[i].db, endpointID, k, Alerts.MemPrevious(writes, k));
  }

  lemma {:induction false} AlertsAreOfCommits(c: Config, hash: Pg.Hash, states: seq<Deployment>, moves: seq<Move>,
                                              i: nat, a: Alert) returns (k: nat)
    requires IsDeployed(c, hash, states, moves) && i < |states| && a in states[i].db.alerts
    ensures
      var writes := Committed(states[i].db, a.endpointID);
      && k < |writes| && IsAlert(a, writes[k].result)
      && (|| a.state == Degraded || a.state == Unavailable
          || (a.state == Healthy && (k == 0 || writes[k - 1].result.state != Healthy)))
  {
    var writes := Committed(states[i].db, a.endpointID);
    var previous;
    DeployedKeepsInv(c, hash, states, moves, i);
    CommitsInOrder(c, hash, states, moves, i, a.endpointID);
    k, previous := Alerts.TableAlertFrom(hash, states[i].db, a);
    Alerts.PreviousInOrder(writes, k);
    Alerts.PreviousIsOne(writes, k, previous, Alerts.MemPrevious(writes, k));
  }

  // When a check is skipped, at least as many newest verdicts as open the circuit were Unavailable,
  // and the newest one in the database, Maintenance aside, is Unavailable exactly when one of them
  // was committed or the newest commit before them was.
  lemma {:induction false} SkippedOnlyWhenDown(c: Config, hash: Pg.Hash, states: seq<Deployment>, moves: seq<Move>,
                                               i: nat, w: nat)
    requires IsDeployed(c, hash, states, moves) && i < |states|
    requires w < |states[i].service.workers| && states[i].service.workers[w].Deciding?
    requires !Permitted(c, states[i].service, states[i].service.workers[w].ep, states[i].service.workers[w].now)
    ensures
      var s, e := states[i].service, states[i].service.workers[w].ep;
      && Streak(s.handed, e) >= 1 && Streak(s.handed, e) >= c.threshold
      && (Probes.LastVerdict(ResultsOf(states[i].db.results, e)) == Some(Unavailable)
          <==> OutageShows(s.handed, e, None))
  {
    var d := states[i];
    var e := d.service.workers[w].ep;
    DeployedKeepsInv(c, hash, states, moves, i);
    ServiceRuns(c, hash, states, moves);
    Probes.SkippedOnlyWhenUnavailable(c, Services(states), ServiceActions(states, moves), i, w);
    Probes.LogIsReplayed(c, Services(states), ServiceActions(states, moves), i);
    SameResults(hash, d.db, e);
    BareVerdict(Mem.History(d.service.log, e));
  }

  lemma {:induction false} SameResults(hash: Pg.Hash, db: Pg.Db, endpointID: string)
    requires Pg.Inv(hash, db)
    ensures ResultsOf(db.results, endpointID) == Mem.BareAll(Mem.History(Mem.Replay(db.committed), endpointID))
  {
    InvHoldsCommits(hash, db, endpointID);
    RunsHoldWritten(Committed(db, endpointID));
  }

  lemma {:induction false} BareVerdict(history: seq<CheckResult>)
    ensures Probes.LastVerdict(Mem.BareAll(history)) == Probes.LastVerdict(history)
  {
    if history == [] {
    } else {
      var init, last := history[..|history| - 1], history[|history| - 1];
      BareVerdict(init);
      Mem.BareAllKeeps(init);
      assert Mem.BareAll(history)[..|history| - 1] == Mem.BareAll(init);
    }
  }
}
