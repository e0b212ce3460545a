// Termination and progress of the service on the database: statements count as work, too.
module DeployedProgress {
  import opened Domain
  import opened Scheduler
  import opened Deployment
  import Tokens
  import Loop
  import Progress
  import Pg = PostgresStore

  // ---- A measure every worker step and every statement lowers ----

  function PhaseLeft(p: Pg.Phase): nat {
    match p
    case Begun => 6
    case Locked => 5
    case HasPrevious(_) => 4
    case WroteResult(_) => 3
    case WroteTransition(_) => 2
    case WroteAlert(_) => 1
  }

  /** Statements a worker has still to make before its result is stored. */
  function StatementsLeft(p: Phase, w: int, txns: map<int, Pg.Txn>): nat {
    if !p.Recording? then 0
    else if w in txns then PhaseLeft(txns[w].phase)
    else 7
  }

  function AllLeft(workers: seq<Phase>, txns: map<int, Pg.Txn>): nat {
    if workers == [] then 0
    else
      var n := |workers| - 1;
      AllLeft(workers[..n], txns) + StatementsLeft(workers[n], n, txns)
  }

  function Effort(d: Deployment): nat {
    8 * Progress.Work(d.service) + AllLeft(d.service.workers, d.db.txns)
  }

  /** Only worker `w` and its transaction differ. */
  ghost predicate OnlyAt(workers: seq<Phase>, txns: map<int, Pg.Txn>, w: nat,
                         workers': seq<Phase>, txns': map<int, Pg.Txn>) {
    && w < |workers| == |workers'|
    && (forall v | 0 <= v < |workers| && v != w :: workers'[v] == workers[v])
    && (forall v: int | v != w :: v in txns' <==> v in txns)
    && (forall v <- txns | v != w :: txns'[v] == txns[v])
  }

  lemma {:induction false} LeftElsewhere(workers: seq<Phase>, txns: map<int, Pg.Txn>,
                                         workers': seq<Phase>, txns': map<int, Pg.Txn>)
    requires |workers| == |workers'|
    requires forall v | 0 <= v < |workers| ::
      StatementsLeft(workers'[v], v, txns') == StatementsLeft(workers[v], v, txns)
    ensures AllLeft(workers', txns') == AllLeft(workers, txns)
  {
    if workers == [] {
    } else {
      var n := |workers| - 1;
      LeftElsewhere(workers[..n], txns, workers'[..n], txns');
    }
  }

  lemma {:induction false} LeftAfterMove(workers: seq<Phase>, txns: map<int, Pg.Txn>, w: nat,
                                         workers': seq<Phase>, txns': map<int, Pg.Txn>)
    requires OnlyAt(workers, txns, w, workers', txns')
    ensures AllLeft(workers', txns') + StatementsLeft(workers[w], w, txns)
         == AllLeft(workers, txns) + StatementsLeft(workers'[w], w, txns')
  {
    var n := |workers| - 1;
    if w == n {
      LeftElsewhere(workers[..n], txns, workers'[..n], txns');
    } else {
      LeftAfterMove(workers[..n], txns, w, workers'[..n], txns');
    }
  }

  /** A worker's step or a statement; ids lost by the database's sequences are neither. */
  predicate Labours(m: Move) {
    match m
    case Serve(a) => a.Worker?
    case Query(q) => !q.SkipIds?
  }

  lemma {:induction false} WorkerSpends(c: Config, s: Service, w: nat, step: WorkerStep,
                                        txns: map<int, Pg.Txn>, txns': map<int, Pg.Txn>)
    requires WorkerEnabled(c, s, w, step)
    requires forall v: int | v != w :: v in txns' <==> v in txns
    requires forall v <- txns | v != w :: txns'[v] == txns[v]
    ensures
      var after := WorkerApply(c, s, w, step);
      && 8 * Progress.Work(after) + AllLeft(after.workers, txns') < 8 * Progress.Work(s) + AllLeft(s.workers, txns)
      && |after.done| <= |s.done| + 1 && after.closed == s.closed && after.main == s.main
  {
    Progress.WorkerStepDescends(c, s, w, step);
    Tokens.WorkerStepShape(c, s, w, step);
    LeftAfterMove(s.workers, txns, w, WorkerApply(c, s, w, step).workers, txns');
  }

  lemma StatementSpends(hash: Pg.Hash, s: Pg.Db, q: Pg.Action, p: Phase)
    requires Pg.Enabled(hash, s, q) && p.Recording?
    requires Inner(q)
    ensures
      var after := Pg.Apply(hash, s, q);
      && StatementsLeft(p, q.tid, after.txns) < StatementsLeft(p, q.tid, s.txns)
      && (forall v: int | v != q.tid :: v in after.txns <==> v in s.txns)
      && forall v <- s.txns | v != q.tid :: after.txns[v] == s.txns[v]
  {}

  lemma EndRemoves(hash: Pg.Hash, s: Pg.Db, q: Pg.Action)
    requires Pg.Enabled(hash, s, q) && (q.Commit? || q.Abort?)
    ensures Pg.Apply(hash, s, q).txns == s.txns - {q.tid}
  {}

  predicate SameControl(d: Deployment, after: Deployment) {
    after.service.closed == d.service.closed && after.service.main == d.service.main
  }

  lemma QuerySpends(c: Config, hash: Pg.Hash, d: Deployment, q: Pg.Action)
    requires Inv(c, hash, d) && MoveEnabled(c, hash, d, Query(q)) && !q.SkipIds?
    ensures
      var after := MoveApply(c, hash, d, Query(q));
      && Effort(after) < Effort(d)
      && |after.service.done| <= |d.service.done| + 1 && SameControl(d, after)
  {
    assert Writing(d, q.tid);
    if q.Commit? || q.Abort? {
      EndSpends(c, hash, d, q);
    } else {
      InnerSpends(c, hash, d, q);
    }
  }

  lemma EndSpends(c: Config, hash: Pg.Hash, d: Deployment, q: Pg.Action)
    requires MoveEnabled(c, hash, d, Query(q)) && (q.Commit? || q.Abort?)
    ensures
      var after := MoveApply(c, hash, d, Query(q));
      && Effort(after) < Effort(d)
      && |after.service.done| <= |d.service.done| + 1 && SameControl(d, after)
  {
    EndRemoves(hash, d.db, q);
    var txns := MoveApply(c, hash, d, Query(q)).db.txns;
    WorkerSpends(c, d.service, q.tid, if q.Commit? then Store else StoreFails, d.db.txns, txns);
  }

  predicate Inner(q: Pg.Action) {
    q.Begin? || q.TakeLock? || q.ReadPrevious? || q.InsertResult? || q.InsertTransition? || q.InsertAlert?
  }

  lemma InnerSpends(c: Config, hash: Pg.Hash, d: Deployment, q: Pg.Action)
    requires MoveEnabled(c, hash, d, Query(q)) && Inner(q) && Writing(d, q.tid)
    ensures
      var after := MoveApply(c, hash, d, Query(q));
      && Effort(after) < Effort(d)
      && after.service.done == d.service.done && SameControl(d, after)
  {
    var txns := MoveApply(c, hash, d, Query(q)).db.txns;
    StatementSpends(hash, d.db, q, d.service.workers[q.tid]);
    LeftAfterMove(d.service.workers, d.db.txns, q.tid, d.service.workers, txns);
  }

  lemma LabourSpends(c: Config, hash: Pg.Hash, d: Deployment, m: Move)
    requires Inv(c, hash, d) && MoveEnabled(c, hash, d, m) && Labours(m)
    ensures
      var after := MoveApply(c, hash, d, m);
      && Effort(after) < Effort(d)
      && |after.service.done| <= |d.service.done| + 1 && SameControl(d, after)
  {
    match m
    case Serve(a) => WorkerSpends(c, d.service, a.w, a.step, d.db.txns, d.db.txns);
    case Query(q) => QuerySpends(c, hash, d, q);
  }

  // ---- Nobody is stuck ----

  /** A step of a worker, the receipt of a completion, or the next statement of a transaction. */
  predicate GoesOn(m: Move) {
    match m
    case Serve(a) => Progress.Moves(a)
    case Query(q) => q.Begin? || Pg.Advances(q)
  }

  // A worker that can step in the step system can step here, or its transaction, or one it waits
  // for, can make a statement.
  lemma WorkerOrStatement(c: Config, hash: Pg.Hash, d: Deployment, a: Action) returns (m: Move)
    requires Inv(c, hash, d) && Enabled(c, d.service, a) && a.Worker?
    ensures MoveEnabled(c, hash, d, m) && GoesOn(m) && Labours(m)
  {
    if !Writing(d, a.w) {
      m := Serve(a);
    } else if a.w in d.db.txns {
      var q := Pg.SomeoneAdvances(hash, d.db, a.w);
      m := Query(q);
    } else {
      m := Query(Pg.Begin(a.w, WriteOf(c, d, a.w)));
    }
  }

  // Neither channels, semaphore nor advisory locks deadlock: while a scan is under way the loop can
  // go on, and while an endpoint is in flight some worker, the loop or some transaction can.
  lemma NoDeadlock(c: Config, hash: Pg.Hash, states: seq<Deployment>, moves: seq<Move>, i: nat, id: string)
    returns (m: Move)
    requires IsDeployed(c, hash, states, moves) && i < |states|
    requires c.workers >= 1 && c.limit >= 1 && !states[i].service.cancelled
    requires states[i].service.main != Selecting || id in states[i].service.inFlight
    ensures MoveEnabled(c, hash, states[i], m) && GoesOn(m)
    ensures states[i].service.main != Selecting ==> states[i].service.main.Scanning? && m.Serve? && m.a.Main?
  {
    DeployedKeepsInv(c, hash, states, moves, i);
    ServiceRuns(c, hash, states, moves);
    var a := Progress.NoDeadlock(c, Services(states), ServiceActions(states, moves), i, id);
    if a.Worker? {
      m := WorkerOrStatement(c, hash, states[i], a);
    } else {
      m := Serve(a);
    }
  }

  // Once the service is cancelled and until Run returns, the loop or some worker can step, or some
  // transaction can make a statement.
  lemma ShutdownIsNeverStuck(c: Config, hash: Pg.Hash, states: seq<Deployment>, moves: seq<Move>, i: nat)
    returns (m: Move)
    requires IsDeployed(c, hash, states, moves) && i < |states| && c.limit >= 1
    requires states[i].service.cancelled && states[i].service.main != Returned
    ensures MoveEnabled(c, hash, states[i], m) && GoesOn(m)
    ensures states[i].service.closed ==> Labours(m) || m == Serve(Main(Return))
    ensures !states[i].service.closed ==> m.Serve? && m.a.Main?
  {
    DeployedKeepsInv(c, hash, states, moves, i);
    ServiceRuns(c, hash, states, moves);
    var a := Progress.ShutdownIsNeverStuck(c, Services(states), ServiceActions(states, moves), i);
    if a.Worker? {
      m := WorkerOrStatement(c, hash, states[i], a);
    } else {
      m := Serve(a);
    }
  }

  // When Run has returned no transaction is open.
  lemma ReturnLeavesNothingOpen(c: Config, hash: Pg.Hash, states: seq<Deployment>, moves: seq<Move>, i: nat)
    requires IsDeployed(c, hash, states, moves) && i < |states| && states[i].service.main == Returned
    ensures states[i].db.txns == map[] && states[i].db.locks == map[]
  {
    DeployedKeepsInv(c, hash, states, moves, i);
    ServiceRuns(c, hash, states, moves);
    Progress.ReturnLeavesNothingBehind(c, Services(states), ServiceActions(states, moves), i);
    NoWritersNoTxns(c, hash, states[i]);
  }

  lemma NoWritersNoTxns(c: Config, hash: Pg.Hash, d: Deployment)
    requires Inv(c, hash, d) && forall w | 0 <= w < |d.service.workers| :: d.service.workers[w] == Exited
    ensures d.db.txns == map[] && d.db.locks == map[]
  {
    assert forall tid: int :: tid !in d.db.txns;
    assert forall lock: int :: lock !in d.db.locks;
  }

  // ---- Only so much can happen ----

  /** How many of the moves from `i` up to `j` are worker steps or statements. */
  function LaboursIn(moves: seq<Move>, i: nat, j: nat): nat
    requires i <= j <= |moves|
    decreases j
  {
    if i == j then 0 else LaboursIn(moves, i, j - 1) + if Labours(moves[j - 1]) then 1 else 0
  }

  lemma ClosedMoveSpends(c: Config, hash: Pg.Hash, states: seq<Deployment>, moves: seq<Move>, i: nat)
    requires IsDeployed(c, hash, states, moves) && i < |moves| && states[i].service.closed
    ensures states[i + 1].service.closed
    ensures Effort(states[i + 1]) + (if Labours(moves[i]) then 1 else 0) <= Effort(states[i])
  {
    var d := states[i];
    DeployedKeepsInv(c, hash, states, moves, i);
    ServiceRuns(c, hash, states, moves);
    Tokens.RunKeepsInv(c, Services(states), ServiceActions(states, moves), i);
    assert MoveAt(c, hash, states, moves, i);
    if Labours(moves[i]) {
      LabourSpends(c, hash, d, moves[i]);
    } else {
      ClosedElsewhere(c, hash, d, moves[i]);
    }
  }

  lemma ClosedElsewhere(c: Config, hash: Pg.Hash, d: Deployment, m: Move)
    requires MoveEnabled(c, hash, d, m) && !Labours(m) && d.service.closed && Tokens.ControlInv(c, d.service)
    ensures
      var after := MoveApply(c, hash, d, m);
      && after.service.closed && after.service.jobs == d.service.jobs
      && after.service.workers == d.service.workers && after.db.txns == d.db.txns
  {}

  // From the closing of the queue on, workers and transactions together take only finitely many
  // more steps.
  lemma {:induction false} ShutdownIsBounded(c: Config, hash: Pg.Hash, states: seq<Deployment>, moves: seq<Move>,
                                             i: nat, j: nat)
    requires IsDeployed(c, hash, states, moves) && i <= j < |states| && states[i].service.closed
    ensures states[j].service.closed
    ensures LaboursIn(moves, i, j) + Effort(states[j]) <= Effort(states[i])
    decreases j
  {
    if i < j {
      ShutdownIsBounded(c, hash, states, moves, i, j - 1);
      ClosedMoveSpends(c, hash, states, moves, j - 1);
    }
  }

  // ---- From one tick to the next ----

  // A job is worth nine steps of a worker and eight statements with each, so a step of the scan has
  // to outweigh more here.
  function Pending(c: Config, d: Deployment): nat {
    2 * Effort(d) + |d.service.done| + Progress.LoopLeft(c, d.service) + 126 * Loop.ScanLeft(c, d.service)
  }

  lemma {:induction false} MainKeepsLeft(c: Config, s: Service, m: MainStep, txns: map<int, Pg.Txn>)
    requires MainEnabled(c, s, m)
    ensures AllLeft(MainApply(c, s, m).workers, txns) == AllLeft(s.workers, txns)
  {
    var after := MainApply(c, s, m);
    forall v | 0 <= v < |s.workers|
      ensures StatementsLeft(after.workers[v], v, txns) == StatementsLeft(s.workers[v], v, txns)
    {
      if m.HandOff? && m.w == v {
        assert s.workers[v] == Idle && after.workers[v].Acquiring?;
      }
    }
    LeftElsewhere(s.workers, txns, after.workers, txns);
  }

  lemma MainSpends(c: Config, hash: Pg.Hash, d: Deployment, m: MainStep)
    requires Loop.Inv(c, d.service) && MoveEnabled(c, hash, d, Serve(Main(m))) && !m.Tick?
    ensures Pending(c, MoveApply(c, hash, d, Serve(Main(m)))) < Pending(c, d)
  {
    MainKeepsLeft(c, d.service, m, d.db.txns);
    if d.service.main.Scanning? {
      Progress.ScanSpends(c, d.service, m);
      Loop.ScanStepDescends(c, d.service, m);
    } else {
      Progress.MainSpends(c, d.service, m);
    }
  }

  predicate IsTick(m: Move) {
    m.Serve? && m.a.Main? && m.a.m.Tick?
  }

  /** A step of a worker or of the loop, or a statement. */
  predicate Works(m: Move) {
    Labours(m) || (m.Serve? && m.a.Main?)
  }

  lemma QuietElsewhere(c: Config, hash: Pg.Hash, d: Deployment, m: Move)
    requires MoveEnabled(c, hash, d, m) && !Works(m)
    ensures
      var after := MoveApply(c, hash, d, m);
      && after.service.main == d.service.main && after.service.jobs == d.service.jobs
      && after.service.done == d.service.done && after.service.workers == d.service.workers
      && after.db.txns == d.db.txns
  {}

  lemma MoveSpends(c: Config, hash: Pg.Hash, d: Deployment, m: Move)
    requires Inv(c, hash, d) && Loop.Inv(c, d.service) && MoveEnabled(c, hash, d, m) && !IsTick(m)
    ensures Pending(c, MoveApply(c, hash, d, m)) + (if Works(m) then 1 else 0) <= Pending(c, d)
  {
    if Labours(m) {
      LabourSpends(c, hash, d, m);
    } else if Works(m) {
      MainSpends(c, hash, d, m.a.m);
    } else {
      QuietElsewhere(c, hash, d, m);
    }
  }

  lemma MoveInRunSpends(c: Config, hash: Pg.Hash, states: seq<Deployment>, moves: seq<Move>, i: nat)
    requires IsDeployed(c, hash, states, moves) && i < |moves| && !IsTick(moves[i])
    ensures Pending(c, states[i + 1]) + (if Works(moves[i]) then 1 else 0) <= Pending(c, states[i])
  {
    DeployedKeepsInv(c, hash, states, moves, i);
    ServiceRuns(c, hash, states, moves);
    Loop.RunKeepsInv(c, Services(states), ServiceActions(states, moves), i);
    assert MoveAt(c, hash, states, moves, i);
    MoveSpends(c, hash, states[i], moves[i]);
  }

  /** How many of the moves from `i` up to `j` are steps of workers or loop, or statements. */
  function WorksIn(moves: seq<Move>, i: nat, j: nat): nat
    requires i <= j <= |moves|
    decreases j
  {
    if i == j then 0 else WorksIn(moves, i, j - 1) + if Works(moves[j - 1]) then 1 else 0
  }

  // From one tick to the next, workers, loop and transactions together take only so many steps.
  lemma {:induction false} MovesAreBounded(c: Config, hash: Pg.Hash, states: seq<Deployment>, moves: seq<Move>,
                                           i: nat, j: nat)
    requires IsDeployed(c, hash, states, moves) && i <= j < |states|
    requires forall k | i <= k < j :: !IsTick(moves[k])
    ensures WorksIn(moves, i, j) + Pending(c, states[j]) <= Pending(c, states[i])
    decreases j
  {
    if i < j {
      MovesAreBounded(c, hash, states, moves, i, j - 1);
      MoveInRunSpends(c, hash, states, moves, j - 1);
    }
  }

  lemma OneMoreMove(c: Config, hash: Pg.Hash, states: seq<Deployment>, moves: seq<Move>, m: Move)
    requires IsDeployed(c, hash, states, moves) && MoveEnabled(c, hash, states[|moves|], m)
    ensures IsDeployed(c, hash, states + [MoveApply(c, hash, states[|moves|], m)], moves + [m])
  {
    var longer, steps := states + [MoveApply(c, hash, states[|moves|], m)], moves + [m];
    forall i | 0 <= i < |steps|
      ensures MoveAt(c, hash, longer, steps, i)
    {
      if i < |moves| {
        assert MoveAt(c, hash, states, moves, i);
      }
    }
  }

  // From every reachable state in which the service is cancelled, workers, loop and transactions
  // alone bring Run to its return.
  lemma {:induction false} CancelLeadsToReturn(c: Config, hash: Pg.Hash, states: seq<Deployment>, moves: seq<Move>)
    returns (longer: seq<Deployment>, steps: seq<Move>)
    requires IsDeployed(c, hash, states, moves) && states[|moves|].service.cancelled && c.limit >= 1
    ensures IsDeployed(c, hash, longer, steps) && states <= longer && moves <= steps
    ensures longer[|steps|].service.main == Returned
    ensures forall k | |moves| <= k < |steps| :: GoesOn(steps[k])
    ensures |steps| - |moves| <= Pending(c, states[|moves|])
    decreases Pending(c, states[|moves|])
  {
    var d := states[|moves|];
    if d.service.main == Returned {
      longer, steps := states, moves;
    } else {
      var m := ShutdownIsNeverStuck(c, hash, states, moves, |moves|);
      var more := states + [MoveApply(c, hash, d, m)];
      OneMoreMove(c, hash, states, moves, m);
      MoveInRunSpends(c, hash, more, moves + [m], |moves|);
      CancelStays(c, hash, d, m);
      longer, steps := CancelLeadsToReturn(c, hash, more, moves + [m]);
      assert steps[|moves|] == m;
    }
  }

  lemma CancelStays(c: Config, hash: Pg.Hash, d: Deployment, m: Move)
    requires MoveEnabled(c, hash, d, m) && GoesOn(m) && d.service.cancelled
    ensures MoveApply(c, hash, d, m).service.cancelled
  {
    ServiceCanFollow(c, hash, d, m);
    if ServiceAction(d, m).Worker? || ServiceAction(d, m).Main? {
      Progress.MoveKeepsCancelled(c, d.service, ServiceAction(d, m));
    }
  }

  // ---- The loop on the database ----

  // While a scan is under way the loop has a next step.
  lemma ScanGoesOn(c: Config, hash: Pg.Hash, states: seq<Deployment>, moves: seq<Move>, i: nat) returns (m: MainStep)
    requires IsDeployed(c, hash, states, moves) && i < |states| && states[i].service.main.Scanning?
    ensures MoveEnabled(c, hash, states[i], Serve(Main(m))) && !m.Tick?
    ensures
      var s := states[i].service;
      && (s.main.index == |c.endpoints| ==> m == EndScan)
      && (s.main.index < |c.endpoints| && !Loop.AtReady(c, s) ==> m == Skip)
      && (Loop.AtReady(c, s) && |s.jobs| < c.queueSize ==> m == Enqueue)
      && (Loop.AtReady(c, s) && |s.jobs| >= c.queueSize ==> m == if s.cancelled then SeeCancel else Drop)
  {
    ServiceRuns(c, hash, states, moves);
    m := Loop.ScanGoesOn(c, Services(states), ServiceActions(states, moves), i);
  }

  // In either select a cancellation can be seen, and from there the job queue is closed.
  lemma CancelIsSeen(c: Config, hash: Pg.Hash, states: seq<Deployment>, moves: seq<Move>, i: nat)
    requires IsDeployed(c, hash, states, moves) && i < |states| && states[i].service.cancelled
    requires states[i].service.main == Selecting || Loop.AtReady(c, states[i].service)
    ensures MoveEnabled(c, hash, states[i], Serve(Main(SeeCancel)))
    ensures
      var closing := MoveApply(c, hash, states[i], Serve(Main(SeeCancel)));
      && MoveEnabled(c, hash, closing, Serve(Main(Close)))
      && MoveApply(c, hash, closing, Serve(Main(Close))).service
         == states[i].service.(main := Waiting, closed := true)
  {
    ServiceRuns(c, hash, states, moves);
    Loop.CancelIsSeen(c, Services(states), ServiceActions(states, moves), i);
  }

  // An endpoint that a scan passes is dispatched or put off if it is ready, and left alone if not.
  lemma PassedEndpoint(c: Config, hash: Pg.Hash, states: seq<Deployment>, moves: seq<Move>, i: nat)
    requires IsDeployed(c, hash, states, moves) && i < |moves| && moves[i].Serve? && moves[i].a.Main?
    requires states[i].service.main.Scanning? && states[i].service.main.index < |c.endpoints|
    requires states[i + 1].service.main.Scanning?
    ensures
      var s, after := states[i].service, states[i + 1].service;
      var t, e := s.main.current, c.endpoints[s.main.index];
      && after.main == Scanning(t, s.main.index + 1) && Loop.OnlySchedule(s, after)
      && (Loop.Ready(s, e.id, t) ==> Loop.Dispatched(c, s, e.id, after) || Loop.PutOff(c, s, e, t, after))
      && (!Loop.Ready(s, e.id, t) ==> after == s.(main := after.main))
  {
    ServiceRuns(c, hash, states, moves);
    Loop.PassedEndpoint(c, Services(states), ServiceActions(states, moves), i);
  }

  // When a scan comes to its end, every endpoint is in flight or rests beyond the tick.
  lemma NothingReadyIsLeft(c: Config, hash: Pg.Hash, states: seq<Deployment>, moves: seq<Move>, i: nat, k: nat)
    requires IsDeployed(c, hash, states, moves) && Loop.PositiveIntervals(c) && i < |moves|
    requires moves[i] == Serve(Main(EndScan)) && k < |c.endpoints|
    ensures states[i].service.main.Scanning?
    ensures
      var id, after := c.endpoints[k].id, states[i + 1].service;
      id in after.inFlight || (id in after.next && after.next[id] > states[i].service.main.current)
  {
    ServiceRuns(c, hash, states, moves);
    Loop.NothingReadyIsLeft(c, Services(states), ServiceActions(states, moves), i, k);
  }
}
