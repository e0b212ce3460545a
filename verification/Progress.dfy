// Termination and progress of the worker pool, and the spacing of scheduling decisions.
module Progress {
  import opened Domain
  import opened Scheduler
  import Mem = MemoryStore
  import Loop
  import Tokens

  // ---- The control graph of a worker ----

  /** A step takes a worker from one phase to the next; clock readings are kept through a check. */
  predicate Leads(from: Phase, step: WorkerStep, to: Phase, clock: Time) {
    match step
    case TakeJob => from == Idle && to.Acquiring?
    case Exit => from == Idle && to == Exited
    case Acquire => from.Acquiring? && to.Entering?
    case SkipCheck => from.Acquiring? && to.Reporting?
    case ReadClock => from.Entering? && to == Deciding(from.ep, clock)
    case Decide(_) => from.Deciding? && (to.Recording? || (to.Checking? && to.now == from.now))
    case Respond(_) => from.Checking? && to.Resolving?
    case Resolve => from.Resolving? && to.Recording?
    case Store => from.Recording? && to.Releasing?
    case StoreFails => from.Recording? && to.Releasing?
    case Release => from.Releasing? && to.Reporting?
    case Report => from.Reporting? && to == Idle
    case Abandon => from.Reporting? && to == Exited
  }

  /** The only worker that moved is `w`, along its control graph, and no schedule changed. */
  predicate Follows(s: Service, w: nat, step: WorkerStep, after: Service) {
    && w < |s.workers| == |after.workers|
    && Leads(s.workers[w], step, after.workers[w], s.clock)
    && after.next == s.next
  }

  lemma StepFollows(c: Config, s: Service, w: nat, step: WorkerStep)
    requires WorkerEnabled(c, s, w, step)
    ensures Follows(s, w, step, WorkerApply(c, s, w, step))
  {
    match step
    case Decide(m) => DecideFollows(c, s, w, m);
    case Resolve => ResolveFollows(c, s, w);
    case Store =>
    case StoreFails =>
    case Respond(_) =>
    case ReadClock =>
    case _ => ChannelStepFollows(c, s, w, step);
  }

  lemma ChannelStepFollows(c: Config, s: Service, w: nat, step: WorkerStep)
    requires WorkerEnabled(c, s, w, step)
    requires step in {TakeJob, Exit, Acquire, SkipCheck, Release, Report, Abandon}
    ensures Follows(s, w, step, WorkerApply(c, s, w, step))
  {}

  lemma DecideFollows(c: Config, s: Service, w: nat, m: bool)
    requires w < |s.workers| && s.workers[w].Deciding?
    ensures Follows(s, w, Decide(m), ApplyDecide(c, s, w, m))
  {}

  lemma ResolveFollows(c: Config, s: Service, w: nat)
    requires w < |s.workers| && s.workers[w].Resolving?
    ensures Follows(s, w, Resolve, ApplyResolve(c, s, w))
  {}

  // ---- A measure every worker step lowers ----

  /** Steps a worker may still take before it is idle again, plus one until it has exited. */
  function Rank(p: Phase): nat {
    match p
    case Exited => 0
    case Idle => 1
    case Reporting(_) => 2
    case Releasing(_) => 3
    case Recording(_, _) => 4
    case Resolving(_, _, _, _) => 5
    case Checking(_, _, _) => 6
    case Deciding(_, _) => 7
    case Entering(_) => 8
    case Acquiring(_) => 9
  }

  function Ranks(workers: seq<Phase>): nat {
    if workers == [] then 0 else Ranks(workers[..|workers| - 1]) + Rank(workers[|workers| - 1])
  }

  function Work(s: Service): nat {
    9 * |s.jobs| + Ranks(s.workers)
  }

  lemma {:induction false} RanksAfterMove(workers: seq<Phase>, w: nat, p: Phase)
    requires w < |workers|
    ensures Ranks(workers[w := p]) + Rank(workers[w]) == Ranks(workers) + Rank(p)
  {
    var n := |workers| - 1;
    if w == n {
      assert workers[w := p][..n] == workers[..n];
    } else {
      assert workers[w := p][..n] == workers[..n][w := p];
      RanksAfterMove(workers[..n], w, p);
    }
  }

  lemma WorkerStepDescends(c: Config, s: Service, w: nat, step: WorkerStep)
    requires WorkerEnabled(c, s, w, step)
    ensures
      var after := WorkerApply(c, s, w, step);
      && Work(after) < Work(s)
      && |after.done| <= |s.done| + 1
      && after.closed == s.closed
  {
    var after := WorkerApply(c, s, w, step);
    Tokens.WorkerStepShape(c, s, w, step);
    StepFollows(c, s, w, step);
    RankDrops(s.workers[w], step, after.workers[w], s.clock);
    RanksAfterMove(s.workers, w, after.workers[w]);
  }

  lemma RankDrops(from: Phase, step: WorkerStep, to: Phase, clock: Time)
    requires Leads(from, step, to, clock)
    ensures if step == TakeJob then Rank(to) == Rank(from) + 8 else Rank(to) < Rank(from)
  {}

  // ---- Nobody is stuck ----

  lemma {:induction false} SlotHolder(workers: seq<Phase>) returns (w: nat)
    requires Tokens.Slots(workers) > 0
    ensures w < |workers| && Tokens.HoldsSlot(workers[w])
  {
    var n := |workers| - 1;
    if Tokens.HoldsSlot(workers[n]) {
      w := n;
    } else {
      w := SlotHolder(workers[..n]);
    }
  }

  lemma {:induction false} SlotIsCounted(workers: seq<Phase>, w: nat)
    requires w < |workers| && Tokens.HoldsSlot(workers[w])
    ensures Tokens.Slots(workers) > 0
  {
    var n := |workers| - 1;
    if w < n {
      SlotIsCounted(workers[..n], w);
    }
  }

  // A worker inside a check can always go on.
  lemma SlotHolderMoves(c: Config, s: Service, w: nat) returns (step: WorkerStep)
    requires Tokens.Inv(c, s) && w < |s.workers| && Tokens.HoldsSlot(s.workers[w])
    requires s.workers[w].Checking? ==> s.workers[w].now <= s.clock
    ensures WorkerEnabled(c, s, w, step)
  {
    var p := s.workers[w];
    SlotIsCounted(s.workers, w);
    step := match p
      case Entering(_) => ReadClock
      case Deciding(_, _) => Decide(false)
      case Checking(ep, now, _) => Respond(CheckResult(0, ep, now, Healthy, 0, 1, false, "", ""))
      case Resolving(_, _, _, _) => Resolve
      case Recording(_, _) => Store
      case _ => Release;
  }

  /** No check began in the future. */
  predicate ChecksInPast(s: Service) {
    forall w | 0 <= w < |s.workers| :: s.workers[w].Checking? || s.workers[w].Deciding? ==> s.workers[w].now <= s.clock
  }

  lemma StepKeepsChecksInPast(c: Config, s: Service, a: Action)
    requires Enabled(c, s, a) && ChecksInPast(s)
    ensures ChecksInPast(Apply(c, s, a))
  {
    match a
    case Worker(w, step) =>
      Tokens.WorkerStepShape(c, s, w, step);
      StepFollows(c, s, w, step);
      WorkerKeepsChecksInPast(s, w, step, WorkerApply(c, s, w, step));
    case Main(m) => MainKeepsChecksInPast(c, s, m);
    case _ =>
  }

  lemma MainKeepsChecksInPast(c: Config, s: Service, m: MainStep)
    requires MainEnabled(c, s, m) && ChecksInPast(s)
    ensures ChecksInPast(MainApply(c, s, m))
  {}

  lemma WorkerKeepsChecksInPast(s: Service, w: nat, step: WorkerStep, after: Service)
    requires ChecksInPast(s) && w < |s.workers| && Follows(s, w, step, after)
    requires after.workers == s.workers[w := after.workers[w]] && after.clock == s.clock
    ensures ChecksInPast(after)
  {}

  lemma {:induction false} RunKeepsChecksInPast(c: Config, states: seq<Service>, actions: seq<Action>, i: nat)
    requires IsRun(c, states, actions) && i < |states|
    ensures ChecksInPast(states[i])
  {
    if i == 0 {
    } else {
      RunKeepsChecksInPast(c, states, actions, i - 1);
      assert StepAt(c, states, actions, i - 1);
      StepKeepsChecksInPast(c, states[i - 1], actions[i - 1]);
    }
  }

  // A worker with an endpoint in hand can go on, or is waiting for one that can.
  lemma BusyWorkerMoves(c: Config, s: Service, w: nat) returns (v: nat, step: WorkerStep)
    requires Tokens.Inv(c, s) && ChecksInPast(s) && c.limit >= 1
    requires w < |s.workers| && s.workers[w] != Idle && s.workers[w] != Exited
    ensures WorkerEnabled(c, s, v, step) && step != Exit
  {
    v := w;
    if s.workers[w].Reporting? {
      Tokens.QueuesFit(c, s);
      Tokens.IdsAreFew(c.endpoints);
      Tokens.HolderIsCounted(s.workers, w, s.workers[w].ep);
      step := Report;
    } else if s.workers[w].Acquiring? && s.semaphore < c.limit {
      step := Acquire;
    } else {
      if s.workers[w].Acquiring? {
        v := SlotHolder(s.workers);
      }
      step := SlotHolderMoves(c, s, v);
    }
  }

  // ---- Shutdown ----

  /** The steps that move endpoints along while no tick arrives: all of a worker and of the loop. */
  predicate Moves(a: Action) {
    a.Worker? || (a.Main? && !a.m.Tick?)
  }

  lemma ClosedGoesOn(c: Config, states: seq<Service>, actions: seq<Action>, i: nat) returns (a: Action)
    requires IsRun(c, states, actions) && i < |states| && c.limit >= 1
    requires states[i].closed && states[i].main != Returned
    ensures Enabled(c, states[i], a)
    ensures a == Main(Return) || a.Worker?
    ensures a == Main(Return) ==> states[i].semaphore == 0
  {
    var s := states[i];
    Tokens.RunKeepsInv(c, states, actions, i);
    RunKeepsChecksInPast(c, states, actions, i);
    if w: nat :| w < |s.workers| && s.workers[w] != Exited {
      if s.workers[w] == Idle {
        a := Worker(w, if s.jobs == [] then Exit else TakeJob);
      } else {
        var v, step := BusyWorkerMoves(c, s, w);
        a := Worker(v, step);
      }
    } else {
      Tokens.NoSlots(s.workers);
      a := Main(Return);
    }
  }

  // Once the service is cancelled and until Run returns, some step towards the return is possible:
  // of the loop until it has closed the queue, and of a worker until all of them have exited.
  lemma ShutdownIsNeverStuck(c: Config, states: seq<Service>, actions: seq<Action>, i: nat) returns (a: Action)
    requires IsRun(c, states, actions) && i < |states| && c.limit >= 1
    requires states[i].cancelled && states[i].main != Returned
    ensures Enabled(c, states[i], a) && Moves(a)
    ensures states[i].closed ==> a == Main(Return) || a.Worker?
    ensures !states[i].closed ==> a.Main?
    ensures a == Main(Return) ==> states[i].semaphore == 0
  {
    Tokens.RunKeepsInv(c, states, actions, i);
    match states[i].main
    case Scanning(_, _) =>
      var m := Loop.ScanGoesOn(c, states, actions, i);
      a := Main(m);
    case Selecting => a := Main(SeeCancel);
    case Closing => a := Main(Close);
    case _ => a := ClosedGoesOn(c, states, actions, i);
  }

  // Neither of a worker's selects holds it once the service is cancelled: it can leave the semaphore
  // without a check and the done channel without a report.
  lemma CancelReachesWorkers(c: Config, states: seq<Service>, actions: seq<Action>, i: nat, w: nat)
    requires IsRun(c, states, actions) && i < |states| && states[i].cancelled && w < |states[i].workers|
    ensures states[i].workers[w].Acquiring? ==>
      var s, p := states[i], states[i].workers[w];
      && Enabled(c, s, Worker(w, SkipCheck))
      && Apply(c, s, Worker(w, SkipCheck)) == s.(workers := s.workers[w := Reporting(p.ep)])
    ensures states[i].workers[w].Reporting? ==>
      var s, p := states[i], states[i].workers[w];
      && Enabled(c, s, Worker(w, Abandon))
      && Apply(c, s, Worker(w, Abandon))
         == s.(workers := s.workers[w := Exited], abandoned := s.abandoned + multiset{p.ep})
  {}

  /** How many of the actions from `i` up to `j` are worker steps. */
  function WorkerSteps(actions: seq<Action>, i: nat, j: nat): nat
    requires i <= j <= |actions|
    decreases j
  {
    if i == j then 0 else WorkerSteps(actions, i, j - 1) + if actions[j - 1].Worker? then 1 else 0
  }

  lemma ClosedStepDescends(c: Config, s: Service, a: Action)
    requires Tokens.Inv(c, s) && s.closed && Enabled(c, s, a)
    ensures
      var after := Apply(c, s, a);
      after.closed && Work(after) + (if a.Worker? then 1 else 0) <= Work(s)
  {
    match a
    case Worker(w, step) => WorkerStepDescends(c, s, w, step);
    case _ =>
      var after := Apply(c, s, a);
      assert after.jobs == s.jobs && after.workers == s.workers;
  }

  // From the closing of the queue on, the workers take only finitely many more steps: at most
  // nine for each queued job and each of themselves.
  lemma {:induction false} ShutdownIsBounded(c: Config, states: seq<Service>, actions: seq<Action>, i: nat, j: nat)
    requires IsRun(c, states, actions) && i <= j < |states| && states[i].closed
    ensures states[j].closed
    ensures WorkerSteps(actions, i, j) + Work(states[j]) <= Work(states[i])
    decreases j
  {
    if i < j {
      ShutdownIsBounded(c, states, actions, i, j - 1);
      ClosedRunDescends(c, states, actions, j - 1);
    }
  }

  lemma ClosedRunDescends(c: Config, states: seq<Service>, actions: seq<Action>, i: nat)
    requires IsRun(c, states, actions) && i < |actions| && states[i].closed
    ensures states[i + 1].closed
    ensures Work(states[i + 1]) + (if actions[i].Worker? then 1 else 0) <= Work(states[i])
  {
    Tokens.RunKeepsInv(c, states, actions, i);
    assert StepAt(c, states, actions, i);
    ClosedStepDescends(c, states[i], actions[i]);
  }

  // When Run returns, every worker has exited and every semaphore slot is free.
  lemma ReturnLeavesNothingBehind(c: Config, states: seq<Service>, actions: seq<Action>, i: nat)
    requires IsRun(c, states, actions) && i < |states| && states[i].main == Returned
    ensures forall w | 0 <= w < |states[i].workers| :: states[i].workers[w] == Exited
    ensures states[i].semaphore == 0
  {
    Tokens.RunKeepsInv(c, states, actions, i);
    Tokens.NoSlots(states[i].workers);
  }

  // ---- Progress between ticks ----

  /** How many of the actions from `i` up to `j` move endpoints along. */
  function MovesIn(actions: seq<Action>, i: nat, j: nat): nat
    requires i <= j <= |actions|
    decreases j
  {
    if i == j then 0 else MovesIn(actions, i, j - 1) + if Moves(actions[j - 1]) then 1 else 0
  }

  /** Steps of the loop until it waits for a tick or has returned. */
  function LoopLeft(c: Config, s: Service): nat {
    match s.main
    case Scanning(_, _) => 19 * Loop.ScanLeft(c, s) + 3
    case Selecting => 3
    case Closing => 2
    case Waiting => 1
    case Returned => 0
  }

  function Pending(c: Config, s: Service): nat {
    2 * Work(s) + |s.done| + LoopLeft(c, s)
  }

  lemma ScanSpends(c: Config, s: Service, m: MainStep)
    requires Loop.Inv(c, s) && MainEnabled(c, s, m) && s.main.Scanning?
    ensures
      var after := MainApply(c, s, m);
      && after.done == s.done && Work(after) <= Work(s) + 9
      && LoopLeft(c, after) + 19 <= LoopLeft(c, s)
  {
    Loop.ScanStepLeads(c, s, m);
    if m.HandOff? {
      RanksAfterMove(s.workers, m.w, MainApply(c, s, m).workers[m.w]);
    }
  }

  lemma MainSpends(c: Config, s: Service, m: MainStep)
    requires Loop.Inv(c, s) && MainEnabled(c, s, m) && !m.Tick?
    ensures Pending(c, MainApply(c, s, m)) < Pending(c, s)
  {
    if s.main.Scanning? {
      ScanSpends(c, s, m);
    }
  }

  lemma StepSpends(c: Config, s: Service, a: Action)
    requires Loop.Inv(c, s) && Enabled(c, s, a) && (a.Main? ==> !a.m.Tick?)
    ensures Pending(c, Apply(c, s, a)) + (if Moves(a) then 1 else 0) <= Pending(c, s)
  {
    match a
    case Worker(w, step) =>
      WorkerStepDescends(c, s, w, step);
      Tokens.WorkerStepShape(c, s, w, step);
    case Main(m) => MainSpends(c, s, m);
    case _ =>
  }

  // From one tick to the next, workers and loop together take only so many steps ...
  lemma {:induction false} MovesAreBounded(c: Config, states: seq<Service>, actions: seq<Action>, i: nat, j: nat)
    requires IsRun(c, states, actions) && i <= j < |states|
    requires forall k | i <= k < j :: actions[k].Main? ==> !actions[k].m.Tick?
    ensures MovesIn(actions, i, j) + Pending(c, states[j]) <= Pending(c, states[i])
    decreases j
  {
    if i < j {
      MovesAreBounded(c, states, actions, i, j - 1);
      Loop.RunKeepsInv(c, states, actions, j - 1);
      assert StepAt(c, states, actions, j - 1);
      StepSpends(c, states[j - 1], actions[j - 1]);
    }
  }

  lemma OneMore(c: Config, states: seq<Service>, actions: seq<Action>, a: Action)
    requires IsRun(c, states, actions) && Enabled(c, states[|actions|], a)
    ensures IsRun(c, states + [Apply(c, states[|actions|], a)], actions + [a])
  {
    var longer, steps := states + [Apply(c, states[|actions|], a)], actions + [a];
    forall i | 0 <= i < |steps|
      ensures StepAt(c, longer, steps, i)
    {
      if i < |actions| {
        assert StepAt(c, states, actions, i);
      }
    }
  }

  // From every reachable state in which the service is cancelled, workers and loop alone bring Run
  // to its return, with no tick and no time passing.
  lemma {:induction false} CancelLeadsToReturn(c: Config, states: seq<Service>, actions: seq<Action>)
    returns (longer: seq<Service>, steps: seq<Action>)
    requires IsRun(c, states, actions) && states[|actions|].cancelled && c.limit >= 1
    ensures IsRun(c, longer, steps) && states <= longer && actions <= steps
    ensures longer[|steps|].main == Returned
    ensures forall k | |actions| <= k < |steps| :: Moves(steps[k])
    ensures |steps| - |actions| <= Pending(c, states[|actions|])
    decreases Pending(c, states[|actions|])
  {
    var s := states[|actions|];
    if s.main == Returned {
      longer, steps := states, actions;
    } else {
      var a := ShutdownIsNeverStuck(c, states, actions, |actions|);
      Loop.RunKeepsInv(c, states, actions, |actions|);
      StepSpends(c, s, a);
      MoveKeepsCancelled(c, s, a);
      OneMore(c, states, actions, a);
      longer, steps := CancelLeadsToReturn(c, states + [Apply(c, s, a)], actions + [a]);
      assert steps[|actions|] == a;
    }
  }

  lemma MoveKeepsCancelled(c: Config, s: Service, a: Action)
    requires Enabled(c, s, a) && s.cancelled
    ensures Apply(c, s, a).cancelled
  {
    if a.Worker? {
      Tokens.WorkerStepShape(c, s, a.w, a.step);
    }
  }

  // ... and they run out only when the scan is over and no endpoint is in flight any more: there is
  // no deadlock.
  lemma NoDeadlock(c: Config, states: seq<Service>, actions: seq<Action>, i: nat, id: string) returns (a: Action)
    requires IsRun(c, states, actions) && i < |states|
    requires c.workers >= 1 && c.limit >= 1
    requires !states[i].cancelled && (states[i].main != Selecting || id in states[i].inFlight)
    ensures Moves(a) && Enabled(c, states[i], a)
    ensures states[i].main != Selecting ==> states[i].main.Scanning? && a.Main?
  {
    Tokens.RunKeepsInv(c, states, actions, i);
    if states[i].main == Selecting {
      a := FlightGoesOn(c, states, actions, i, id);
    } else {
      var m := Loop.ScanGoesOn(c, states, actions, i);
      a := Main(m);
    }
  }

  lemma FlightGoesOn(c: Config, states: seq<Service>, actions: seq<Action>, i: nat, id: string) returns (a: Action)
    requires IsRun(c, states, actions) && i < |states|
    requires c.workers >= 1 && c.limit >= 1
    requires states[i].main == Selecting && !states[i].cancelled && id in states[i].inFlight
    ensures Moves(a) && Enabled(c, states[i], a)
  {
    var s := states[i];
    Tokens.RunKeepsInv(c, states, actions, i);
    RunKeepsChecksInPast(c, states, actions, i);
    assert Tokens.Copies(s, id) == 1;
    if s.done != [] {
      a := Main(ReceiveDone);
    } else if w: nat :| w < |s.workers| && s.workers[w] != Idle {
      var v, step := BusyWorkerMoves(c, s, w);
      a := Worker(v, step);
    } else {
      Tokens.NoHolders(s.workers, id);
      assert multiset(s.jobs)[id] == 1;
      a := Worker(0, TakeJob);
    }
  }

  // ---- The environment ----

  /** What the executor may report of a check begun at `now`, at the latest by `clock`. */
  predicate MayReport(p: Phase, clock: Time, r: CheckResult)
    requires p.Checking?
  {
    && r.endpointID == p.ep && r.state in {Healthy, Degraded, Unavailable}
    && p.now <= r.checkedAt <= clock && r.attemptCount >= 1 && !r.circuitBreakerOpen
  }

  // Nothing is taken for granted about the world: at any moment time may pass and the context may
  // be cancelled, any tick may come late, any check may find maintenance or not, any answer may come
  // back, and any write may fail.
  lemma EnvironmentIsFree(c: Config, s: Service, w: nat, to: Time, inMaintenance: bool, r: CheckResult)
    requires w < |s.workers|
    ensures Enabled(c, s, Cancel) && (to >= s.clock ==> Enabled(c, s, Advance(to)))
    ensures s.main == Selecting && 0 < to <= s.clock ==> Enabled(c, s, Main(Tick(to)))
    ensures s.workers[w].Deciding? ==> Enabled(c, s, Worker(w, Decide(inMaintenance)))
    ensures s.workers[w].Checking? && MayReport(s.workers[w], s.clock, r) ==> Enabled(c, s, Worker(w, Respond(r)))
    ensures s.workers[w].Recording? ==> Enabled(c, s, Worker(w, Store)) && Enabled(c, s, Worker(w, StoreFails))
  {}

  // ---- Spacing of scheduling decisions ----

  predicate DistinctIds(c: Config) {
    forall i, j | 0 <= i < j < |c.endpoints| :: c.endpoints[i].id != c.endpoints[j].id
  }

  /** The action dispatches or drops the endpoint at position `k`. */
  predicate Decides(c: Config, s: Service, a: Action, k: nat) {
    && (a == Main(Enqueue) || a == Main(Drop) || (a.Main? && a.m.HandOff?))
    && AtEndpoint(c, s) && s.main.index == k
  }

  predicate TickInPast(s: Service) {
    s.main.Scanning? ==> s.main.current <= s.clock
  }

  /** The endpoint will not be decided on before `t`. */
  predicate Rests(c: Config, s: Service, k: nat, t: Time)
    requires k < |c.endpoints|
  {
    c.endpoints[k].id in s.inFlight || NextOf(s, c.endpoints[k].id) >= t
  }

  lemma StepKeepsRest(c: Config, s: Service, a: Action, k: nat, since: Time)
    requires Enabled(c, s, a) && DistinctIds(c) && k < |c.endpoints| && c.endpoints[k].interval >= 0
    requires TickInPast(s) && since <= s.clock
    requires Rests(c, s, k, since + c.endpoints[k].interval)
    ensures Rests(c, Apply(c, s, a), k, since + c.endpoints[k].interval)
  {
    match a
    case Worker(w, step) =>
      Tokens.WorkerStepShape(c, s, w, step);
      StepFollows(c, s, w, step);
    case Main(m) => MainKeepsRest(c, s, m, k, since);
    case _ =>
  }

  lemma MainKeepsRest(c: Config, s: Service, m: MainStep, k: nat, since: Time)
    requires MainEnabled(c, s, m) && DistinctIds(c) && k < |c.endpoints| && c.endpoints[k].interval >= 0
    requires TickInPast(s) && since <= s.clock
    requires Rests(c, s, k, since + c.endpoints[k].interval)
    ensures Rests(c, MainApply(c, s, m), k, since + c.endpoints[k].interval)
  {
    Loop.IntervalOfLast(c.endpoints, k);
  }

  lemma {:induction false} RunKeepsTickInPast(c: Config, states: seq<Service>, actions: seq<Action>, i: nat)
    requires IsRun(c, states, actions) && i < |states|
    ensures TickInPast(states[i])
  {
    if i == 0 {
    } else {
      RunKeepsTickInPast(c, states, actions, i - 1);
      assert StepAt(c, states, actions, i - 1);
      StepKeepsTickInPast(c, states[i - 1], actions[i - 1]);
    }
  }

  lemma StepKeepsTickInPast(c: Config, s: Service, a: Action)
    requires Enabled(c, s, a) && TickInPast(s)
    ensures TickInPast(Apply(c, s, a))
  {
    match a
    case Worker(w, step) => Tokens.WorkerStepShape(c, s, w, step);
    case Main(m) => MainKeepsTickInPast(c, s, m);
    case _ =>
  }

  lemma MainKeepsTickInPast(c: Config, s: Service, m: MainStep)
    requires MainEnabled(c, s, m) && TickInPast(s)
    ensures TickInPast(MainApply(c, s, m))
  {}

  lemma StepKeepsClock(c: Config, s: Service, a: Action)
    requires Enabled(c, s, a)
    ensures Apply(c, s, a).clock >= s.clock
  {
    if a.Worker? {
      Tokens.WorkerStepShape(c, s, a.w, a.step);
    }
  }

  lemma {:induction false} KeepsResting(c: Config, states: seq<Service>, actions: seq<Action>, i: nat, j: nat,
                                        k: nat, since: Time)
    requires IsRun(c, states, actions) && i <= j < |states|
    requires DistinctIds(c) && k < |c.endpoints| && c.endpoints[k].interval >= 0
    requires Rests(c, states[i], k, since + c.endpoints[k].interval) && since <= states[i].clock
    ensures Rests(c, states[j], k, since + c.endpoints[k].interval) && since <= states[j].clock
    decreases j
  {
    if i < j {
      KeepsResting(c, states, actions, i, j - 1, k, since);
      RunKeepsTickInPast(c, states, actions, j - 1);
      assert StepAt(c, states, actions, j - 1);
      StepKeepsClock(c, states[j - 1], actions[j - 1]);
      StepKeepsRest(c, states[j - 1], actions[j - 1], k, since);
    }
  }

  lemma DecisionRests(c: Config, s: Service, a: Action, k: nat)
    requires Enabled(c, s, a) && Decides(c, s, a, k) && TickInPast(s)
    requires k < |c.endpoints|
    ensures Rests(c, Apply(c, s, a), k, s.main.current + c.endpoints[k].interval)
    ensures s.main.current <= s.clock
  {}

  // Any two decisions on one endpoint, dispatch or drop, come from ticks at least its interval
  // apart, however late the ticks are processed.
  lemma DecisionsAreSpaced(c: Config, states: seq<Service>, actions: seq<Action>, i: nat, j: nat, k: nat)
    requires IsRun(c, states, actions) && i < j < |actions|
    requires DistinctIds(c) && k < |c.endpoints| && c.endpoints[k].interval >= 0
    requires Decides(c, states[i], actions[i], k) && Decides(c, states[j], actions[j], k)
    ensures states[j].main.current - states[i].main.current >= c.endpoints[k].interval
  {
    RunKeepsTickInPast(c, states, actions, i);
    assert StepAt(c, states, actions, i);
    assert StepAt(c, states, actions, j);
    DecisionRests(c, states[i], actions[i], k);
    StepKeepsClock(c, states[i], actions[i]);
    KeepsResting(c, states, actions, i + 1, j, k, states[i].main.current);
  }

  // After a completion is received, no tick earlier than an interval later decides on the endpoint.
  lemma RestsAfterCompletion(c: Config, states: seq<Service>, actions: seq<Action>, i: nat, j: nat, k: nat)
    requires IsRun(c, states, actions) && i < j < |actions|
    requires DistinctIds(c) && k < |c.endpoints| && c.endpoints[k].interval >= 0
    requires actions[i] == Main(ReceiveDone) && states[i].done != [] && states[i].done[0] == c.endpoints[k].id
    requires Decides(c, states[j], actions[j], k)
    ensures states[j].main.current - states[i].clock >= c.endpoints[k].interval
  {
    var last := Loop.CompletionReschedules(c, states, actions, i);
    assert last == k;
    assert StepAt(c, states, actions, j);
    KeepsResting(c, states, actions, i + 1, j, k, states[i].clock);
  }

  // ---- The queue-full branch ----

  /** A fresh service whose first tick has queued the first `n` endpoints. */
  function Queued(c: Config, n: nat): Service
    requires n <= |c.endpoints|
  {
    Service(Scanning(1, n), 1, false, false, seq(n, i requires 0 <= i < n => c.endpoints[i].id), [], 0,
            seq(c.workers, w => Idle), set i | 0 <= i < n :: c.endpoints[i].id,
            map id | id in Ids(c) :: 1, map[], Mem.NEW, [], [], multiset{})
  }

  lemma QueuesOneMore(c: Config, n: nat)
    requires DistinctIds(c) && n < |c.endpoints| && n < c.queueSize
    ensures MainEnabled(c, Queued(c, n), Enqueue)
    ensures MainApply(c, Queued(c, n), Enqueue) == Queued(c, n + 1)
  {
    var id := c.endpoints[n].id;
    assert id in Ids(c);
  }

  // With a shorter queue than there are endpoints the branch is reachable: a first tick that
  // no worker reacts to fills the queue and finds it full.
  lemma QueueFullIsReachable(c: Config) returns (states: seq<Service>, actions: seq<Action>)
    requires DistinctIds(c) && c.queueSize < |c.endpoints|
    ensures IsRun(c, states, actions) && MainEnabled(c, states[|actions|], Drop)
  {
    var q := c.queueSize;
    states := [Queued(c, 0).(main := Selecting)] + seq(q + 1, n requires 0 <= n <= q => Queued(c, n));
    actions := [Main(Tick(1))] + seq(q, n => Main(Enqueue));
    StartsQueue(c);
    forall i | 0 <= i < |actions|
      ensures StepAt(c, states, actions, i)
    {
      if i > 0 {
        QueuesOneMore(c, i - 1);
      }
    }
  }

  lemma StartsQueue(c: Config)
    ensures
      var start := Queued(c, 0).(main := Selecting);
      Init(c, start) && MainEnabled(c, start, Tick(1)) && MainApply(c, start, Tick(1)) == Queued(c, 0)
  {}
}
