// Conservation of endpoints in flight, and what follows from it: exclusive checks, a done
// channel that never fills, bounded concurrency.
module Tokens {
  import opened Domain
  import opened Scheduler
  import Circuit

  predicate Holds(p: Phase, id: string) {
    p != Idle && p != Exited && p.ep == id
  }

  function Bit(b: bool): nat {
    if b then 1 else 0
  }

  /** How many workers have the endpoint in hand. */
  function HeldCopies(workers: seq<Phase>, id: string): nat {
    if workers == [] then 0
    else HeldCopies(workers[..|workers| - 1], id) + Bit(Holds(workers[|workers| - 1], id))
  }

  /** Between acquiring and releasing the semaphore. */
  predicate HoldsSlot(p: Phase) {
    p.Entering? || p.Deciding? || p.Checking? || p.Resolving? || p.Recording? || p.Releasing?
  }

  function Slots(workers: seq<Phase>): nat {
    if workers == [] then 0 else Slots(workers[..|workers| - 1]) + Bit(HoldsSlot(workers[|workers| - 1]))
  }

  lemma {:induction false} HeldAfterMove(workers: seq<Phase>, w: nat, p: Phase, id: string)
    requires w < |workers|
    ensures HeldCopies(workers[w := p], id) + Bit(Holds(workers[w], id)) == HeldCopies(workers, id) + Bit(Holds(p, id))
  {
    var n := |workers| - 1;
    if w == n {
      assert workers[w := p][..n] == workers[..n];
    } else {
      assert workers[w := p][..n] == workers[..n][w := p];
      HeldAfterMove(workers[..n], w, p, id);
    }
  }

  lemma {:induction false} SlotsAfterMove(workers: seq<Phase>, w: nat, p: Phase)
    requires w < |workers|
    ensures Slots(workers[w := p]) + Bit(HoldsSlot(workers[w])) == Slots(workers) + Bit(HoldsSlot(p))
  {
    var n := |workers| - 1;
    if w == n {
      assert workers[w := p][..n] == workers[..n];
    } else {
      assert workers[w := p][..n] == workers[..n][w := p];
      SlotsAfterMove(workers[..n], w, p);
    }
  }

  lemma {:induction false} HolderIsCounted(workers: seq<Phase>, w: nat, id: string)
    requires w < |workers| && Holds(workers[w], id)
    ensures HeldCopies(workers, id) >= 1
  {
    var n := |workers| - 1;
    if w < n {
      HolderIsCounted(workers[..n], w, id);
    }
  }

  lemma {:induction false} TwoHoldersAreCounted(workers: seq<Phase>, v: nat, w: nat, id: string)
    requires v < w < |workers| && Holds(workers[v], id) && Holds(workers[w], id)
    ensures HeldCopies(workers, id) >= 2
  {
    var n := |workers| - 1;
    if w < n {
      TwoHoldersAreCounted(workers[..n], v, w, id);
    } else {
      HolderIsCounted(workers[..n], v, id);
    }
  }

  lemma {:induction false} NoHolders(workers: seq<Phase>, id: string)
    requires forall w | 0 <= w < |workers| :: !Holds(workers[w], id)
    ensures HeldCopies(workers, id) == 0
  {
    if workers == [] {
    } else {
      NoHolders(workers[..|workers| - 1], id);
    }
  }

  lemma {:induction false} NoSlots(workers: seq<Phase>)
    requires forall w | 0 <= w < |workers| :: !HoldsSlot(workers[w])
    ensures Slots(workers) == 0
  {
    if workers == [] {
    } else {
      NoSlots(workers[..|workers| - 1]);
    }
  }

  // ---- The invariant ----

  /** Where one endpoint is: queued, in a worker's hands, reported, or abandoned. */
  function Copies(s: Service, id: string): nat {
    multiset(s.jobs)[id] + HeldCopies(s.workers, id) + multiset(s.done)[id] + s.abandoned[id]
  }

  ghost predicate Conserved(s: Service) {
    forall id :: Copies(s, id) == Bit(id in s.inFlight)
  }

  predicate ControlInv(c: Config, s: Service) {
    && |s.workers| == c.workers
    && (s.closed <==> s.main == Waiting || s.main == Returned)
    && (s.main == Closing || s.closed ==> s.cancelled)
    && (forall w | 0 <= w < |s.workers| :: s.workers[w] == Exited ==> s.cancelled)
    && (s.main == Returned ==> forall w | 0 <= w < |s.workers| :: s.workers[w] == Exited)
    && (s.abandoned != multiset{} ==> s.cancelled)
  }

  ghost predicate Inv(c: Config, s: Service) {
    && ControlInv(c, s)
    && s.inFlight <= Ids(c)
    && Conserved(s)
    && s.semaphore == Slots(s.workers) <= c.limit
  }

  lemma InitInv(c: Config, s: Service)
    requires Init(c, s)
    ensures Inv(c, s)
  {
    NoSlots(s.workers);
    forall id
      ensures Copies(s, id) == Bit(id in s.inFlight)
    {
      NoHolders(s.workers, id);
    }
  }

  lemma MainConserves(c: Config, s: Service, m: MainStep, id: string)
    requires Conserved(s) && MainEnabled(c, s, m)
    ensures
      var after := MainApply(c, s, m);
      Copies(after, id) == Bit(id in after.inFlight)
  {
    assert Copies(s, id) == Bit(id in s.inFlight);
    match m
    case ReceiveDone => ReceiptConserves(c, s, id);
    case Enqueue => EnqueueConserves(c, s, id);
    case HandOff(w) => HandOffConserves(c, s, w, id);
    case _ =>
  }

  lemma ReceiptConserves(c: Config, s: Service, id: string)
    requires MainEnabled(c, s, ReceiveDone) && Copies(s, id) == Bit(id in s.inFlight)
    ensures
      var after := MainApply(c, s, ReceiveDone);
      Copies(after, id) == Bit(id in after.inFlight)
  {
    CopiesInFront(s.done, id);
  }

  lemma EnqueueConserves(c: Config, s: Service, id: string)
    requires MainEnabled(c, s, Enqueue) && Copies(s, id) == Bit(id in s.inFlight)
    ensures
      var after := MainApply(c, s, Enqueue);
      Copies(after, id) == Bit(id in after.inFlight)
  {
    CopiesAppended(s.jobs, c.endpoints[s.main.index].id, id);
  }

  lemma HandOffConserves(c: Config, s: Service, w: nat, id: string)
    requires MainEnabled(c, s, HandOff(w)) && Copies(s, id) == Bit(id in s.inFlight)
    ensures
      var after := MainApply(c, s, HandOff(w));
      Copies(after, id) == Bit(id in after.inFlight)
  {
    HeldAfterMove(s.workers, w, Acquiring(c.endpoints[s.main.index].id), id);
  }

  lemma MainKeepsInv(c: Config, s: Service, m: MainStep)
    requires Inv(c, s) && MainEnabled(c, s, m)
    ensures Inv(c, MainApply(c, s, m))
  {
    forall id
      ensures Copies(MainApply(c, s, m), id) == Bit(id in MainApply(c, s, m).inFlight)
    {
      MainConserves(c, s, m, id);
    }
    if m.HandOff? {
      SlotsAfterMove(s.workers, m.w, Acquiring(c.endpoints[s.main.index].id));
    }
  }

  /** What every worker step leaves alone, and how it moves the worker. */
  predicate Shape(s: Service, w: nat, step: WorkerStep, after: Service)
    requires w < |s.workers|
  {
    && w < |after.workers| && after.workers == s.workers[w := after.workers[w]]
    && after.inFlight == s.inFlight && after.next == s.next && after.main == s.main && after.closed == s.closed
    && after.cancelled == s.cancelled && after.clock == s.clock
    && after.semaphore + Bit(HoldsSlot(s.workers[w])) == s.semaphore + Bit(HoldsSlot(after.workers[w]))
    && (step != Acquire ==> after.semaphore <= s.semaphore)
    && (after.workers[w] == Exited <==> step == Exit || step == Abandon)
    && (step != TakeJob && step != Report && after.workers[w] != Exited
        ==> after.workers[w] != Idle && s.workers[w] != Idle && s.workers[w] != Exited
            && after.workers[w].ep == s.workers[w].ep)
    && match step
       case TakeJob => s.jobs != [] && after.jobs == s.jobs[1..] && after.workers[w] == Acquiring(s.jobs[0])
                       && after.done == s.done && after.abandoned == s.abandoned && s.workers[w] == Idle
       case Report => s.workers[w].Reporting? && after.done == s.done + [s.workers[w].ep]
                      && after.jobs == s.jobs && after.abandoned == s.abandoned && after.workers[w] == Idle
       case Abandon => s.workers[w].Reporting? && after.abandoned == s.abandoned + multiset{s.workers[w].ep}
                       && after.jobs == s.jobs && after.done == s.done
       case _ => after.jobs == s.jobs && after.done == s.done && after.abandoned == s.abandoned
  }

  lemma WorkerStepShape(c: Config, s: Service, w: nat, step: WorkerStep)
    requires WorkerEnabled(c, s, w, step)
    ensures Shape(s, w, step, WorkerApply(c, s, w, step))
    ensures step == Exit ==> s.closed && s.jobs == [] && s.workers[w] == Idle
    ensures step == Abandon ==> s.cancelled
    ensures step == Acquire ==> s.semaphore < c.limit
  {
    match step
    case Decide(m) => DecideShape(c, s, w, m);
    case Resolve => ResolveShape(c, s, w);
    case Store => RecordShape(c, s, w, step);
    case StoreFails => RecordShape(c, s, w, step);
    case Respond(_) => AnswerShape(c, s, w, step);
    case ReadClock => AnswerShape(c, s, w, step);
    case _ => ChannelStepShape(c, s, w, step);
  }

  lemma RecordShape(c: Config, s: Service, w: nat, step: WorkerStep)
    requires WorkerEnabled(c, s, w, step) && (step == Store || step == StoreFails)
    ensures Shape(s, w, step, WorkerApply(c, s, w, step))
  {}

  lemma AnswerShape(c: Config, s: Service, w: nat, step: WorkerStep)
    requires WorkerEnabled(c, s, w, step) && (step.Respond? || step == ReadClock)
    ensures Shape(s, w, step, WorkerApply(c, s, w, step))
  {}

  lemma ChannelStepShape(c: Config, s: Service, w: nat, step: WorkerStep)
    requires WorkerEnabled(c, s, w, step)
    requires step in {TakeJob, Exit, Acquire, SkipCheck, Release, Report, Abandon}
    ensures Shape(s, w, step, WorkerApply(c, s, w, step))
  {}

  lemma DecideShape(c: Config, s: Service, w: nat, m: bool)
    requires w < |s.workers| && s.workers[w].Deciding?
    ensures Shape(s, w, Decide(m), ApplyDecide(c, s, w, m))
  {}

  lemma ResolveShape(c: Config, s: Service, w: nat)
    requires w < |s.workers| && s.workers[w].Resolving?
    ensures Shape(s, w, Resolve, ApplyResolve(c, s, w))
  {
    var p := s.workers[w];
    if p.result.state == Unavailable {
      var told := CallBreaker(c, s, Circuit.Failure(p.ep, p.now));
      var after := ApplyResolve(c, s, w);
      assert after.workers[w].Recording? && after == Move(told, w, after.workers[w]);
    }
  }

  // A worker moves its endpoint from place to place; it neither drops nor duplicates it.
  lemma WorkerConserves(c: Config, s: Service, w: nat, step: WorkerStep, id: string)
    requires WorkerEnabled(c, s, w, step)
    ensures Copies(WorkerApply(c, s, w, step), id) == Copies(s, id)
  {
    WorkerStepShape(c, s, w, step);
    ShapeConserves(s, w, step, WorkerApply(c, s, w, step), id);
  }

  lemma {:induction false} ShapeConserves(s: Service, w: nat, step: WorkerStep, after: Service, id: string)
    requires w < |s.workers| && Shape(s, w, step, after) && (step == Exit ==> s.workers[w] == Idle)
    ensures Copies(after, id) == Copies(s, id)
  {
    HeldAfterMove(s.workers, w, after.workers[w], id);
    match step
    case TakeJob => CopiesInFront(s.jobs, id);
    case Report => CopiesAppended(s.done, s.workers[w].ep, id);
    case _ =>
  }

  lemma CopiesInFront(queue: seq<string>, id: string)
    requires queue != []
    ensures multiset(queue)[id] == Bit(queue[0] == id) + multiset(queue[1..])[id]
  {
    assert queue == [queue[0]] + queue[1..];
  }

  lemma CopiesAppended(queue: seq<string>, ep: string, id: string)
    ensures multiset(queue + [ep])[id] == multiset(queue)[id] + Bit(ep == id)
  {}

  lemma WorkerKeepsControl(c: Config, s: Service, w: nat, step: WorkerStep)
    requires ControlInv(c, s) && WorkerEnabled(c, s, w, step)
    ensures ControlInv(c, WorkerApply(c, s, w, step))
  {
    WorkerStepShape(c, s, w, step);
  }

  lemma WorkerKeepsSlots(c: Config, s: Service, w: nat, step: WorkerStep)
    requires s.semaphore == Slots(s.workers) <= c.limit && WorkerEnabled(c, s, w, step)
    ensures WorkerApply(c, s, w, step).semaphore == Slots(WorkerApply(c, s, w, step).workers) <= c.limit
  {
    var after := WorkerApply(c, s, w, step);
    WorkerStepShape(c, s, w, step);
    SlotsAfterMove(s.workers, w, after.workers[w]);
  }

  lemma WorkerKeepsInv(c: Config, s: Service, w: nat, step: WorkerStep)
    requires Inv(c, s) && WorkerEnabled(c, s, w, step)
    ensures Inv(c, WorkerApply(c, s, w, step))
  {
    var after := WorkerApply(c, s, w, step);
    WorkerStepShape(c, s, w, step);
    WorkerKeepsControl(c, s, w, step);
    WorkerKeepsSlots(c, s, w, step);
    forall id
      ensures Copies(after, id) == Bit(id in after.inFlight)
    {
      WorkerConserves(c, s, w, step, id);
      assert Copies(s, id) == Bit(id in s.inFlight);
    }
  }

  lemma StepKeepsInv(c: Config, s: Service, a: Action)
    requires Inv(c, s) && Enabled(c, s, a)
    ensures Inv(c, Apply(c, s, a))
  {
    match a
    case Advance(to) =>
      assert forall id :: Copies(s, id) == Copies(s.(clock := to), id);
    case Cancel =>
      assert forall id :: Copies(s, id) == Copies(s.(cancelled := true), id);
    case Main(m) => MainKeepsInv(c, s, m);
    case Worker(w, step) => WorkerKeepsInv(c, s, w, step);
  }

  lemma {:induction false} RunKeepsInv(c: Config, states: seq<Service>, actions: seq<Action>, i: nat)
    requires IsRun(c, states, actions) && i < |states|
    ensures Inv(c, states[i])
  {
    if i == 0 {
      InitInv(c, states[0]);
    } else {
      RunKeepsInv(c, states, actions, i - 1);
      assert StepAt(c, states, actions, i - 1);
      StepKeepsInv(c, states[i - 1], actions[i - 1]);
    }
  }

  // ---- What it gives ----

  // In every reachable state each endpoint is in one place if it is in flight and in none
  // otherwise, and none is lost unless the service is being cancelled.
  lemma EndpointsAreConserved(c: Config, states: seq<Service>, actions: seq<Action>, i: nat, id: string)
    requires IsRun(c, states, actions) && i < |states|
    ensures Copies(states[i], id) == Bit(id in states[i].inFlight)
    ensures id in states[i].inFlight ==> id in Ids(c)
    ensures !states[i].cancelled ==> states[i].abandoned == multiset{}
  {
    RunKeepsInv(c, states, actions, i);
  }

  lemma HoldersDiffer(c: Config, s: Service, v: nat, w: nat, id: string)
    requires Inv(c, s) && v < |s.workers| && w < |s.workers|
    requires Holds(s.workers[v], id) && Holds(s.workers[w], id)
    ensures v == w
  {
    assert Copies(s, id) <= 1;
    if v < w {
      TwoHoldersAreCounted(s.workers, v, w, id);
    } else if w < v {
      TwoHoldersAreCounted(s.workers, w, v, id);
    }
  }

  // No endpoint is ever in the hands of two workers, so none is ever checked twice at once.
  lemma ChecksAreExclusive(c: Config, states: seq<Service>, actions: seq<Action>, i: nat, v: nat, w: nat, id: string)
    requires IsRun(c, states, actions) && i < |states|
    requires v < |states[i].workers| && w < |states[i].workers|
    requires Holds(states[i].workers[v], id) && Holds(states[i].workers[w], id)
    ensures v == w
  {
    RunKeepsInv(c, states, actions, i);
    HoldersDiffer(c, states[i], v, w, id);
  }

  // The semaphore counts exactly the workers inside a check, never more than the limit.
  lemma ConcurrencyIsBounded(c: Config, states: seq<Service>, actions: seq<Action>, i: nat)
    requires IsRun(c, states, actions) && i < |states|
    ensures states[i].semaphore == Slots(states[i].workers) <= c.limit
  {
    RunKeepsInv(c, states, actions, i);
  }

  lemma {:induction false} IdsAreFew(endpoints: seq<Endpoint>)
    ensures |set i | 0 <= i < |endpoints| :: endpoints[i].id| <= |endpoints|
  {
    if endpoints == [] {
    } else {
      var n := |endpoints| - 1;
      IdsAreFew(endpoints[..n]);
      var all, few := set i | 0 <= i < |endpoints| :: endpoints[i].id, set i | 0 <= i < n :: endpoints[..n][i].id;
      assert all == few + {endpoints[n].id};
    }
  }

  lemma {:induction false} DistinctFit(some: seq<string>, within: set<string>)
    requires forall id :: multiset(some)[id] <= Bit(id in within)
    ensures |some| <= |within|
  {
    if some == [] {
    } else {
      var n := |some| - 1;
      var id := some[n];
      assert some == some[..n] + [id];
      assert multiset(some)[id] >= 1;
      forall other
        ensures multiset(some[..n])[other] <= Bit(other in within - {id})
      {
        assert multiset(some)[other] == multiset(some[..n])[other] + multiset{id}[other];
      }
      DistinctFit(some[..n], within - {id});
    }
  }

  lemma SubsetIsSmaller(a: set<string>, b: set<string>)
    requires a <= b
    ensures |a| <= |b|
  {
    assert b == a + (b - a);
  }

  // Neither queue ever holds more ids than there are endpoints in flight.
  lemma QueuesFit(c: Config, s: Service)
    requires Inv(c, s)
    ensures |s.jobs| <= |s.inFlight| && |s.done| <= |s.inFlight| <= |Ids(c)|
  {
    forall id
      ensures multiset(s.jobs)[id] <= Bit(id in s.inFlight) && multiset(s.done)[id] <= Bit(id in s.inFlight)
    {
      assert Copies(s, id) == Bit(id in s.inFlight);
    }
    DistinctFit(s.jobs, s.inFlight);
    DistinctFit(s.done, s.inFlight);
    SubsetIsSmaller(s.inFlight, Ids(c));
  }

  // The done channel is never full: a worker with something to report can always report it.
  lemma ReportingNeverBlocks(c: Config, states: seq<Service>, actions: seq<Action>, i: nat, w: nat)
    requires IsRun(c, states, actions) && i < |states|
    requires w < |states[i].workers| && states[i].workers[w].Reporting?
    ensures WorkerEnabled(c, states[i], w, Report)
  {
    RunKeepsInv(c, states, actions, i);
    QueuesFit(c, states[i]);
    IdsAreFew(c.endpoints);
  }

  // With a queue as long as there are endpoints, the queue-full branch is never reached.
  lemma NothingIsDropped(c: Config, states: seq<Service>, actions: seq<Action>, i: nat)
    requires IsRun(c, states, actions) && i < |states|
    requires c.queueSize >= |Ids(c)|
    ensures !MainEnabled(c, states[i], Drop)
  {
    RunKeepsInv(c, states, actions, i);
    var s := states[i];
    if AtEndpoint(c, s) && Due(c, s) {
      var id := c.endpoints[s.main.index].id;
      QueuesFit(c, s);
      SubsetIsSmaller(s.inFlight + {id}, Ids(c));
      assert |s.inFlight + {id}| == |s.inFlight| + 1;
    }
  }

  // Only the scheduling loop sends on the job queue, and never once it is closed.
  lemma NoSendAfterClose(c: Config, states: seq<Service>, actions: seq<Action>, i: nat)
    requires IsRun(c, states, actions) && i < |actions| && states[i].closed
    ensures forall id :: multiset(states[i + 1].jobs)[id] <= multiset(states[i].jobs)[id]
    ensures states[i + 1].closed
  {
    RunKeepsInv(c, states, actions, i);
    assert StepAt(c, states, actions, i);
    var s, after := states[i], states[i + 1];
    match actions[i]
    case Worker(w, step) =>
      WorkerStepShape(c, s, w, step);
      if step == TakeJob {
        assert s.jobs == [s.jobs[0]] + after.jobs;
      }
    case _ =>
      assert after.jobs == s.jobs;
  }
}
