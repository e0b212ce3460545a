// The account of every dispatch: each one ends in exactly one result handed to the store, unless a
// cancellation stops it in front of the semaphore, and in one completion.
module Rounds {
  import opened Domain
  import opened Scheduler
  import Timeline
  import Loop
  import Tokens
  import Progress
  import Probes

  // ---- What is counted ----

  datatype Event =
    | Dispatch   // the loop queues the endpoint or hands it to a worker
    | GiveUp     // its worker is cancelled while waiting for the semaphore
    | Receipt    // the loop receives its completion

  predicate Happens(c: Config, s: Service, a: Action, event: Event, id: string) {
    match event
    case Dispatch =>
      a.Main? && (a.m == Enqueue || a.m.HandOff?) && AtEndpoint(c, s) && c.endpoints[s.main.index].id == id
    case GiveUp => a.Worker? && a.step == SkipCheck && a.w < |s.workers| && s.workers[a.w] == Acquiring(id)
    case Receipt => a == Main(ReceiveDone) && s.done != [] && s.done[0] == id
  }

  /** How often it happened among the first `i` actions. */
  function Times(c: Config, states: seq<Service>, actions: seq<Action>, i: nat, event: Event, id: string): nat
    requires i <= |actions| < |states|
  {
    if i == 0 then 0
    else Times(c, states, actions, i - 1, event, id)
         + Tokens.Bit(Happens(c, states[i - 1], actions[i - 1], event, id))
  }

  /** How many results about the endpoint were handed to the store. */
  function HandedOn(handed: seq<Handed>, id: string): nat {
    if handed == [] then 0
    else HandedOn(handed[..|handed| - 1], id) + Tokens.Bit(handed[|handed| - 1].write.result.endpointID == id)
  }

  /** A worker has the endpoint in hand and has not handed its result to the store. */
  predicate Unrecorded(p: Phase, id: string) {
    Tokens.Holds(p, id) && !p.Releasing? && !p.Reporting?
  }

  function UnrecordedIn(workers: seq<Phase>, id: string): nat {
    if workers == [] then 0
    else UnrecordedIn(workers[..|workers| - 1], id) + Tokens.Bit(Unrecorded(workers[|workers| - 1], id))
  }

  /** Dispatches of the endpoint still waiting for their result. */
  function Waiting(s: Service, id: string): nat {
    multiset(s.jobs)[id] + UnrecordedIn(s.workers, id)
  }

  lemma {:induction false} HandedOneMore(handed: seq<Handed>, h: Handed, id: string)
    ensures HandedOn(handed + [h], id) == HandedOn(handed, id) + Tokens.Bit(h.write.result.endpointID == id)
  {
    assert (handed + [h])[..|handed + [h]| - 1] == handed;
  }

  lemma {:induction false} UnrecordedAfterMove(workers: seq<Phase>, w: nat, p: Phase, id: string)
    requires w < |workers|
    ensures UnrecordedIn(workers[w := p], id) + Tokens.Bit(Unrecorded(workers[w], id))
         == UnrecordedIn(workers, id) + Tokens.Bit(Unrecorded(p, id))
  {
    var n := |workers| - 1;
    if w == n {
      assert workers[w := p][..n] == workers[..n];
    } else {
      assert workers[w := p][..n] == workers[..n][w := p];
      UnrecordedAfterMove(workers[..n], w, p, id);
    }
  }

  lemma {:induction false} UnrecordedAreHeld(workers: seq<Phase>, id: string)
    ensures UnrecordedIn(workers, id) <= Tokens.HeldCopies(workers, id)
  {
    if workers == [] {
    } else {
      UnrecordedAreHeld(workers[..|workers| - 1], id);
    }
  }

  // ---- Every step balances ----

  /** The account before and after a step that is, or is not, a dispatch or a giving up. */
  predicate Balances(s: Service, after: Service, id: string, dispatched: bool, givenUp: bool) {
    HandedOn(after.handed, id) + Waiting(after, id) + Tokens.Bit(givenUp)
      == HandedOn(s.handed, id) + Waiting(s, id) + Tokens.Bit(dispatched)
  }

  lemma NoEntry(c: Config, s: Service, m: MainStep)
    requires MainEnabled(c, s, m) && m != Enqueue && !m.HandOff?
    ensures
      var after := MainApply(c, s, m);
      after.jobs == s.jobs && after.workers == s.workers && after.handed == s.handed
  {}

  lemma {:induction false} MainBalances(c: Config, s: Service, m: MainStep, id: string)
    requires MainEnabled(c, s, m)
    ensures Balances(s, MainApply(c, s, m), id, Happens(c, s, Main(m), Dispatch, id), false)
  {
    match m
    case Enqueue => Tokens.CopiesAppended(s.jobs, c.endpoints[s.main.index].id, id);
    case HandOff(w) => UnrecordedAfterMove(s.workers, w, Acquiring(c.endpoints[s.main.index].id), id);
    case _ => NoEntry(c, s, m);
  }

  /** What the step does to the worker's own entry. */
  predicate EntryMoves(s: Service, w: nat, step: WorkerStep, to: Phase, id: string)
    requires w < |s.workers|
  {
    var from := s.workers[w];
    match step
    case TakeJob => s.jobs != [] && !Unrecorded(from, id) && (Unrecorded(to, id) <==> s.jobs[0] == id)
    case SkipCheck => !Unrecorded(to, id) && (Unrecorded(from, id) <==> from == Acquiring(id))
    case Store => !Unrecorded(to, id) && (Unrecorded(from, id) <==> from.Recording? && from.ep == id)
    case StoreFails => !Unrecorded(to, id) && (Unrecorded(from, id) <==> from.Recording? && from.ep == id)
    case _ => Unrecorded(to, id) == Unrecorded(from, id)
  }

  lemma EntryOfStep(c: Config, s: Service, w: nat, step: WorkerStep, id: string)
    requires WorkerEnabled(c, s, w, step)
    ensures
      var after := WorkerApply(c, s, w, step);
      && w < |after.workers| && after.workers == s.workers[w := after.workers[w]]
      && EntryMoves(s, w, step, after.workers[w], id)
      && after.jobs == if step == TakeJob then s.jobs[1..] else s.jobs
  {
    Tokens.WorkerStepShape(c, s, w, step);
    Progress.StepFollows(c, s, w, step);
    EntryOfMove(s, w, step, WorkerApply(c, s, w, step), id);
  }

  lemma EntryOfMove(s: Service, w: nat, step: WorkerStep, after: Service, id: string)
    requires w < |s.workers| && Tokens.Shape(s, w, step, after) && Progress.Follows(s, w, step, after)
    ensures EntryMoves(s, w, step, after.workers[w], id)
  {}

  lemma {:induction false} HandedByStep(c: Config, s: Service, w: nat, step: WorkerStep, id: string)
    requires WorkerEnabled(c, s, w, step)
    requires s.workers[w].Recording? ==> s.workers[w].result.endpointID == s.workers[w].ep
    ensures HandedOn(WorkerApply(c, s, w, step).handed, id)
         == HandedOn(s.handed, id)
            + Tokens.Bit((step == Store || step == StoreFails) && s.workers[w].Recording? && s.workers[w].ep == id)
  {
    var more, v := Probes.StepHands(c, s, Worker(w, step));
    if step == Store || step == StoreFails {
      HandedOneMore(s.handed, Handed(Timeline.Write(s.workers[w].result, c.dedupeWindow), step == Store), id);
    } else {
      Probes.OnlyStoreWrites(c, s, w, step);
    }
  }

  lemma {:induction false} WorkerBalances(c: Config, s: Service, w: nat, step: WorkerStep, id: string)
    requires WorkerEnabled(c, s, w, step)
    requires s.workers[w].Recording? ==> s.workers[w].result.endpointID == s.workers[w].ep
    ensures Balances(s, WorkerApply(c, s, w, step), id, false, Happens(c, s, Worker(w, step), GiveUp, id))
  {
    var after := WorkerApply(c, s, w, step);
    EntryOfStep(c, s, w, step, id);
    HandedByStep(c, s, w, step, id);
    UnrecordedAfterMove(s.workers, w, after.workers[w], id);
    if step == TakeJob {
      Tokens.CopiesInFront(s.jobs, id);
    }
  }

  lemma {:induction false} StepBalances(c: Config, s: Service, a: Action, id: string)
    requires Enabled(c, s, a) && Probes.Inv(c, s)
    ensures Balances(s, Apply(c, s, a), id, Happens(c, s, a, Dispatch, id), Happens(c, s, a, GiveUp, id))
  {
    match a
    case Main(m) => MainBalances(c, s, m, id);
    case Worker(w, step) =>
      assert Probes.WorkerOk(s, s.workers[w]);
      WorkerBalances(c, s, w, step, id);
    case _ =>
  }

  // ---- Over a run ----

  // Every dispatch has led to one result handed to the store, was given up, or is still waiting.
  lemma {:induction false} DispatchesAreAnswered(c: Config, states: seq<Service>, actions: seq<Action>, i: nat,
                                                  id: string)
    requires IsRun(c, states, actions) && i < |states|
    ensures Times(c, states, actions, i, Dispatch, id)
         == HandedOn(states[i].handed, id) + Times(c, states, actions, i, GiveUp, id) + Waiting(states[i], id)
  {
    if i == 0 {
      NothingUnrecorded(states[0].workers, id);
    } else {
      DispatchesAreAnswered(c, states, actions, i - 1, id);
      Probes.RunKeepsInv(c, states, actions, i - 1);
      assert StepAt(c, states, actions, i - 1);
      StepBalances(c, states[i - 1], actions[i - 1], id);
    }
  }

  lemma {:induction false} NothingUnrecorded(workers: seq<Phase>, id: string)
    requires forall w | 0 <= w < |workers| :: workers[w] == Idle
    ensures UnrecordedIn(workers, id) == 0
  {
    if workers == [] {
    } else {
      NothingUnrecorded(workers[..|workers| - 1], id);
    }
  }

  // Nothing is given up before the service is cancelled.
  lemma {:induction false} NothingGivenUp(c: Config, states: seq<Service>, actions: seq<Action>, i: nat, id: string)
    requires IsRun(c, states, actions) && i < |states| && !states[i].cancelled
    ensures Times(c, states, actions, i, GiveUp, id) == 0
  {
    if i == 0 {
    } else {
      assert StepAt(c, states, actions, i - 1);
      StaysUncancelled(c, states[i - 1], actions[i - 1]);
      NothingGivenUp(c, states, actions, i - 1, id);
    }
  }

  lemma StaysUncancelled(c: Config, s: Service, a: Action)
    requires Enabled(c, s, a) && !Apply(c, s, a).cancelled
    ensures !s.cancelled
  {
    if a.Worker? {
      Tokens.WorkerStepShape(c, s, a.w, a.step);
    }
  }

  lemma MainChangesFlight(c: Config, s: Service, m: MainStep, id: string)
    requires MainEnabled(c, s, m) && Tokens.Inv(c, s)
    ensures
      var dispatched, received := Happens(c, s, Main(m), Dispatch, id), Happens(c, s, Main(m), Receipt, id);
      Tokens.Bit(id in MainApply(c, s, m).inFlight) + Tokens.Bit(received)
        == Tokens.Bit(id in s.inFlight) + Tokens.Bit(dispatched)
  {
    match m
    case ReceiveDone => Loop.DoneIsInFlight(c, s, 0);
    case _ =>
  }

  lemma {:induction false} FlightChanges(c: Config, s: Service, a: Action, id: string)
    requires Enabled(c, s, a) && Tokens.Inv(c, s)
    ensures
      var dispatched, received := Happens(c, s, a, Dispatch, id), Happens(c, s, a, Receipt, id);
      Tokens.Bit(id in Apply(c, s, a).inFlight) + Tokens.Bit(received)
        == Tokens.Bit(id in s.inFlight) + Tokens.Bit(dispatched)
  {
    match a
    case Worker(w, step) => Tokens.WorkerStepShape(c, s, w, step);
    case Main(m) => MainChangesFlight(c, s, m, id);
    case _ =>
  }

  // Every dispatch but the one under way has been completed.
  lemma {:induction false} DispatchesAreReceived(c: Config, states: seq<Service>, actions: seq<Action>, i: nat,
                                                  id: string)
    requires IsRun(c, states, actions) && i < |states|
    ensures Times(c, states, actions, i, Dispatch, id)
         == Times(c, states, actions, i, Receipt, id) + Tokens.Bit(id in states[i].inFlight)
  {
    if i == 0 {
    } else {
      DispatchesAreReceived(c, states, actions, i - 1, id);
      Tokens.RunKeepsInv(c, states, actions, i - 1);
      assert StepAt(c, states, actions, i - 1);
      FlightChanges(c, states[i - 1], actions[i - 1], id);
    }
  }

  // So until the service is cancelled each completed dispatch has handed over exactly one result,
  // and the one under way, if there is one, at most one.
  lemma {:induction false} OneResultPerDispatch(c: Config, states: seq<Service>, actions: seq<Action>, i: nat,
                                                 id: string)
    requires IsRun(c, states, actions) && i < |states| && !states[i].cancelled
    ensures
      var received, handed := Times(c, states, actions, i, Receipt, id), HandedOn(states[i].handed, id);
      received <= handed <= received + Tokens.Bit(id in states[i].inFlight)
  {
    Tokens.RunKeepsInv(c, states, actions, i);
    DispatchesAreAnswered(c, states, actions, i, id);
    DispatchesAreReceived(c, states, actions, i, id);
    NothingGivenUp(c, states, actions, i, id);
    UnrecordedAreHeld(states[i].workers, id);
    assert Tokens.Copies(states[i], id) == Tokens.Bit(id in states[i].inFlight);
  }
}
