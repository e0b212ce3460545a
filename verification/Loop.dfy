// The scheduling loop: a scan goes on until it ends, leaves no endpoint behind that is ready, and
// gives way to a cancellation; a completion puts the endpoint back on its schedule.
module Loop {
  import opened Domain
  import opened Scheduler
  import Tokens

  /** At the instant `t` the endpoint is neither under way nor resting. */
  predicate Ready(s: Service, id: string, t: Time) {
    id !in s.inFlight && id in s.next && s.next[id] <= t
  }

  /** The scan is at an endpoint that is ready at its tick. */
  predicate AtReady(c: Config, s: Service) {
    && s.main.Scanning? && s.main.index < |c.endpoints|
    && Ready(s, c.endpoints[s.main.index].id, s.main.current)
  }

  // ---- What the loop keeps ----

  predicate Inv(c: Config, s: Service) {
    && s.clock > 0
    && (s.main.Scanning? ==> s.main.index <= |c.endpoints|)
    && forall k | 0 <= k < |c.endpoints| :: c.endpoints[k].id in s.next
  }

  lemma MainKeepsInv(c: Config, s: Service, m: MainStep)
    requires Inv(c, s) && MainEnabled(c, s, m)
    ensures Inv(c, MainApply(c, s, m))
  {}

  lemma StepKeepsInv(c: Config, s: Service, a: Action)
    requires Inv(c, s) && Enabled(c, s, a)
    ensures Inv(c, Apply(c, s, a))
  {
    match a
    case Main(m) => MainKeepsInv(c, s, m);
    case Worker(w, step) => Tokens.WorkerStepShape(c, s, w, step);
    case _ =>
  }

  lemma InitInv(c: Config, s: Service)
    requires Init(c, s)
    ensures Inv(c, s)
  {
    forall k | 0 <= k < |c.endpoints|
      ensures c.endpoints[k].id in s.next
    {
      assert c.endpoints[k].id in Ids(c);
    }
  }

  lemma {:induction false} RunKeepsInv(c: Config, states: seq<Service>, actions: seq<Action>, i: nat)
    requires IsRun(c, states, actions) && i < |states|
    ensures Inv(c, states[i])
  {
    if i == 0 {
      InitInv(c, states[0]);
    } else {
      RunKeepsInv(c, states, actions, i - 1);
      assert StepAt(c, states, actions, i - 1);
      StepKeepsInv(c, states[i - 1], actions[i - 1]);
    }
  }

  lemma DueIsReady(c: Config, s: Service)
    requires Inv(c, s) && s.main.Scanning? && s.main.index < |c.endpoints|
    ensures Due(c, s) == AtReady(c, s)
  {
    assert c.endpoints[s.main.index].id in s.next;
  }

  // ---- A scan goes on until it ends ----

  /** Steps of the loop until its scan is over. */
  function ScanLeft(c: Config, s: Service): nat {
    if s.main.Scanning? && s.main.index <= |c.endpoints| then |c.endpoints| - s.main.index + 1 else 0
  }

  lemma NextScanStep(c: Config, s: Service) returns (m: MainStep)
    requires Inv(c, s) && s.main.Scanning?
    ensures MainEnabled(c, s, m) && !m.Tick?
    ensures s.main.index == |c.endpoints| ==> m == EndScan
    ensures s.main.index < |c.endpoints| && !AtReady(c, s) ==> m == Skip
    ensures AtReady(c, s) && |s.jobs| < c.queueSize ==> m == Enqueue
    ensures AtReady(c, s) && |s.jobs| >= c.queueSize ==> m == if s.cancelled then SeeCancel else Drop
  {
    if s.main.index == |c.endpoints| {
      m := EndScan;
    } else {
      DueIsReady(c, s);
      m := if !AtReady(c, s) then Skip
           else if |s.jobs| < c.queueSize then Enqueue
           else if s.cancelled then SeeCancel
           else Drop;
    }
  }

  // While a scan is under way the loop has a next step, whatever the channels hold: past an endpoint
  // that is not ready, into the queue while there is room, past a full queue, or to the end.
  lemma ScanGoesOn(c: Config, states: seq<Service>, actions: seq<Action>, i: nat) returns (m: MainStep)
    requires IsRun(c, states, actions) && i < |states| && states[i].main.Scanning?
    ensures Enabled(c, states[i], Main(m)) && !m.Tick?
    ensures states[i].main.index == |c.endpoints| ==> m == EndScan
    ensures states[i].main.index < |c.endpoints| && !AtReady(c, states[i]) ==> m == Skip
    ensures AtReady(c, states[i]) && |states[i].jobs| < c.queueSize ==> m == Enqueue
    ensures AtReady(c, states[i]) && |states[i].jobs| >= c.queueSize
            ==> m == if states[i].cancelled then SeeCancel else Drop
  {
    RunKeepsInv(c, states, actions, i);
    m := NextScanStep(c, states[i]);
  }

  // Without a buffer the job can go to any worker that is receiving.
  lemma HandOffIsPossible(c: Config, states: seq<Service>, actions: seq<Action>, i: nat, w: nat)
    requires IsRun(c, states, actions) && i < |states| && AtReady(c, states[i])
    requires c.queueSize == 0 && w < |states[i].workers| && states[i].workers[w] == Idle
    ensures Enabled(c, states[i], Main(HandOff(w)))
  {
    RunKeepsInv(c, states, actions, i);
    DueIsReady(c, states[i]);
  }

  /** Where a step of the scan leads: past one endpoint, out of the scan at its end, or to shutdown. */
  predicate ScanLeads(c: Config, s: Service, after: Service)
    requires s.main.Scanning?
  {
    || (s.main.index < |c.endpoints| && after.main == Scanning(s.main.current, s.main.index + 1))
    || (s.main.index == |c.endpoints| && after.main == Selecting)
    || (AtReady(c, s) && s.cancelled && after.main == Closing)
  }

  lemma ScanStepLeads(c: Config, s: Service, m: MainStep)
    requires Inv(c, s) && MainEnabled(c, s, m) && s.main.Scanning?
    ensures ScanLeads(c, s, MainApply(c, s, m))
  {
    if s.main.index < |c.endpoints| {
      DueIsReady(c, s);
    }
  }

  lemma ScanStepDescends(c: Config, s: Service, m: MainStep)
    requires Inv(c, s) && MainEnabled(c, s, m) && s.main.Scanning?
    ensures ScanLeft(c, MainApply(c, s, m)) < ScanLeft(c, s)
  {
    ScanStepLeads(c, s, m);
  }

  /** How many of the actions from `i` up to `j` are steps of the loop. */
  function MainSteps(actions: seq<Action>, i: nat, j: nat): nat
    requires i <= j <= |actions|
    decreases j
  {
    if i == j then 0 else MainSteps(actions, i, j - 1) + if actions[j - 1].Main? then 1 else 0
  }

  // A scan is over after one step for each endpoint and one more.
  lemma {:induction false} ScanIsBounded(c: Config, states: seq<Service>, actions: seq<Action>, i: nat, j: nat)
    requires IsRun(c, states, actions) && i <= j < |states|
    requires forall k | i <= k < j :: states[k].main.Scanning?
    ensures MainSteps(actions, i, j) + ScanLeft(c, states[j]) <= ScanLeft(c, states[i]) <= |c.endpoints| + 1
    decreases j
  {
    if i < j {
      ScanIsBounded(c, states, actions, i, j - 1);
      RunKeepsInv(c, states, actions, j - 1);
      assert StepAt(c, states, actions, j - 1);
      match actions[j - 1]
      case Main(m) => ScanStepDescends(c, states[j - 1], m);
      case Worker(w, step) => Tokens.WorkerStepShape(c, states[j - 1], w, step);
      case _ =>
    }
  }

  // ---- What becomes of an endpoint ----

  /** The endpoint is put into the queue, or, without a buffer, into the hands of an idle worker. */
  ghost predicate Dispatched(c: Config, s: Service, id: string, after: Service) {
    && after.inFlight == s.inFlight + {id} && after.next == s.next
    && ((|s.jobs| < c.queueSize && after.jobs == s.jobs + [id] && after.workers == s.workers)
        || (c.queueSize == 0 && after.jobs == s.jobs
            && exists w: nat | w < |s.workers| ::
                 s.workers[w] == Idle && after.workers == s.workers[w := Acquiring(id)]))
  }

  /** The queue is full and the endpoint has to wait for another interval. */
  predicate PutOff(c: Config, s: Service, e: Endpoint, t: Time, after: Service) {
    && |s.jobs| >= c.queueSize && !s.cancelled
    && after.next == s.next[e.id := t + e.interval]
    && after.inFlight == s.inFlight && after.jobs == s.jobs && after.workers == s.workers
  }

  /** At most the schedule, the job queue, the workers and the position of the scan differ. */
  predicate OnlySchedule(s: Service, after: Service) {
    after == s.(main := after.main, jobs := after.jobs, workers := after.workers,
                inFlight := after.inFlight, next := after.next)
  }

  lemma PassLeads(c: Config, s: Service, m: MainStep)
    requires MainEnabled(c, s, m) && AtEndpoint(c, s) && Inv(c, s)
    requires MainApply(c, s, m).main.Scanning?
    ensures
      var e, after := c.endpoints[s.main.index], MainApply(c, s, m);
      && OnlySchedule(s, after)
      && (AtReady(c, s) ==> Dispatched(c, s, e.id, after) || PutOff(c, s, e, s.main.current, after))
      && (!AtReady(c, s) ==> after == s.(main := after.main))
  {
    DueIsReady(c, s);
  }

  // An endpoint that a scan passes is dispatched or put off if it is ready, and left alone if not.
  lemma PassedEndpoint(c: Config, states: seq<Service>, actions: seq<Action>, i: nat)
    requires IsRun(c, states, actions) && i < |actions| && actions[i].Main?
    requires states[i].main.Scanning? && states[i].main.index < |c.endpoints| && states[i + 1].main.Scanning?
    ensures
      var s, after, t, e := states[i], states[i + 1], states[i].main.current, c.endpoints[states[i].main.index];
      && after.main == Scanning(t, s.main.index + 1) && OnlySchedule(s, after)
      && (Ready(s, e.id, t) ==> Dispatched(c, s, e.id, after) || PutOff(c, s, e, t, after))
      && (!Ready(s, e.id, t) ==> after == s.(main := after.main))
  {
    RunKeepsInv(c, states, actions, i);
    assert StepAt(c, states, actions, i);
    ScanStepLeads(c, states[i], actions[i].m);
    PassLeads(c, states[i], actions[i].m);
  }

  predicate PositiveIntervals(c: Config) {
    forall k | 0 <= k < |c.endpoints| :: c.endpoints[k].interval > 0
  }

  /** Nothing the scan has passed is ready at its tick. */
  predicate Swept(c: Config, s: Service) {
    s.main.Scanning? ==>
      forall k | 0 <= k < s.main.index && k < |c.endpoints| :: !Ready(s, c.endpoints[k].id, s.main.current)
  }

  lemma MainKeepsSwept(c: Config, s: Service, m: MainStep)
    requires Inv(c, s) && PositiveIntervals(c) && Swept(c, s) && MainEnabled(c, s, m)
    ensures Swept(c, MainApply(c, s, m))
  {
    var after := MainApply(c, s, m);
    if s.main.Scanning? && after.main.Scanning? {
      ScanStepLeads(c, s, m);
      PassLeads(c, s, m);
      forall k | 0 <= k < after.main.index && k < |c.endpoints|
        ensures !Ready(after, c.endpoints[k].id, after.main.current)
      {
        assert k < s.main.index ==> !Ready(s, c.endpoints[k].id, s.main.current);
      }
    }
  }

  lemma {:induction false} RunKeepsSwept(c: Config, states: seq<Service>, actions: seq<Action>, i: nat)
    requires IsRun(c, states, actions) && PositiveIntervals(c) && i < |states|
    ensures Swept(c, states[i])
  {
    if i == 0 {
    } else {
      RunKeepsSwept(c, states, actions, i - 1);
      RunKeepsInv(c, states, actions, i - 1);
      assert StepAt(c, states, actions, i - 1);
      match actions[i - 1]
      case Main(m) => MainKeepsSwept(c, states[i - 1], m);
      case Worker(w, step) => Tokens.WorkerStepShape(c, states[i - 1], w, step);
      case _ =>
    }
  }

  // When a scan comes to its end, every endpoint is in flight or rests beyond the tick: none that
  // was ready has been passed over, and none has become ready behind the scan.
  lemma NothingReadyIsLeft(c: Config, states: seq<Service>, actions: seq<Action>, i: nat, k: nat)
    requires IsRun(c, states, actions) && PositiveIntervals(c) && i < |actions|
    requires actions[i] == Main(EndScan) && k < |c.endpoints|
    ensures states[i].main.Scanning? && states[i + 1] == states[i].(main := Selecting)
    ensures
      var id := c.endpoints[k].id;
      id in states[i + 1].inFlight || (id in states[i + 1].next && states[i + 1].next[id] > states[i].main.current)
  {
    RunKeepsInv(c, states, actions, i);
    RunKeepsSwept(c, states, actions, i);
    assert StepAt(c, states, actions, i);
    assert !Ready(states[i], c.endpoints[k].id, states[i].main.current);
  }

  // ---- Completions ----

  lemma {:induction false} IntervalOfLast(endpoints: seq<Endpoint>, k: nat)
    requires k < |endpoints| && forall j | k < j < |endpoints| :: endpoints[j].id != endpoints[k].id
    ensures IntervalOf(endpoints, endpoints[k].id) == endpoints[k].interval
  {
    var n := |endpoints| - 1;
    if k < n {
      assert endpoints[n].id != endpoints[k].id;
      IntervalOfLast(endpoints[..n], k);
    }
  }

  lemma {:induction false} LastRegistered(endpoints: seq<Endpoint>, id: string) returns (k: nat)
    requires exists j :: 0 <= j < |endpoints| && endpoints[j].id == id
    ensures k < |endpoints| && endpoints[k].id == id
    ensures forall j | k < j < |endpoints| :: endpoints[j].id != id
  {
    var n := |endpoints| - 1;
    if endpoints[n].id == id {
      k := n;
    } else {
      var j :| 0 <= j < |endpoints| && endpoints[j].id == id;
      assert endpoints[..n][j].id == id;
      k := LastRegistered(endpoints[..n], id);
    }
  }

  lemma DoneIsInFlight(c: Config, s: Service, k: nat)
    requires Tokens.Inv(c, s) && k < |s.done|
    ensures s.done[k] in s.inFlight && s.done[k] in Ids(c)
  {
    assert Tokens.Copies(s, s.done[k]) == Tokens.Bit(s.done[k] in s.inFlight);
    assert s.done[k] in multiset(s.done);
  }

  // A received completion is one of an endpoint in flight. It ends the flight, and the endpoint
  // rests for its interval from then on; nothing else changes.
  lemma CompletionReschedules(c: Config, states: seq<Service>, actions: seq<Action>, i: nat) returns (k: nat)
    requires IsRun(c, states, actions) && i < |actions| && actions[i] == Main(ReceiveDone)
    ensures states[i].main == Selecting && states[i].done != [] && states[i].done[0] in states[i].inFlight
    ensures k < |c.endpoints| && c.endpoints[k].id == states[i].done[0]
    ensures forall j | k < j < |c.endpoints| :: c.endpoints[j].id != states[i].done[0]
    ensures
      var s, id := states[i], states[i].done[0];
      states[i + 1] == s.(done := s.done[1..], inFlight := s.inFlight - {id},
                          next := s.next[id := s.clock + c.endpoints[k].interval])
  {
    Tokens.RunKeepsInv(c, states, actions, i);
    assert StepAt(c, states, actions, i);
    DoneIsInFlight(c, states[i], 0);
    k := LastRegistered(c.endpoints, states[i].done[0]);
    IntervalOfLast(c.endpoints, k);
  }

  // A scan starts at the first endpoint and goes by the instant of its tick, however late that is
  // processed.
  lemma ScanStarts(c: Config, states: seq<Service>, actions: seq<Action>, i: nat)
    requires IsRun(c, states, actions) && i < |actions| && actions[i].Main? && actions[i].m.Tick?
    ensures states[i].main == Selecting && 0 < actions[i].m.current <= states[i].clock
    ensures states[i + 1] == states[i].(main := Scanning(actions[i].m.current, 0))
  {
    assert StepAt(c, states, actions, i);
  }

  // While the loop is selecting, neither a completion nor a tick has to wait.
  lemma SelectingListens(c: Config, states: seq<Service>, actions: seq<Action>, i: nat)
    requires IsRun(c, states, actions) && i < |states| && states[i].main == Selecting
    ensures Enabled(c, states[i], Main(Tick(states[i].clock)))
    ensures states[i].done != [] ==> Enabled(c, states[i], Main(ReceiveDone))
    ensures states[i].cancelled ==> Enabled(c, states[i], Main(SeeCancel))
  {
    RunKeepsInv(c, states, actions, i);
  }

  // ---- Cancellation ----

  // In either select a cancellation can be seen, and from there the job queue is closed.
  lemma CancelIsSeen(c: Config, states: seq<Service>, actions: seq<Action>, i: nat)
    requires IsRun(c, states, actions) && i < |states| && states[i].cancelled
    requires states[i].main == Selecting || AtReady(c, states[i])
    ensures Enabled(c, states[i], Main(SeeCancel))
    ensures
      var closing := Apply(c, states[i], Main(SeeCancel));
      && closing == states[i].(main := Closing)
      && Enabled(c, closing, Main(Close))
      && Apply(c, closing, Main(Close)) == states[i].(main := Waiting, closed := true)
  {
    RunKeepsInv(c, states, actions, i);
    if states[i].main.Scanning? {
      DueIsReady(c, states[i]);
    }
  }
}
