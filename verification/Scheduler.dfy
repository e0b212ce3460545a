// The monitoring service as a step system: the scheduling loop, the worker pool, and inside
// each worker the check protocol that joins circuit breaker, executor and result store.
//
// A step is one action of one goroutine on shared state. Steps interleave freely; when several
// cases of a select are ready any of them may be taken, and a default case only when none is.
module Scheduler {
  import opened Domain
  import Circuit
  import Timeline
  import Mem = MemoryStore

  datatype Config = Config(
    endpoints: seq<Endpoint>,
    workers: nat,
    limit: nat,               // concurrent checks
    queueSize: nat,
    threshold: int,           // failures that open a circuit
    cooldown: Duration,
    dedupeWindow: Duration)

  // Where a worker is. `ep` is the id of the endpoint it was given.
  datatype Phase =
    | Idle                                                   // receiving from the job queue, or about to
    | Acquiring(ep: string)                                  // waiting for the semaphore
    | Entering(ep: string)                                   // holds the semaphore, check begins
    | Deciding(ep: string, now: Time)                        // has read the clock
    | Checking(ep: string, now: Time, probe: bool)           // permitted; running the executor with retries
    | Resolving(ep: string, result: CheckResult, now: Time, probe: bool)  // about to tell the breaker
    | Recording(ep: string, result: CheckResult)             // about to store the result
    | Releasing(ep: string)                                  // check over, still holds the semaphore
    | Reporting(ep: string)                                  // sending on the done channel
    | Exited

  datatype MainPhase =
    | Selecting
    | Scanning(current: Time, index: nat)
    | Closing            // Run is returning; the job queue is about to be closed
    | Waiting            // for the workers
    | Returned

  datatype Service = Service(
    main: MainPhase,
    clock: Time,
    cancelled: bool,
    closed: bool,                     // the job queue
    jobs: seq<string>,
    done: seq<string>,
    semaphore: nat,                   // slots in use
    workers: seq<Phase>,
    inFlight: set<string>,
    next: map<string, Time>,
    breaker: Circuit.Items,
    log: Mem.Log,
    calls: seq<Circuit.Call>,         // history: every call on the breaker
    handed: seq<Handed>,              // history: every result handed to the store
    abandoned: multiset<string>)      // history: endpoints whose completion was never reported

  // One result handed to the store, and whether the store kept it.
  datatype Handed = Handed(write: Timeline.Write, kept: bool)

  function Kept(handed: seq<Handed>): seq<Timeline.Write> {
    if handed == [] then []
    else
      var last := handed[|handed| - 1];
      Kept(handed[..|handed| - 1]) + if last.kept then [last.write] else []
  }

  function Ids(c: Config): set<string> {
    set i | 0 <= i < |c.endpoints| :: c.endpoints[i].id
  }

  function DoneCapacity(c: Config): nat {
    |c.endpoints| + c.workers
  }

  /** The interval of the endpoint registered under an id; the last one wins. */
  function IntervalOf(endpoints: seq<Endpoint>, id: string): Duration {
    if endpoints == [] then 0
    else
      var last := endpoints[|endpoints| - 1];
      if last.id == id then last.interval else IntervalOf(endpoints[..|endpoints| - 1], id)
  }

  function NextOf(s: Service, id: string): Time {
    if id in s.next then s.next[id] else 0
  }

  // ---- Initial states ----

  // The log may already hold results, none of them from the future.
  ghost predicate Init(c: Config, s: Service) {
    && s.main == Selecting && s.clock > 0 && !s.cancelled && !s.closed
    && s.jobs == [] && s.done == [] && s.semaphore == 0
    && |s.workers| == c.workers && (forall w | 0 <= w < c.workers :: s.workers[w] == Idle)
    && s.inFlight == {}
    && s.next == (map id | id in Ids(c) :: s.clock)
    && s.breaker == map[] && s.calls == [] && s.handed == [] && s.abandoned == multiset{}
    && InTime(s.log, s.clock)
  }

  predicate CheckedUpTo(log: Mem.Log, e: string, t: Time) {
    var history := Mem.History(log, e);
    forall i | 0 <= i < |history| :: history[i].checkedAt <= t
  }

  /** Per endpoint, check times are in recording order and not after `clock`. */
  ghost predicate InTime(log: Mem.Log, clock: Time) {
    forall e :: Timeline.Chronological(Mem.History(log, e)) && CheckedUpTo(log, e, clock)
  }

  // ---- Steps of the scheduling loop ----

  datatype MainStep =
    | SeeCancel            // the context's case of either select
    | ReceiveDone
    | Tick(current: Time)  // a tick that may be processed late
    | Skip                 // endpoint in flight or not due
    | Enqueue
    | HandOff(w: nat)      // an unbuffered queue passes the job straight to a receiving worker
    | Drop                 // queue full
    | EndScan
    | Close
    | Return

  predicate Due(c: Config, s: Service)
    requires s.main.Scanning? && s.main.index < |c.endpoints|
  {
    var e := c.endpoints[s.main.index];
    e.id !in s.inFlight && s.main.current >= NextOf(s, e.id)
  }

  predicate AtEndpoint(c: Config, s: Service) {
    s.main.Scanning? && s.main.index < |c.endpoints|
  }

  predicate MainEnabled(c: Config, s: Service, m: MainStep) {
    match m
    case SeeCancel => s.cancelled && (s.main == Selecting || (AtEndpoint(c, s) && Due(c, s)))
    case ReceiveDone => s.main == Selecting && s.done != []
    case Tick(current) => s.main == Selecting && 0 < current <= s.clock
    case Skip => AtEndpoint(c, s) && !Due(c, s)
    case Enqueue => AtEndpoint(c, s) && Due(c, s) && |s.jobs| < c.queueSize
    case HandOff(w) => AtEndpoint(c, s) && Due(c, s) && c.queueSize == 0 && w < |s.workers| && s.workers[w] == Idle
    case Drop => AtEndpoint(c, s) && Due(c, s) && |s.jobs| >= c.queueSize && !s.cancelled
    case EndScan => s.main.Scanning? && s.main.index >= |c.endpoints|
    case Close => s.main == Closing
    case Return => s.main == Waiting && forall w | 0 <= w < |s.workers| :: s.workers[w] == Exited
  }

  function NextIndex(m: MainPhase): MainPhase
    requires m.Scanning?
  {
    m.(index := m.index + 1)
  }

  function MainApply(c: Config, s: Service, m: MainStep): Service
    requires MainEnabled(c, s, m)
  {
    match m
    case SeeCancel => s.(main := Closing)
    case ReceiveDone =>
      var id := s.done[0];
      s.(done := s.done[1..], inFlight := s.inFlight - {id},
         next := s.next[id := s.clock + IntervalOf(c.endpoints, id)])
    case Tick(current) => s.(main := Scanning(current, 0))
    case Skip => s.(main := NextIndex(s.main))
    case Enqueue =>
      var id := c.endpoints[s.main.index].id;
      s.(jobs := s.jobs + [id], inFlight := s.inFlight + {id}, main := NextIndex(s.main))
    case HandOff(w) =>
      var id := c.endpoints[s.main.index].id;
      s.(workers := s.workers[w := Acquiring(id)], inFlight := s.inFlight + {id}, main := NextIndex(s.main))
    case Drop =>
      var e := c.endpoints[s.main.index];
      s.(next := s.next[e.id := s.main.current + e.interval], main := NextIndex(s.main))
    case EndScan => s.(main := Selecting)
    case Close => s.(closed := true, main := Waiting)
    case Return => s.(main := Returned)
  }

  // ---- Steps of a worker ----

  datatype WorkerStep =
    | TakeJob
    | Exit                              // queue closed and drained
    | Acquire
    | SkipCheck                         // cancelled while waiting for the semaphore
    | ReadClock
    | Decide(inMaintenance: bool)
    | Respond(result: CheckResult)      // the retried check comes back
    | Resolve
    | Store
    | StoreFails                        // the store reports an error; the result is lost
    | Release
    | Report
    | Abandon                           // cancelled while reporting

  // What the executor is assumed to return.
  predicate Response(s: Service, p: Phase, r: CheckResult)
    requires p.Checking?
  {
    && r.endpointID == p.ep
    && (r.state == Healthy || r.state == Degraded || r.state == Unavailable)
    && p.now <= r.checkedAt <= s.clock
    && r.attemptCount >= 1
    && !r.circuitBreakerOpen
  }

  predicate WorkerEnabled(c: Config, s: Service, w: nat, step: WorkerStep) {
    && w < |s.workers|
    && var p := s.workers[w];
       match step
       case TakeJob => p == Idle && s.jobs != []
       case Exit => p == Idle && s.jobs == [] && s.closed
       case Acquire => p.Acquiring? && s.semaphore < c.limit
       case SkipCheck => p.Acquiring? && s.cancelled
       case ReadClock => p.Entering?
       case Decide(_) => p.Deciding?
       case Respond(r) => p.Checking? && Response(s, p, r)
       case Resolve => p.Resolving?
       case Store => p.Recording?
       case StoreFails => p.Recording?
       case Release => p.Releasing? && s.semaphore > 0
       case Report => p.Reporting? && |s.done| < DoneCapacity(c)
       case Abandon => p.Reporting? && s.cancelled
  }

  function MaintenanceResult(ep: string, now: Time): CheckResult {
    CheckResult(0, ep, now, Maintenance, 0, 0, false, "endpoint is in a configured maintenance window", "")
  }

  function SkippedResult(ep: string, now: Time): CheckResult {
    CheckResult(0, ep, now, Unavailable, 0, 0, true, "circuit breaker is open",
                "check skipped while circuit breaker is open")
  }

  /** One call on the breaker, remembered in the history. */
  function CallBreaker(c: Config, s: Service, call: Circuit.Call): Service {
    s.(breaker := Circuit.Step(c.threshold, c.cooldown, s.breaker, call), calls := s.calls + [call])
  }

  predicate Permitted(c: Config, s: Service, ep: string, now: Time) {
    Circuit.Grants(Circuit.ItemOf(s.breaker, ep), c.cooldown, now)
  }

  function Move(s: Service, w: nat, p: Phase): Service
    requires w < |s.workers|
  {
    s.(workers := s.workers[w := p])
  }

  // Maintenance skips the check; otherwise the breaker is asked, at the clock reading taken
  // when the check began.
  function ApplyDecide(c: Config, s: Service, w: nat, inMaintenance: bool): Service
    requires w < |s.workers| && s.workers[w].Deciding?
  {
    var p := s.workers[w];
    if inMaintenance then Move(s, w, Recording(p.ep, MaintenanceResult(p.ep, p.now)))
    else
      var asked := CallBreaker(c, s, Circuit.Allow(p.ep, p.now));
      var answer := if Permitted(c, s, p.ep, p.now)
                    then Checking(p.ep, p.now, Circuit.Open(Circuit.ItemOf(s.breaker, p.ep)))
                    else Recording(p.ep, SkippedResult(p.ep, p.now));
      Move(asked, w, answer)
  }

  // Every permitted check is followed by exactly one Failure or Success.
  function ApplyResolve(c: Config, s: Service, w: nat): Service
    requires w < |s.workers| && s.workers[w].Resolving?
  {
    var p := s.workers[w];
    if p.result.state == Unavailable then
      var told := CallBreaker(c, s, Circuit.Failure(p.ep, p.now));
      var tripped := Circuit.ItemOf(told.breaker, p.ep).failures >= c.threshold;
      Move(told, w, Recording(p.ep, p.result.(circuitBreakerOpen := tripped)))
    else
      Move(CallBreaker(c, s, Circuit.Success(p.ep)), w, Recording(p.ep, p.result))
  }

  function WorkerApply(c: Config, s: Service, w: nat, step: WorkerStep): Service
    requires WorkerEnabled(c, s, w, step)
  {
    var p := s.workers[w];
    match step
    case TakeJob => Move(s, w, Acquiring(s.jobs[0])).(jobs := s.jobs[1..])
    case Exit => Move(s, w, Exited)
    case Acquire => Move(s, w, Entering(p.ep)).(semaphore := s.semaphore + 1)
    case SkipCheck => Move(s, w, Reporting(p.ep))
    case ReadClock => Move(s, w, Deciding(p.ep, s.clock))
    case Decide(inMaintenance) => ApplyDecide(c, s, w, inMaintenance)
    case Respond(r) => Move(s, w, Resolving(p.ep, r, s.clock, p.probe))
    case Resolve => ApplyResolve(c, s, w)
    case Store =>
      var write := Timeline.Write(p.result, c.dedupeWindow);
      Move(s, w, Releasing(p.ep)).(log := Mem.Record(s.log, write), handed := s.handed + [Handed(write, true)])
    case StoreFails =>
      var write := Timeline.Write(p.result, c.dedupeWindow);
      Move(s, w, Releasing(p.ep)).(handed := s.handed + [Handed(write, false)])
    case Release => Move(s, w, Reporting(p.ep)).(semaphore := s.semaphore - 1)
    case Report => Move(s, w, Idle).(done := s.done + [p.ep])
    case Abandon => Move(s, w, Exited).(abandoned := s.abandoned + multiset{p.ep})
  }

  // ---- The whole service ----

  datatype Action =
    | Advance(to: Time)
    | Cancel
    | Main(m: MainStep)
    | Worker(w: nat, step: WorkerStep)

  predicate Enabled(c: Config, s: Service, a: Action) {
    match a
    case Advance(to) => to >= s.clock
    case Cancel => true
    case Main(m) => MainEnabled(c, s, m)
    case Worker(w, step) => WorkerEnabled(c, s, w, step)
  }

  function Apply(c: Config, s: Service, a: Action): Service
    requires Enabled(c, s, a)
  {
    match a
    case Advance(to) => s.(clock := to)
    case Cancel => s.(cancelled := true)
    case Main(m) => MainApply(c, s, m)
    case Worker(w, step) => WorkerApply(c, s, w, step)
  }

  /** states[0] is initial and each action leads from one state to the next. */
  ghost predicate IsRun(c: Config, states: seq<Service>, actions: seq<Action>) {
    && |states| == |actions| + 1
    && Init(c, states[0])
    && forall i | 0 <= i < |actions| :: StepAt(c, states, actions, i)
  }

  predicate StepAt(c: Config, states: seq<Service>, actions: seq<Action>, i: nat)
    requires i < |actions| < |states|
  {
    Enabled(c, states[i], actions[i]) && states[i + 1] == Apply(c, states[i], actions[i])
  }
}
