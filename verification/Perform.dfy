// One check from start to finish, as the goroutine that performs it runs it: the breaker's
// permission, the executor with its retries, the breaker's verdict and the record. The method
// works on the breaker and the store themselves; its contract says that it takes them where
// the worker steps of the step system do.
module Perform {
  import opened Domain
  import opened Scheduler
  import opened Retry
  import Circuit
  import Timeline
  import Mem = MemoryStore

  // ---- The same check as steps of a worker ----

  /** The worker has read the clock and learned whether it may go on. */
  function Decided(c: Config, s: Service, w: nat, inMaintenance: bool): (d: Service)
    requires w < |s.workers| && s.workers[w].Entering?
    ensures w < |d.workers| && (d.workers[w].Checking? || d.workers[w].Recording?)
  {
    ApplyDecide(c, WorkerApply(c, s, w, ReadClock), w, inMaintenance)
  }

  /** The executor's answer, if it was asked, comes at `done` and is one it may give. */
  predicate Answered(c: Config, s: Service, w: nat, inMaintenance: bool, answer: Option<CheckResult>, done: Time)
    requires w < |s.workers| && s.workers[w].Entering?
  {
    var d := Decided(c, s, w, inMaintenance);
    if d.workers[w].Checking? then answer.Some? && Response(d.(clock := done), d.workers[w], answer.value)
    else answer.None?
  }

  /** The executor has answered at `done` and the breaker has been told. */
  function Judged(c: Config, d: Service, w: nat, answer: CheckResult, done: Time): (t: Service)
    requires w < |d.workers| && d.workers[w].Checking?
    requires Response(d.(clock := done), d.workers[w], answer)
    ensures w < |t.workers| && t.workers[w].Recording?
  {
    ApplyResolve(c, WorkerApply(c, d.(clock := done), w, Respond(answer)), w)
  }

  /** The service after the whole check, its result recorded. */
  function Performed(c: Config, s: Service, w: nat, inMaintenance: bool, answer: Option<CheckResult>,
                     done: Time): Service
    requires w < |s.workers| && s.workers[w].Entering?
    requires Answered(c, s, w, inMaintenance, answer, done)
  {
    var d := Decided(c, s, w, inMaintenance);
    var told := if d.workers[w].Checking? then Judged(c, d, w, answer.value, done) else d;
    WorkerApply(c, told, w, Store)
  }

  // ---- The executor ----

  /** What the executor is assumed to return for a check begun at `now` and over by `done`. */
  predicate Meets(id: string, now: Time, done: Time, r: CheckResult) {
    && r.endpointID == id
    && (r.state == Healthy || r.state == Degraded || r.state == Unavailable)
    && now <= r.checkedAt <= done
    && !r.circuitBreakerOpen
  }

  // ---- Where the three ways through a check lead ----

  /** The worker steps of this check leave the breaker, its calls and the store like this. */
  predicate Leaves(c: Config, s: Service, w: nat, inMaintenance: bool, answer: Option<CheckResult>, done: Time,
                   breaker: Circuit.Items, calls: seq<Circuit.Call>, log: Mem.Log)
    requires w < |s.workers| && s.workers[w].Entering?
  {
    && Answered(c, s, w, inMaintenance, answer, done)
    && var after := Performed(c, s, w, inMaintenance, answer, done);
       after.breaker == breaker && after.calls == calls && after.log == log
  }

  function Recorded(c: Config, s: Service, result: CheckResult): Mem.Log {
    Mem.Record(s.log, Timeline.Write(result, c.dedupeWindow))
  }

  lemma MaintenanceLeaves(c: Config, s: Service, w: nat, done: Time)
    requires w < |s.workers| && s.workers[w].Entering?
    ensures Leaves(c, s, w, true, None, done, s.breaker, s.calls,
                   Recorded(c, s, MaintenanceResult(s.workers[w].ep, s.clock)))
  {}

  lemma RefusalLeaves(c: Config, s: Service, w: nat, done: Time)
    requires w < |s.workers| && s.workers[w].Entering? && !Permitted(c, s, s.workers[w].ep, s.clock)
    ensures
      var e := s.workers[w].ep;
      var asked := Circuit.Step(c.threshold, c.cooldown, s.breaker, Circuit.Allow(e, s.clock));
      Leaves(c, s, w, false, None, done, asked, s.calls + [Circuit.Allow(e, s.clock)],
             Recorded(c, s, SkippedResult(e, s.clock)))
  {}

  function Verdict(e: string, r: CheckResult, done: Time): Circuit.Call {
    if r.state == Unavailable then Circuit.Failure(e, done) else Circuit.Success(e)
  }

  function Flagged(r: CheckResult, tripped: bool): CheckResult {
    if r.state == Unavailable then r.(circuitBreakerOpen := tripped) else r
  }

  lemma AnswerLeaves(c: Config, s: Service, w: nat, r: CheckResult, done: Time)
    requires w < |s.workers| && s.workers[w].Entering? && Permitted(c, s, s.workers[w].ep, s.clock)
    requires Meets(s.workers[w].ep, s.clock, done, r) && r.attemptCount >= 1
    ensures
      var e := s.workers[w].ep;
      var asked := Circuit.Step(c.threshold, c.cooldown, s.breaker, Circuit.Allow(e, s.clock));
      var told := Circuit.Step(c.threshold, c.cooldown, asked, Verdict(e, r, done));
      Leaves(c, s, w, false, Some(r), done, told, s.calls + [Circuit.Allow(e, s.clock)] + [Verdict(e, r, done)],
             Recorded(c, s, Flagged(r, Circuit.ItemOf(told, e).failures >= c.threshold)))
  {
    GrantDecides(c, s, w);
    AnswerJudged(c, Decided(c, s, w, false), w, r, done);
    ResultStored(c, Judged(c, Decided(c, s, w, false), w, r, done), w);
  }

  lemma GrantDecides(c: Config, s: Service, w: nat)
    requires w < |s.workers| && s.workers[w].Entering? && Permitted(c, s, s.workers[w].ep, s.clock)
    ensures
      var e, d := s.workers[w].ep, Decided(c, s, w, false);
      && w < |d.workers| && d.workers[w] == Checking(e, s.clock, Circuit.Open(Circuit.ItemOf(s.breaker, e)))
      && d.breaker == Circuit.Step(c.threshold, c.cooldown, s.breaker, Circuit.Allow(e, s.clock))
      && d.calls == s.calls + [Circuit.Allow(e, s.clock)] && d.log == s.log
  {}

  lemma AnswerJudged(c: Config, d: Service, w: nat, r: CheckResult, done: Time)
    requires w < |d.workers| && d.workers[w].Checking? && Response(d.(clock := done), d.workers[w], r)
    ensures
      var e, t := d.workers[w].ep, Judged(c, d, w, r, done);
      && t.breaker == Circuit.Step(c.threshold, c.cooldown, d.breaker, Verdict(e, r, done))
      && t.calls == d.calls + [Verdict(e, r, done)] && t.log == d.log
      && w < |t.workers|
      && t.workers[w] == Recording(e, Flagged(r, Circuit.ItemOf(t.breaker, e).failures >= c.threshold))
  {}

  lemma ResultStored(c: Config, t: Service, w: nat)
    requires w < |t.workers| && t.workers[w].Recording?
    ensures
      var after := WorkerApply(c, t, w, Store);
      after.breaker == t.breaker && after.calls == t.calls && after.log == Recorded(c, t, t.workers[w].result)
  {}

  // ---- The check itself ----

  // What the breaker is told of an answered check, and the flag it sets on the result.
  method Tell(breaker: Circuit.CircuitBreaker, id: string, answer: CheckResult, done: Time)
    returns (result: CheckResult)
    requires breaker.Valid()
    modifies breaker
    ensures breaker.Valid() && breaker.history == old(breaker.history) + [Verdict(id, answer, done)]
    ensures breaker.items
         == Circuit.Step(breaker.threshold, breaker.cooldown, old(breaker.items), Verdict(id, answer, done))
    ensures result == Flagged(answer, Circuit.ItemOf(breaker.items, id).failures >= breaker.threshold)
  {
    result := answer;
    Circuit.ReplaySnoc(breaker.threshold, breaker.cooldown, breaker.history, Verdict(id, answer, done));
    if answer.state == Unavailable {
      Circuit.MeaningOfFields(breaker.threshold, breaker.cooldown, breaker.history + [Circuit.Failure(id, done)], id);
      var tripped := breaker.Failure(id, done);
      result := result.(circuitBreakerOpen := tripped);
    } else {
      breaker.Success(id);
    }
  }

  // Outside maintenance: the breaker is asked, and if it permits, the executor, with retries.
  method Consult(endpoint: Endpoint, breaker: Circuit.CircuitBreaker, now: Time, done: Time, base: Duration,
                 max: Duration, check: nat -> CheckResult, cancelled: nat -> Option<string>, draw: nat -> real)
    returns (answer: Option<CheckResult>, result: CheckResult)
    requires breaker.Valid() && endpoint.retries >= 0 && IsInt64(base) && IsInt64(max)
    requires forall i :: Meets(endpoint.id, now, done, check(i))
    modifies breaker
    ensures breaker.Valid()
    ensures answer.Some? == Circuit.Grants(Circuit.ItemOf(old(breaker.items), endpoint.id), breaker.cooldown, now)
    ensures
      var asked := Circuit.Allow(endpoint.id, now);
      var items := Circuit.Step(breaker.threshold, breaker.cooldown, old(breaker.items), asked);
      match answer
      case None =>
        && result == SkippedResult(endpoint.id, now)
        && breaker.items == items && breaker.history == old(breaker.history) + [asked]
      case Some(r) =>
        && Meets(endpoint.id, now, done, r) && 1 <= r.attemptCount <= endpoint.retries + 1
        && breaker.items == Circuit.Step(breaker.threshold, breaker.cooldown, items, Verdict(endpoint.id, r, done))
        && breaker.history == old(breaker.history) + [asked] + [Verdict(endpoint.id, r, done)]
        && result == Flagged(r, Circuit.ItemOf(breaker.items, endpoint.id).failures >= breaker.threshold)
  {
    Circuit.ReplaySnoc(breaker.threshold, breaker.cooldown, breaker.history, Circuit.Allow(endpoint.id, now));
    var granted := breaker.Allow(endpoint.id, now);
    if !granted {
      return None, SkippedResult(endpoint.id, now);
    }
    var runs, slept;
    answer, runs, slept := Retry.Retry(endpoint.retries, base, max, check, cancelled, draw);
    assert Meets(endpoint.id, now, done, check(runs - 1));
    result := Tell(breaker, endpoint.id, answer.value, done);
  }

  // A check run alone does what the worker's steps do, and makes at most one attempt more than
  // it has retries.
  method Perform(endpoint: Endpoint, breaker: Circuit.CircuitBreaker, store: Mem.Memory, dedupeWindow: Duration,
                 now: Time, done: Time, inMaintenance: bool, base: Duration, max: Duration,
                 check: nat -> CheckResult, cancelled: nat -> Option<string>, draw: nat -> real,
                 ghost c: Config, ghost s: Service, ghost w: nat)
    returns (answer: Option<CheckResult>, outcome: RecordOutcome)
    requires breaker.Valid() && endpoint.retries >= 0 && IsInt64(base) && IsInt64(max)
    requires forall i :: Meets(endpoint.id, now, done, check(i))
    requires c.threshold == breaker.threshold && c.cooldown == breaker.cooldown && c.dedupeWindow == dedupeWindow
    requires w < |s.workers| && s.workers[w] == Entering(endpoint.id) && s.clock == now
    requires s.breaker == breaker.items && s.calls == breaker.history && s.log == store.Contents()
    modifies breaker, store
    ensures breaker.Valid()
    ensures Leaves(c, s, w, inMaintenance, answer, done, breaker.items, breaker.history, store.Contents())
    ensures answer.Some? ==> 1 <= answer.value.attemptCount <= endpoint.retries + 1
  {
    var result: CheckResult;
    answer := None;
    if inMaintenance {
      result := MaintenanceResult(endpoint.id, now);
      MaintenanceLeaves(c, s, w, done);
    } else {
      answer, result := Consult(endpoint, breaker, now, done, base, max, check, cancelled, draw);
      if answer.None? {
        RefusalLeaves(c, s, w, done);
      } else {
        AnswerLeaves(c, s, w, answer.value, done);
      }
    }
    outcome := store.RecordResult(result, dedupeWindow);
  }
}
