// What the breaker, the check protocol and the store keep together over every run: a single
// half-open probe, circuits that never get stuck, skipped checks only of unavailable
// endpoints, and results stored in the order they were checked.
module Probes {
  import opened Domain
  import opened Scheduler
  import opened Streaks
  import Circuit
  import Timeline
  import Tokens
  import Mem = MemoryStore

  /** The newest verdict on an endpoint, Maintenance aside. */
  function LastVerdict(history: seq<CheckResult>): Option<State> {
    if history == [] then None
    else
      var last := history[|history| - 1];
      if last.state != Maintenance then Some(last.state) else LastVerdict(history[..|history| - 1])
  }

  function VerdictAfter(verdict: Option<State>, state: State): Option<State> {
    if state == Maintenance then verdict else Some(state)
  }

  function ItemAt(s: Service, id: string): Circuit.Item {
    Circuit.ItemOf(s.breaker, id)
  }

  function VerdictOn(s: Service, id: string): Option<State> {
    LastVerdict(Mem.History(s.log, id))
  }

  predicate CalledUpTo(calls: seq<Circuit.Call>, id: string, t: Time) {
    forall i | 0 <= i < |calls| && calls[i].key == id && !calls[i].Success? :: calls[i].now <= t
  }

  // ---- What each worker knows about its endpoint ----

  /** Nothing on record about the endpoint is later than the clock reading `now`. */
  predicate Fresh(s: Service, id: string, now: Time) {
    CheckedUpTo(s.log, id, now) && CalledUpTo(s.calls, id, now) && 0 < now <= s.clock
  }

  /** Every failure the breaker counts was handed to the store, in the trailing run of outages. */
  predicate FailingIsKnown(s: Service, id: string) {
    ItemAt(s, id).failures <= Streak(s.handed, id)
  }

  predicate Testing(s: Service, id: string, probe: bool) {
    && ItemAt(s, id).halfOpen == probe == Circuit.Open(ItemAt(s, id))
    && FailingIsKnown(s, id)
  }

  predicate Skipped(r: CheckResult) {
    r.state == Unavailable && r.attemptCount == 0
  }

  /** A maintenance notice, a skipped check, or the outcome of at least one attempt. */
  predicate OfKnownKind(r: CheckResult) {
    match r.state
    case Maintenance => r.attemptCount == 0 && !r.circuitBreakerOpen
    case Unavailable => r.attemptCount >= 1 || (r.attemptCount == 0 && r.circuitBreakerOpen)
    case Unknown => false
    case _ => r.attemptCount >= 1
  }

  predicate WorkerOk(s: Service, p: Phase) {
    match p
    case Deciding(id, now) => Fresh(s, id, now)
    case Checking(id, now, probe) => Fresh(s, id, now) && Testing(s, id, probe)
    case Resolving(id, r, now, probe) =>
      && Fresh(s, id, now) && Testing(s, id, probe)
      && r.endpointID == id && r.attemptCount >= 1 && !r.circuitBreakerOpen
      && (r.state == Healthy || r.state == Degraded || r.state == Unavailable)
      && CheckedUpTo(s.log, id, r.checkedAt) && r.checkedAt <= now
    case Recording(id, r) =>
      && r.endpointID == id
      && CheckedUpTo(s.log, id, r.checkedAt) && r.checkedAt <= s.clock
      && !ItemAt(s, id).halfOpen
      && ItemAt(s, id).failures <= Streak(s.handed, id) + (if r.state == Unavailable then 1 else 0)
      && (r.state == Healthy || r.state == Degraded ==> ItemAt(s, id).failures <= 0)
      && (Skipped(r) ==> 0 < ItemAt(s, id).failures <= Streak(s.handed, id))
      && OfKnownKind(r)
      && (r.state != Maintenance ==> r.circuitBreakerOpen == Circuit.Open(ItemAt(s, id)))
    case _ => true
  }

  predicate Touches(p: Phase, id: string) {
    (p.Checking? || p.Resolving? || p.Recording?) && p.ep == id
  }

  predicate Engaged(s: Service, id: string) {
    exists w | 0 <= w < |s.workers| :: Touches(s.workers[w], id)
  }

  /** What holds of an endpoint no worker is checking. */
  predicate Quiet(s: Service, id: string) {
    !ItemAt(s, id).halfOpen && FailingIsKnown(s, id)
  }

  ghost predicate KeyOk(s: Service, id: string) {
    && Circuit.ClockMonotone(s.calls, id)
    && CalledUpTo(s.calls, id, s.clock)
    && (!Engaged(s, id) ==> Quiet(s, id))
  }

  ghost predicate Inv(c: Config, s: Service) {
    && Tokens.Inv(c, s)
    && s.breaker == Circuit.Replay(c.threshold, c.cooldown, s.calls)
    && s.clock > 0 && InTime(s.log, s.clock)
    && (forall w | 0 <= w < |s.workers| :: WorkerOk(s, s.workers[w]))
    && (forall id :: KeyOk(s, id))
  }

  lemma InitInv(c: Config, s: Service)
    requires Init(c, s)
    ensures Inv(c, s)
  {
    Tokens.InitInv(c, s);
  }

  // ---- Steps elsewhere leave an endpoint's facts alone ----

  /** The record of one endpoint is untouched and the clock has not gone back. */
  predicate SameRecord(s: Service, after: Service, id: string) {
    && ItemAt(after, id) == ItemAt(s, id)
    && Mem.History(after.log, id) == Mem.History(s.log, id)
    && Streak(after.handed, id) == Streak(s.handed, id)
    && after.clock >= s.clock
    && (after.calls == s.calls
        || (|after.calls| == |s.calls| + 1 && after.calls[..|s.calls|] == s.calls && after.calls[|s.calls|].key != id))
  }

  lemma CallsElsewhere(calls: seq<Circuit.Call>, call: Circuit.Call, id: string, t: Time)
    requires call.key != id
    ensures CalledUpTo(calls, id, t) ==> CalledUpTo(calls + [call], id, t)
    ensures Circuit.ClockMonotone(calls, id) ==> Circuit.ClockMonotone(calls + [call], id)
  {}

  lemma WorkerUndisturbed(s: Service, after: Service, p: Phase)
    requires WorkerOk(s, p)
    requires p != Idle && p != Exited ==> SameRecord(s, after, p.ep)
    ensures WorkerOk(after, p)
  {
    if p != Idle && p != Exited && after.calls != s.calls {
      var n := |s.calls|;
      assert after.calls == s.calls + [after.calls[n]];
      if p.Deciding? || p.Checking? || p.Resolving? {
        CallsElsewhere(s.calls, after.calls[n], p.ep, p.now);
      }
    }
  }

  lemma KeyUndisturbed(s: Service, after: Service, id: string)
    requires KeyOk(s, id) && SameRecord(s, after, id)
    requires !Engaged(after, id) ==> !Engaged(s, id)
    ensures KeyOk(after, id)
  {
    if after.calls != s.calls {
      var n := |s.calls|;
      assert after.calls == s.calls + [after.calls[n]];
      CallsElsewhere(s.calls, after.calls[n], id, s.clock);
    }
  }

  // Steps that leave breaker and log alone and do not start or end a check.
  lemma QuietStepKeepsInv(c: Config, s: Service, after: Service)
    requires Inv(c, s) && Tokens.Inv(c, after)
    requires after.breaker == s.breaker && after.calls == s.calls
    requires after.log == s.log && after.handed == s.handed
    requires after.clock >= s.clock && |after.workers| == |s.workers|
    requires forall w | 0 <= w < |s.workers| && after.workers[w] != s.workers[w] ::
      WorkerOk(after, after.workers[w])
    requires forall id :: Engaged(s, id) ==> Engaged(after, id)
    ensures Inv(c, after)
  {
    forall id
      ensures Timeline.Chronological(Mem.History(after.log, id)) && CheckedUpTo(after.log, id, after.clock)
    {
      assert CheckedUpTo(s.log, id, s.clock);
    }
    forall w | 0 <= w < |after.workers|
      ensures WorkerOk(after, after.workers[w])
    {
      if after.workers[w] == s.workers[w] {
        WorkerUndisturbed(s, after, s.workers[w]);
      }
    }
    forall id
      ensures KeyOk(after, id)
    {
      assert KeyOk(s, id);
      KeyUndisturbed(s, after, id);
    }
  }

  // A worker that was not inside a check stays so: whoever is engaged is someone else.
  lemma EngagedSurvives(s: Service, after: Service, w: nat)
    requires w < |s.workers| == |after.workers| && after.workers == s.workers[w := after.workers[w]]
    requires s.workers[w] != Idle && s.workers[w] != Exited && Touches(s.workers[w], s.workers[w].ep) ==>
      Touches(after.workers[w], s.workers[w].ep)
    ensures forall id :: Engaged(s, id) ==> Engaged(after, id)
  {
    forall id | Engaged(s, id)
      ensures Engaged(after, id)
    {
      var v :| 0 <= v < |s.workers| && Touches(s.workers[v], id);
      assert Touches(after.workers[v], id);
    }
  }

  lemma MainKeepsInv(c: Config, s: Service, m: MainStep)
    requires Inv(c, s) && MainEnabled(c, s, m)
    ensures Inv(c, MainApply(c, s, m))
  {
    var after := MainApply(c, s, m);
    Tokens.MainKeepsInv(c, s, m);
    if m.HandOff? {
      EngagedSurvives(s, after, m.w);
    } else {
      assert after.workers == s.workers;
      assert forall id :: Engaged(s, id) ==> Engaged(after, id);
    }
    QuietStepKeepsInv(c, s, after);
  }

  // ---- Steps that change one endpoint's record ----

  // Worker `w` made one step on its endpoint's record; every other endpoint's is untouched.
  lemma RecordStepKeepsInv(c: Config, s: Service, after: Service, w: nat)
    requires Inv(c, s) && Tokens.Inv(c, after)
    requires w < |s.workers| && s.workers[w] != Idle && s.workers[w] != Exited
    requires |after.workers| == |s.workers| && after.workers == s.workers[w := after.workers[w]]
    requires after.breaker == Circuit.Replay(c.threshold, c.cooldown, after.calls)
    requires after.workers[w] != Idle && after.workers[w] != Exited && after.workers[w].ep == s.workers[w].ep
    requires after.clock == s.clock
    requires forall id | id != s.workers[w].ep :: SameRecord(s, after, id)
    requires Timeline.Chronological(Mem.History(after.log, s.workers[w].ep))
    requires CheckedUpTo(after.log, s.workers[w].ep, after.clock)
    requires WorkerOk(after, after.workers[w])
    requires KeyOk(after, s.workers[w].ep)
    ensures Inv(c, after)
  {
    var e := s.workers[w].ep;
    forall id
      ensures Timeline.Chronological(Mem.History(after.log, id)) && CheckedUpTo(after.log, id, after.clock)
    {
      assert Timeline.Chronological(Mem.History(s.log, id)) && CheckedUpTo(s.log, id, s.clock);
      assert id != e ==> SameRecord(s, after, id);
    }
    forall v | 0 <= v < |after.workers|
      ensures WorkerOk(after, after.workers[v])
    {
      if v != w {
        if s.workers[v] != Idle && s.workers[v] != Exited && s.workers[v].ep == e {
          Tokens.HoldersDiffer(c, s, v, w, e);
        }
        WorkerUndisturbed(s, after, s.workers[v]);
      }
    }
    forall id
      ensures KeyOk(after, id)
    {
      if id != e {
        assert KeyOk(s, id);
        if Engaged(s, id) {
          var v :| 0 <= v < |s.workers| && Touches(s.workers[v], id);
          assert Touches(after.workers[v], id);
        }
        KeyUndisturbed(s, after, id);
      }
    }
  }

  // A worker not yet checking its endpoint finds it quiet: nobody else is checking it either.
  lemma OnlyMine(c: Config, s: Service, w: nat)
    requires Inv(c, s) && w < |s.workers|
    requires s.workers[w] != Idle && s.workers[w] != Exited && !Touches(s.workers[w], s.workers[w].ep)
    ensures Quiet(s, s.workers[w].ep)
  {
    var e := s.workers[w].ep;
    assert KeyOk(s, e);
    if Engaged(s, e) {
      var v :| 0 <= v < |s.workers| && Touches(s.workers[v], e);
      Tokens.HoldersDiffer(c, s, v, w, e);
    }
  }

  lemma BreakerCallLocal(c: Config, s: Service, call: Circuit.Call, id: string)
    requires id != call.key
    ensures SameRecord(s, CallBreaker(c, s, call), id)
  {}

  lemma BreakerCallReplays(c: Config, s: Service, call: Circuit.Call)
    requires s.breaker == Circuit.Replay(c.threshold, c.cooldown, s.calls)
    ensures
      var after := CallBreaker(c, s, call);
      after.breaker == Circuit.Replay(c.threshold, c.cooldown, after.calls)
  {
    assert (s.calls + [call])[..|s.calls + [call]| - 1] == s.calls;
  }

  // A call timed at a fresh clock reading keeps the endpoint's calls in order.
  lemma BreakerCallInOrder(s: Service, call: Circuit.Call)
    requires Circuit.ClockMonotone(s.calls, call.key)
    requires !call.Success? ==> CalledUpTo(s.calls, call.key, call.now) && call.now <= s.clock
    requires CalledUpTo(s.calls, call.key, s.clock)
    ensures Circuit.ClockMonotone(s.calls + [call], call.key)
    ensures CalledUpTo(s.calls + [call], call.key, s.clock)
    ensures !call.Success? ==> CalledUpTo(s.calls + [call], call.key, call.now)
  {}

  lemma OpenMeansFailing(c: Config, s: Service, id: string)
    requires s.breaker == Circuit.Replay(c.threshold, c.cooldown, s.calls)
    ensures Circuit.Open(ItemAt(s, id)) ==> ItemAt(s, id).failures > 0 && ItemAt(s, id).failures >= c.threshold
  {
    Circuit.MeaningOfFields(c.threshold, c.cooldown, s.calls, id);
  }

  // ---- Every worker step ----

  lemma MaintenanceKeepsInv(c: Config, s: Service, w: nat)
    requires Inv(c, s) && WorkerEnabled(c, s, w, Decide(true))
    ensures Inv(c, WorkerApply(c, s, w, Decide(true)))
  {
    var p := s.workers[w];
    assert WorkerOk(s, p) && KeyOk(s, p.ep);
    OnlyMine(c, s, w);
    MaintenanceWorkerOk(c, s, w);
    Tokens.WorkerKeepsInv(c, s, w, Decide(true));
    RecordStepKeepsInv(c, s, ApplyDecide(c, s, w, true), w);
  }

  lemma MaintenanceWorkerOk(c: Config, s: Service, w: nat)
    requires w < |s.workers| && s.workers[w].Deciding?
    requires WorkerOk(s, s.workers[w]) && Quiet(s, s.workers[w].ep) && KeyOk(s, s.workers[w].ep)
    ensures
      var p, after := s.workers[w], ApplyDecide(c, s, w, true);
      && |after.workers| == |s.workers| && after.workers == s.workers[w := after.workers[w]]
      && after.workers[w].Recording? && after.workers[w].ep == p.ep
      && after.log == s.log && after.handed == s.handed && after.clock == s.clock
      && after.calls == s.calls && after.breaker == s.breaker
      && WorkerOk(after, after.workers[w]) && KeyOk(after, p.ep)
  {
    assert Touches(ApplyDecide(c, s, w, true).workers[w], s.workers[w].ep);
  }

  /** Worker `w` made one call on the breaker about its endpoint, and moved on within the check. */
  predicate CallStep(c: Config, s: Service, w: nat, call: Circuit.Call, after: Service) {
    && w < |s.workers| == |after.workers|
    && s.workers[w] != Idle && s.workers[w] != Exited && s.workers[w].ep == call.key
    && after.workers == s.workers[w := after.workers[w]] && Touches(after.workers[w], call.key)
    && after.breaker == Circuit.Step(c.threshold, c.cooldown, s.breaker, call)
    && after.calls == s.calls + [call]
    && after.log == s.log && after.handed == s.handed && after.clock == s.clock
  }

  lemma CallStepKeepsInv(c: Config, s: Service, w: nat, call: Circuit.Call, after: Service)
    requires Inv(c, s) && Tokens.Inv(c, after) && CallStep(c, s, w, call, after)
    requires !call.Success? ==> CalledUpTo(s.calls, call.key, call.now) && call.now <= s.clock
    requires WorkerOk(after, after.workers[w])
    ensures Inv(c, after)
  {
    assert KeyOk(s, call.key);
    BreakerCallInOrder(s, call);
    BreakerCallReplays(c, s, call);
    forall id | id != call.key
      ensures SameRecord(s, after, id)
    {
      BreakerCallLocal(c, s, call, id);
    }
    RecordStepKeepsInv(c, s, after, w);
  }

  // The worker that asked knows afterwards whether its check is the probe.
  lemma AskedWorkerOk(c: Config, s: Service, w: nat)
    requires w < |s.workers| && s.workers[w].Deciding?
    requires WorkerOk(s, s.workers[w]) && Quiet(s, s.workers[w].ep)
    requires Circuit.Open(ItemAt(s, s.workers[w].ep)) ==> ItemAt(s, s.workers[w].ep).failures > 0
    ensures
      var p, after := s.workers[w], ApplyDecide(c, s, w, false);
      CallStep(c, s, w, Circuit.Allow(p.ep, p.now), after) && WorkerOk(after, after.workers[w])
  {
    var p := s.workers[w];
    assert CalledUpTo(s.calls + [Circuit.Allow(p.ep, p.now)], p.ep, p.now);
  }

  lemma AskKeepsInv(c: Config, s: Service, w: nat)
    requires Inv(c, s) && WorkerEnabled(c, s, w, Decide(false))
    ensures Inv(c, WorkerApply(c, s, w, Decide(false)))
  {
    var p := s.workers[w];
    assert WorkerOk(s, p);
    OnlyMine(c, s, w);
    OpenMeansFailing(c, s, p.ep);
    AskedWorkerOk(c, s, w);
    Tokens.WorkerKeepsInv(c, s, w, Decide(false));
    CallStepKeepsInv(c, s, w, Circuit.Allow(p.ep, p.now), ApplyDecide(c, s, w, false));
  }

  // The worker that reported to the breaker has cleared the probe.
  lemma ResolvedWorkerOk(c: Config, s: Service, w: nat) returns (call: Circuit.Call)
    requires w < |s.workers| && s.workers[w].Resolving? && WorkerOk(s, s.workers[w])
    requires Circuit.Open(ItemAt(s, s.workers[w].ep)) ==> ItemAt(s, s.workers[w].ep).failures >= c.threshold
    ensures call == Circuit.Success(s.workers[w].ep) || call == Circuit.Failure(s.workers[w].ep, s.workers[w].now)
    ensures
      var after := ApplyResolve(c, s, w);
      CallStep(c, s, w, call, after) && WorkerOk(after, after.workers[w])
  {
    var p := s.workers[w];
    if p.result.state == Unavailable {
      call := Circuit.Failure(p.ep, p.now);
    } else {
      call := Circuit.Success(p.ep);
    }
  }

  lemma ResolveKeepsInv(c: Config, s: Service, w: nat)
    requires Inv(c, s) && WorkerEnabled(c, s, w, Resolve)
    ensures Inv(c, WorkerApply(c, s, w, Resolve))
  {
    assert WorkerOk(s, s.workers[w]);
    OpenMeansFailing(c, s, s.workers[w].ep);
    var call := ResolvedWorkerOk(c, s, w);
    Tokens.WorkerKeepsInv(c, s, w, Resolve);
    CallStepKeepsInv(c, s, w, call, ApplyResolve(c, s, w));
  }

  lemma HistoryGrows(log: Mem.Log, call: Timeline.Write) returns (row: CheckResult)
    ensures row.state == call.result.state && row.checkedAt == call.result.checkedAt
    ensures
      var e := call.result.endpointID;
      Mem.History(Mem.Record(log, call), e) == Mem.History(log, e) + [row]
    ensures forall id | id != call.result.endpointID :: Mem.History(Mem.Record(log, call), id) == Mem.History(log, id)
  {
    row := call.result.(id := log.nextID);
  }

  lemma {:induction false} VerdictGrows(history: seq<CheckResult>, row: CheckResult)
    ensures LastVerdict(history + [row]) == VerdictAfter(LastVerdict(history), row.state)
  {
    assert (history + [row])[..|history + [row]| - 1] == history;
  }

  lemma StoredHistory(log: Mem.Log, call: Timeline.Write)
    requires Timeline.Chronological(Mem.History(log, call.result.endpointID))
    requires CheckedUpTo(log, call.result.endpointID, call.result.checkedAt)
    ensures
      var e, after := call.result.endpointID, Mem.Record(log, call);
      && Timeline.Chronological(Mem.History(after, e))
      && CheckedUpTo(after, e, call.result.checkedAt)
      && LastVerdict(Mem.History(after, e)) == VerdictAfter(LastVerdict(Mem.History(log, e)), call.result.state)
    ensures forall id | id != call.result.endpointID :: Mem.History(Mem.Record(log, call), id) == Mem.History(log, id)
  {
    var row := HistoryGrows(log, call);
    VerdictGrows(Mem.History(log, call.result.endpointID), row);
  }

  lemma StoreKeepsInv(c: Config, s: Service, w: nat)
    requires Inv(c, s) && WorkerEnabled(c, s, w, Store)
    ensures Inv(c, WorkerApply(c, s, w, Store))
  {
    var p := s.workers[w];
    assert WorkerOk(s, p) && KeyOk(s, p.ep);
    StoredKeyOk(c, s, w);
    forall id | id != p.ep
      ensures SameRecord(s, WorkerApply(c, s, w, Store), id)
    {
      StoredElsewhere(c, s, w, id);
    }
    Tokens.WorkerKeepsInv(c, s, w, Store);
    RecordStepKeepsInv(c, s, WorkerApply(c, s, w, Store), w);
  }

  // A verdict handed over explains whatever failures the breaker counts.
  lemma HandedIsQuiet(s: Service, after: Service, id: string, h: Handed)
    requires WorkerOk(s, Recording(id, h.write.result))
    requires after.breaker == s.breaker && after.handed == s.handed + [h]
    ensures Quiet(after, id)
  {
    StreakSnoc(s.handed, h, id);
  }

  lemma KeyStaysOk(s: Service, after: Service, id: string)
    requires KeyOk(s, id) && after.calls == s.calls && after.clock == s.clock && Quiet(after, id)
    ensures KeyOk(after, id)
  {}

  lemma StoredKeyOk(c: Config, s: Service, w: nat)
    requires WorkerEnabled(c, s, w, Store) && WorkerOk(s, s.workers[w]) && KeyOk(s, s.workers[w].ep)
    requires Timeline.Chronological(Mem.History(s.log, s.workers[w].ep))
    ensures
      var e, after := s.workers[w].ep, WorkerApply(c, s, w, Store);
      && KeyOk(after, e)
      && Timeline.Chronological(Mem.History(after.log, e)) && CheckedUpTo(after.log, e, after.clock)
  {
    var e, after := s.workers[w].ep, WorkerApply(c, s, w, Store);
    var write := Timeline.Write(s.workers[w].result, c.dedupeWindow);
    StoredHistory(s.log, write);
    HandedIsQuiet(s, after, e, Handed(write, true));
    KeyStaysOk(s, after, e);
  }

  lemma StoredElsewhere(c: Config, s: Service, w: nat, id: string)
    requires WorkerEnabled(c, s, w, Store) && WorkerOk(s, s.workers[w]) && id != s.workers[w].ep
    ensures SameRecord(s, WorkerApply(c, s, w, Store), id)
  {
    var write := Timeline.Write(s.workers[w].result, c.dedupeWindow);
    StreakSnoc(s.handed, Handed(write, true), id);
    var row := HistoryGrows(s.log, write);
  }

  lemma StoreFailsKeepsInv(c: Config, s: Service, w: nat)
    requires Inv(c, s) && WorkerEnabled(c, s, w, StoreFails)
    ensures Inv(c, WorkerApply(c, s, w, StoreFails))
  {
    var p := s.workers[w];
    assert WorkerOk(s, p) && KeyOk(s, p.ep);
    LostKeyOk(c, s, w);
    forall id | id != p.ep
      ensures SameRecord(s, WorkerApply(c, s, w, StoreFails), id)
    {
      StreakSnoc(s.handed, Handed(Timeline.Write(p.result, c.dedupeWindow), false), id);
    }
    Tokens.WorkerKeepsInv(c, s, w, StoreFails);
    RecordStepKeepsInv(c, s, WorkerApply(c, s, w, StoreFails), w);
  }

  // A lost verdict is remembered as lost.
  lemma LostKeyOk(c: Config, s: Service, w: nat)
    requires WorkerEnabled(c, s, w, StoreFails) && WorkerOk(s, s.workers[w]) && KeyOk(s, s.workers[w].ep)
    ensures
      var e, after := s.workers[w].ep, WorkerApply(c, s, w, StoreFails);
      KeyOk(after, e) && after.log == s.log
  {
    var e, after := s.workers[w].ep, WorkerApply(c, s, w, StoreFails);
    HandedIsQuiet(s, after, e, Handed(Timeline.Write(s.workers[w].result, c.dedupeWindow), false));
    KeyStaysOk(s, after, e);
  }

  lemma RespondKeepsInv(c: Config, s: Service, w: nat, r: CheckResult)
    requires Inv(c, s) && WorkerEnabled(c, s, w, Respond(r))
    ensures Inv(c, WorkerApply(c, s, w, Respond(r)))
  {
    var after, p := WorkerApply(c, s, w, Respond(r)), s.workers[w];
    Tokens.WorkerKeepsInv(c, s, w, Respond(r));
    assert WorkerOk(s, p) && KeyOk(s, p.ep);
    assert CheckedUpTo(s.log, p.ep, s.clock);
    assert WorkerOk(after, after.workers[w]);
    EngagedSurvives(s, after, w);
    QuietStepKeepsInv(c, s, after);
  }

  lemma ReadClockKeepsInv(c: Config, s: Service, w: nat)
    requires Inv(c, s) && WorkerEnabled(c, s, w, ReadClock)
    ensures Inv(c, WorkerApply(c, s, w, ReadClock))
  {
    var after, p := WorkerApply(c, s, w, ReadClock), s.workers[w];
    Tokens.WorkerKeepsInv(c, s, w, ReadClock);
    assert KeyOk(s, p.ep) && CheckedUpTo(s.log, p.ep, s.clock);
    EngagedSurvives(s, after, w);
    QuietStepKeepsInv(c, s, after);
  }

  lemma ChannelStepKeepsInv(c: Config, s: Service, w: nat, step: WorkerStep)
    requires Inv(c, s) && WorkerEnabled(c, s, w, step)
    requires step in {TakeJob, Exit, Acquire, SkipCheck, Release, Report, Abandon}
    ensures Inv(c, WorkerApply(c, s, w, step))
  {
    var after := WorkerApply(c, s, w, step);
    Tokens.WorkerKeepsInv(c, s, w, step);
    EngagedSurvives(s, after, w);
    QuietStepKeepsInv(c, s, after);
  }

  lemma WorkerKeepsInv(c: Config, s: Service, w: nat, step: WorkerStep)
    requires Inv(c, s) && WorkerEnabled(c, s, w, step)
    ensures Inv(c, WorkerApply(c, s, w, step))
  {
    match step
    case ReadClock => ReadClockKeepsInv(c, s, w);
    case Decide(m) =>
      if m {
        MaintenanceKeepsInv(c, s, w);
      } else {
        AskKeepsInv(c, s, w);
      }
    case Respond(r) => RespondKeepsInv(c, s, w, r);
    case Resolve => ResolveKeepsInv(c, s, w);
    case Store => StoreKeepsInv(c, s, w);
    case StoreFails => StoreFailsKeepsInv(c, s, w);
    case _ => ChannelStepKeepsInv(c, s, w, step);
  }

  lemma StepKeepsInv(c: Config, s: Service, a: Action)
    requires Inv(c, s) && Enabled(c, s, a)
    ensures Inv(c, Apply(c, s, a))
  {
    match a
    case Main(m) => MainKeepsInv(c, s, m);
    case Worker(w, step) => WorkerKeepsInv(c, s, w, step);
    case _ =>
      var after := Apply(c, s, a);
      Tokens.StepKeepsInv(c, s, a);
      assert forall id :: Engaged(s, id) ==> Engaged(after, id);
      QuietStepKeepsInv(c, s, after);
  }

  lemma {:induction false} RunKeepsInv(c: Config, states: seq<Service>, actions: seq<Action>, i: nat)
    requires IsRun(c, states, actions) && i < |states|
    ensures Inv(c, states[i])
  {
    if i == 0 {
      InitInv(c, states[0]);
    } else {
      RunKeepsInv(c, states, actions, i - 1);
      assert StepAt(c, states, actions, i - 1);
      StepKeepsInv(c, states[i - 1], actions[i - 1]);
    }
  }

  // ---- Theorems about every run ----

  predicate Probing(p: Phase, id: string) {
    (p.Checking? || p.Resolving?) && p.ep == id && p.probe
  }

  lemma HalfOpenIffProbing(c: Config, s: Service, id: string)
    requires Inv(c, s)
    ensures ItemAt(s, id).halfOpen <==> exists w | 0 <= w < |s.workers| :: Probing(s.workers[w], id)
  {
    assert KeyOk(s, id);
    if ItemAt(s, id).halfOpen {
      var w :| 0 <= w < |s.workers| && Touches(s.workers[w], id);
      assert WorkerOk(s, s.workers[w]);
      assert Probing(s.workers[w], id);
    }
    if w :| 0 <= w < |s.workers| && Probing(s.workers[w], id) {
      assert WorkerOk(s, s.workers[w]);
    }
  }

  // A circuit is half open exactly while one worker is inside a probe of its endpoint: there is
  // never a second probe, and no circuit is left half open with nobody probing.
  lemma HalfOpenMeansOneProbe(c: Config, states: seq<Service>, actions: seq<Action>, i: nat, id: string)
    requires IsRun(c, states, actions) && i < |states|
    ensures
      var s := states[i];
      && (ItemAt(s, id).halfOpen <==> exists w | 0 <= w < |s.workers| :: Probing(s.workers[w], id))
      && (forall v, w | 0 <= v < |s.workers| && 0 <= w < |s.workers|
            && Probing(s.workers[v], id) && Probing(s.workers[w], id) :: v == w)
  {
    RunKeepsInv(c, states, actions, i);
    var s := states[i];
    HalfOpenIffProbing(c, s, id);
    forall v, w | 0 <= v < |s.workers| && 0 <= w < |s.workers| && Probing(s.workers[v], id) && Probing(s.workers[w], id)
      ensures v == w
    {
      Tokens.HoldersDiffer(c, s, v, w, id);
    }
  }

  // Outside maintenance a check is refused exactly while its circuit is open and cooling down;
  // once the cooldown is over the next one is permitted.
  lemma NextCheckIsPermitted(c: Config, states: seq<Service>, actions: seq<Action>, i: nat, w: nat)
    requires IsRun(c, states, actions) && i < |states|
    requires w < |states[i].workers| && states[i].workers[w].Deciding?
    ensures
      var s, p := states[i], states[i].workers[w];
      var since := Circuit.OpenSince(c.threshold, s.calls, p.ep);
      Permitted(c, s, p.ep, p.now) <==> since == 0 || p.now - since >= c.cooldown
  {
    RunKeepsInv(c, states, actions, i);
    var s := states[i];
    OnlyMine(c, s, w);
    Circuit.MeaningOfFields(c.threshold, c.cooldown, s.calls, s.workers[w].ep);
  }

  lemma {:induction false} UnavailableOrMaintenance(history: seq<CheckResult>)
    requires LastVerdict(history) == Some(Unavailable)
    ensures history != [] && Timeline.LastState(history) in {Unavailable, Maintenance}
  {}

  // A skipped check is of an endpoint on which the newest verdicts handed to the store, at least
  // as many as open the circuit, were all Unavailable, whatever the store made of them.
  lemma SkippedAfterStreak(c: Config, states: seq<Service>, actions: seq<Action>, i: nat, w: nat)
    requires IsRun(c, states, actions) && i < |states|
    requires w < |states[i].workers| && states[i].workers[w].Deciding?
    requires !Permitted(c, states[i], states[i].workers[w].ep, states[i].workers[w].now)
    ensures
      var streak := Streak(states[i].handed, states[i].workers[w].ep);
      streak >= 1 && streak >= c.threshold
  {
    RunKeepsInv(c, states, actions, i);
    OnlyMine(c, states[i], w);
    OpenMeansFailing(c, states[i], states[i].workers[w].ep);
  }

  // The record of an endpoint holds the verdicts the store kept, on top of what it started with.
  lemma {:induction false} VerdictIsKept(c: Config, states: seq<Service>, actions: seq<Action>, i: nat, id: string)
    requires IsRun(c, states, actions) && i < |states|
    ensures VerdictOn(states[i], id) == KeptVerdict(states[i].handed, id, VerdictOn(states[0], id))
  {
    if i == 0 {
    } else {
      VerdictIsKept(c, states, actions, i - 1, id);
      var more, w := RunHands(c, states, actions, i - 1);
      if more.Some? {
        KeptVerdictSnoc(states[i - 1].handed, more.value, id, VerdictOn(states[0], id));
        VerdictAfterHanding(states[i - 1].log, more.value, id);
      }
    }
  }

  lemma {:induction false} VerdictAfterHanding(log: Mem.Log, h: Handed, id: string)
    ensures
      var after := if h.kept then Mem.Record(log, h.write) else log;
      LastVerdict(Mem.History(after, id))
        == if IsVerdict(h, id) && h.kept then Some(h.write.result.state) else LastVerdict(Mem.History(log, id))
  {
    if h.kept {
      var row := HistoryGrows(log, h.write);
      VerdictGrows(Mem.History(log, h.write.result.endpointID), row);
    }
  }

  // So when a check is skipped, the newest verdict on record is Unavailable exactly when the store
  // kept anything of that streak, or the record said so before it.
  lemma SkippedOnlyWhenUnavailable(c: Config, states: seq<Service>, actions: seq<Action>, i: nat, w: nat)
    requires IsRun(c, states, actions) && i < |states|
    requires w < |states[i].workers| && states[i].workers[w].Deciding?
    requires !Permitted(c, states[i], states[i].workers[w].ep, states[i].workers[w].now)
    ensures
      var e := states[i].workers[w].ep;
      && Streak(states[i].handed, e) >= 1 && Streak(states[i].handed, e) >= c.threshold
      && (VerdictOn(states[i], e) == Some(Unavailable)
          <==> OutageShows(states[i].handed, e, VerdictOn(states[0], e)))
  {
    var e := states[i].workers[w].ep;
    SkippedAfterStreak(c, states, actions, i, w);
    VerdictIsKept(c, states, actions, i, e);
    OutageShowsExactly(states[i].handed, e, VerdictOn(states[0], e));
  }

  // So hiding an outage takes at least as many lost verdicts as open the circuit.
  lemma HidingTakesLosses(c: Config, states: seq<Service>, actions: seq<Action>, i: nat, w: nat)
    requires IsRun(c, states, actions) && i < |states|
    requires w < |states[i].workers| && states[i].workers[w].Deciding?
    requires !Permitted(c, states[i], states[i].workers[w].ep, states[i].workers[w].now)
    requires VerdictOn(states[i], states[i].workers[w].ep) != Some(Unavailable)
    ensures
      var losses := Losses(states[i].handed, states[i].workers[w].ep);
      losses >= 1 && losses >= c.threshold
  {
    SkippedOnlyWhenUnavailable(c, states, actions, i, w);
    StreakTakesLosses(states[i].handed, states[i].workers[w].ep);
  }

  lemma {:induction false} VerdictOrMaintenance(history: seq<CheckResult>)
    ensures Timeline.LastState(history) == Maintenance
         || LastVerdict(history) == if history == [] then None else Some(Timeline.LastState(history))
  {}

  // Storing a skipped check makes a transition exactly out of Maintenance, or when the record does
  // not show the outage.
  lemma SkippedChecksChangeNothing(c: Config, states: seq<Service>, actions: seq<Action>, i: nat, w: nat)
    requires IsRun(c, states, actions) && i < |states|
    requires WorkerEnabled(c, states[i], w, Store) && Skipped(states[i].workers[w].result)
    ensures
      var s, e := states[i], states[i].workers[w].ep;
      && Streak(s.handed, e) >= 1
      && (Mem.NewTransition(s.log, s.workers[w].result).Some?
          <==> Timeline.LastState(Mem.History(s.log, e)) == Maintenance
               || !OutageShows(s.handed, e, VerdictOn(states[0], e)))
  {
    RunKeepsInv(c, states, actions, i);
    var s, e := states[i], states[i].workers[w].ep;
    assert WorkerOk(s, s.workers[w]);
    VerdictIsKept(c, states, actions, i, e);
    OutageShowsExactly(s.handed, e, VerdictOn(states[0], e));
    VerdictOrMaintenance(Mem.History(s.log, e));
  }

  // The flag stored with a result is the truth: outside maintenance it is set exactly when the
  // endpoint's circuit is open, by the calls made on it so far, and in maintenance it is not set.
  lemma BreakerFlagIsTruthful(c: Config, states: seq<Service>, actions: seq<Action>, i: nat, w: nat)
    requires IsRun(c, states, actions) && i < |states|
    requires WorkerEnabled(c, states[i], w, Store)
    ensures
      var s, r := states[i], states[i].workers[w].result;
      r.circuitBreakerOpen <==> r.state != Maintenance && Circuit.OpenSince(c.threshold, s.calls, r.endpointID) != 0
  {
    RunKeepsInv(c, states, actions, i);
    var s := states[i];
    assert WorkerOk(s, s.workers[w]);
    Circuit.MeaningOfFields(c.threshold, c.cooldown, s.calls, s.workers[w].ep);
  }

  // A maintenance window takes a check straight to its record, past breaker and executor: the only
  // change is a notice of the instant the check began, without attempts and without a flag.
  lemma MaintenanceBypasses(c: Config, states: seq<Service>, actions: seq<Action>, i: nat, w: nat)
    returns (r: CheckResult)
    requires IsRun(c, states, actions) && i < |actions| && actions[i] == Worker(w, Decide(true))
    ensures w < |states[i].workers| && states[i].workers[w].Deciding?
    ensures states[i + 1] == states[i].(workers := states[i].workers[w := Recording(states[i].workers[w].ep, r)])
    ensures r.endpointID == states[i].workers[w].ep && r.checkedAt == states[i].workers[w].now
    ensures r.state == Maintenance && r.attemptCount == 0 && r.latency == 0 && !r.circuitBreakerOpen
  {
    assert StepAt(c, states, actions, i);
    r := states[i + 1].workers[w].result;
  }

  // Outside maintenance the breaker is asked once, at the instant the check began. A refused check
  // goes to its record as a flagged outage without attempts; a permitted one goes to the executor.
  lemma BreakerDecides(c: Config, states: seq<Service>, actions: seq<Action>, i: nat, w: nat)
    requires IsRun(c, states, actions) && i < |actions| && actions[i] == Worker(w, Decide(false))
    ensures w < |states[i].workers| == |states[i + 1].workers| && states[i].workers[w].Deciding?
    ensures
      var s, p, after := states[i], states[i].workers[w], states[i + 1];
      && after.calls == s.calls + [Circuit.Allow(p.ep, p.now)] && after.log == s.log && after.handed == s.handed
      && after.workers == s.workers[w := after.workers[w]]
      && (Permitted(c, s, p.ep, p.now) ==> after.workers[w].Checking? && after.workers[w].now == p.now)
      && (!Permitted(c, s, p.ep, p.now) ==> after.workers[w].Recording? && IsRefusal(after.workers[w].result, p))
      && after.workers[w].ep == p.ep
  {
    assert StepAt(c, states, actions, i);
  }

  predicate IsRefusal(r: CheckResult, p: Phase)
    requires p.Deciding?
  {
    && r.endpointID == p.ep && r.checkedAt == p.now && r.state == Unavailable
    && r.attemptCount == 0 && r.latency == 0 && r.circuitBreakerOpen
  }

  // Everything handed to the store is a maintenance notice, a check skipped by an open circuit, or a
  // verdict reached in at least one attempt.
  lemma {:induction false} HandedKinds(c: Config, states: seq<Service>, actions: seq<Action>, i: nat)
    requires IsRun(c, states, actions) && i < |states|
    ensures forall h <- states[i].handed :: OfKnownKind(h.write.result)
  {
    if i == 0 {
    } else {
      HandedKinds(c, states, actions, i - 1);
      RunKeepsInv(c, states, actions, i - 1);
      var more, w := RunHands(c, states, actions, i - 1);
      if more.Some? {
        assert WorkerOk(states[i - 1], states[i - 1].workers[w]);
      }
    }
  }

  // Over a run of the whole service, two probes of an endpoint with no success between them
  // are at least the cooldown apart.
  lemma {:induction false} ProbesAreSpaced(c: Config, states: seq<Service>, actions: seq<Action>, n: nat, i: nat,
                                           j: nat)
    requires IsRun(c, states, actions) && n < |states|
    requires
      var calls := states[n].calls;
      && i < j < |calls| && calls[i].key == calls[j].key
      && Circuit.IsProbe(c.threshold, c.cooldown, calls, i)
      && Circuit.IsProbe(c.threshold, c.cooldown, calls, j)
      && forall m | i < m < j :: calls[m] != Circuit.Success(calls[i].key)
    ensures states[n].calls[j].now - states[n].calls[i].now >= c.cooldown
  {
    RunKeepsInv(c, states, actions, n);
    assert KeyOk(states[n], states[n].calls[i].key);
    Circuit.ProbeSpacing(c.threshold, c.cooldown, states[n].calls, i, j);
  }

  // ---- From runs of the service to runs of the store ----

  lemma OnlyStoreWrites(c: Config, s: Service, w: nat, step: WorkerStep)
    requires WorkerEnabled(c, s, w, step) && step != Store && step != StoreFails
    ensures WorkerApply(c, s, w, step).log == s.log && WorkerApply(c, s, w, step).handed == s.handed
  {}

  // One step hands the store one result, or none.
  lemma StepHands(c: Config, s: Service, a: Action) returns (more: Option<Handed>, w: nat)
    requires Enabled(c, s, a)
    ensures more.None? ==> Apply(c, s, a).log == s.log && Apply(c, s, a).handed == s.handed
    ensures more.Some? ==>
      && Apply(c, s, a).log == (if more.value.kept then Mem.Record(s.log, more.value.write) else s.log)
      && Apply(c, s, a).handed == s.handed + [more.value]
      && w < |s.workers| && s.workers[w].Recording?
      && more.value.write == Timeline.Write(s.workers[w].result, c.dedupeWindow)
  {
    more, w := None, 0;
    match a
    case Worker(v, step) =>
      if step == Store || step == StoreFails {
        more, w := Some(Handed(Timeline.Write(s.workers[v].result, c.dedupeWindow), step == Store)), v;
      } else {
        OnlyStoreWrites(c, s, v, step);
      }
    case _ =>
  }

  lemma RunHands(c: Config, states: seq<Service>, actions: seq<Action>, i: nat) returns (more: Option<Handed>, w: nat)
    requires IsRun(c, states, actions) && i < |actions|
    ensures more.None? ==> states[i + 1].log == states[i].log && states[i + 1].handed == states[i].handed
    ensures more.Some? ==>
      && states[i + 1].log == (if more.value.kept then Mem.Record(states[i].log, more.value.write) else states[i].log)
      && states[i + 1].handed == states[i].handed + [more.value]
      && w < |states[i].workers| && states[i].workers[w].Recording?
      && more.value.write == Timeline.Write(states[i].workers[w].result, c.dedupeWindow)
  {
    assert StepAt(c, states, actions, i);
    more, w := StepHands(c, states[i], actions[i]);
  }

  lemma {:induction false} KeptAfter(handed: seq<Handed>, h: Handed)
    ensures Kept(handed + [h]) == Kept(handed) + if h.kept then [h.write] else []
  {
    assert (handed + [h])[..|handed + [h]| - 1] == handed;
  }

  lemma {:induction false} ReplayAfter(handed: seq<Handed>, h: Handed)
    ensures Mem.Replay(Kept(handed + [h]))
         == if h.kept then Mem.Record(Mem.Replay(Kept(handed)), h.write) else Mem.Replay(Kept(handed))
  {
    var writes := Kept(handed);
    KeptAfter(handed, h);
    assert writes + [] == writes;
    assert (writes + [h.write])[..|writes + [h.write]| - 1] == writes;
  }

  lemma {:induction false} LogFollows(log: Mem.Log, handed: seq<Handed>, h: Handed)
    requires log == Mem.Replay(Kept(handed))
    ensures (if h.kept then Mem.Record(log, h.write) else log) == Mem.Replay(Kept(handed + [h]))
  {
    ReplayAfter(handed, h);
  }

  /** The log holds what recording the results the store kept, in order, yields. */
  predicate LogKnown(s: Service) {
    s.log == Mem.Replay(Kept(s.handed))
  }

  lemma RunKeepsLogKnown(c: Config, states: seq<Service>, actions: seq<Action>, i: nat)
    requires IsRun(c, states, actions) && i < |actions| && LogKnown(states[i])
    ensures LogKnown(states[i + 1])
  {
    var more, w := RunHands(c, states, actions, i);
    if more.Some? {
      LogFollows(states[i].log, states[i].handed, more.value);
    }
  }

  // So it does in every state of a service started on an empty store.
  lemma {:induction false} LogIsReplayed(c: Config, states: seq<Service>, actions: seq<Action>, i: nat)
    requires IsRun(c, states, actions) && i < |states| && states[0].log == Mem.NEW
    ensures LogKnown(states[i])
  {
    if i == 0 {
    } else {
      LogIsReplayed(c, states, actions, i - 1);
      RunKeepsLogKnown(c, states, actions, i - 1);
    }
  }

  lemma {:induction false} KeptWindows(c: Config, states: seq<Service>, actions: seq<Action>, i: nat)
    requires IsRun(c, states, actions) && i < |states|
    ensures forall write <- Kept(states[i].handed) :: write.window == c.dedupeWindow
  {
    if i == 0 {
    } else {
      KeptWindows(c, states, actions, i - 1);
      var more, w := RunHands(c, states, actions, i - 1);
      if more.Some? {
        KeptAfter(states[i - 1].handed, more.value);
      }
    }
  }

  lemma {:induction false} KeptKinds(handed: seq<Handed>)
    requires forall h <- handed :: OfKnownKind(h.write.result)
    ensures forall write <- Kept(handed) :: OfKnownKind(write.result)
  {
    if handed == [] {
    } else {
      var n := |handed| - 1;
      KeptKinds(handed[..n]);
      assert handed[n] in handed;
    }
  }

  // Nothing in state Unknown is ever stored.
  lemma {:induction false} NothingUnknown(c: Config, states: seq<Service>, actions: seq<Action>, i: nat)
    requires IsRun(c, states, actions) && i < |states|
    ensures forall write <- Kept(states[i].handed) :: write.result.state != Unknown
  {
    HandedKinds(c, states, actions, i);
    KeptKinds(states[i].handed);
  }
}
