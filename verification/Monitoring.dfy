// What a whole run of the service leaves in its store: the store's guarantees, with their
// assumption on the order of check times discharged by the scheduler.
module Monitoring {
  import opened Domain
  import opened Timeline
  import opened Rows
  import opened Slo
  import opened Spacing
  import opened StoreAgreement
  import opened Scheduler
  import Probes
  import Mem = MemoryStore

  lemma {:induction false} OwnWrites(writes: seq<Write>, endpointID: string)
    ensures forall c <- WritesOf(writes, endpointID) :: c in writes
  {
    if writes == [] {
    } else {
      OwnWrites(writes[..|writes| - 1], endpointID);
      assert forall c <- writes[..|writes| - 1] :: c in writes;
    }
  }

  // Started on an empty store, the service stores every endpoint's results in check-time order.
  lemma {:induction false} StoredInOrder(c: Config, states: seq<Service>, actions: seq<Action>, i: nat,
                                         endpointID: string)
    requires IsRun(c, states, actions) && i < |states| && states[0].log == Mem.NEW
    ensures
      var writes := WritesOf(Kept(states[i].handed), endpointID);
      && InOrder(writes)
      && Mem.TimelineOf(states[i].log, endpointID) == MemRun(writes)
      && forall write <- writes :: write.window == c.dedupeWindow
  {
    var all := Kept(states[i].handed);
    var writes := WritesOf(all, endpointID);
    Probes.RunKeepsInv(c, states, actions, i);
    Probes.LogIsReplayed(c, states, actions, i);
    Probes.KeptWindows(c, states, actions, i);
    Mem.ReplayIsPerEndpoint(all, endpointID);
    OwnWrites(all, endpointID);
    RunRecordsWrites(writes);
    var history := Mem.History(states[i].log, endpointID);
    Mem.BareAllKeeps(history);
    assert Chronological(history);
    forall j, k | 0 <= j < k < |writes|
      ensures writes[j].result.checkedAt <= writes[k].result.checkedAt
    {
      assert Bare(history[j]) == Bare(writes[j].result) && Bare(history[k]) == Bare(writes[k].result);
    }
  }

  // However the run is scheduled, an endpoint's transitions form one chain of real changes from
  // Unknown to its newest state, and its alerts of a state are a largest possible selection of
  // the results that deserve one with the dedupe window between them.
  lemma {:induction false} RunsLeaveSoundLogs(c: Config, states: seq<Service>, actions: seq<Action>, i: nat,
                           endpointID: string, state: State, chosen: set<nat>)
    requires IsRun(c, states, actions) && i < |states| && states[0].log == Mem.NEW
    requires Separated(Wanted(Mem.TimelineOf(states[i].log, endpointID).results, state), chosen, c.dedupeWindow)
    ensures
      var t := Mem.TimelineOf(states[i].log, endpointID);
      && Chained(t.transitions)
      && Reached(t.transitions) == LastState(t.results)
      && |chosen| <= |AlertTimes(t.alerts, state)|
  {
    StoredInOrder(c, states, actions, i, endpointID);
    var writes := WritesOf(Kept(states[i].handed), endpointID);
    TransitionsChain(writes);
    RunInOrder(writes);
    AlertsAreMaximal(writes, c.dedupeWindow, state, chosen);
  }

  lemma {:induction false} OwnResultsKnown(writes: seq<Write>, endpointID: string, history: seq<CheckResult>)
    requires forall write <- writes :: write.result.state != Unknown
    requires Mem.BareAll(history) == MemRun(WritesOf(writes, endpointID)).results
    ensures forall r <- history :: r.state != Unknown
  {
    var own := WritesOf(writes, endpointID);
    OwnWrites(writes, endpointID);
    RunRecordsWrites(own);
    Mem.BareAllKeeps(history);
    forall i | 0 <= i < |history|
      ensures history[i].state != Unknown
    {
      assert Bare(history[i]) == Bare(own[i].result) && own[i] in own;
    }
  }

  // On what the service stores, latency compliance counts what the documentation says: the
  // successes within the target.
  lemma {:induction false} LatencyAsDocumented(c: Config, states: seq<Service>, actions: seq<Action>, i: nat,
                                               endpointID: string, since: Time, latencyTarget: Duration)
    requires IsRun(c, states, actions) && i < |states| && states[0].log == Mem.NEW
    ensures
      var history := Mem.History(states[i].log, endpointID);
      CountsSince(history, since, latencyTarget).latencyGood == Tally(history, IsFastSuccess(since, latencyTarget))
  {
    var history := Mem.History(states[i].log, endpointID);
    StoredInOrder(c, states, actions, i, endpointID);
    Probes.NothingUnknown(c, states, actions, i);
    OwnResultsKnown(Kept(states[i].handed), endpointID, history);
    FastIsSuccessful(history, since, latencyTarget);
  }
}
