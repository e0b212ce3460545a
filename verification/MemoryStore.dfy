// The in-memory result store: append-only logs, a shared id counter and a backwards scan for
// duplicate alerts.
module MemoryStore {
  import opened Domain
  import opened Timeline
  import opened Rows
  import opened Slo

  datatype Log = Log(
    results: map<string, seq<CheckResult>>,
    transitions: seq<Transition>,
    alerts: seq<Alert>,
    nextID: int)

  const NEW := Log(map[], [], [], 1)

  function History(log: Log, endpointID: string): seq<CheckResult> {
    if endpointID in log.results then log.results[endpointID] else []
  }

  function LastOf(log: Log, endpointID: string): Option<CheckResult> {
    var history := History(log, endpointID);
    if history == [] then None else Some(history[|history| - 1])
  }

  predicate Blocks(a: Alert, c: Write) {
    && a.dedupeKey == DedupeKey(c.result.endpointID, c.result.state)
    && c.result.checkedAt - a.createdAt < c.window
  }

  predicate Duplicate(alerts: seq<Alert>, c: Write) {
    exists a <- alerts :: Blocks(a, c)
  }

  function NewTransition(log: Log, r: CheckResult): Option<Transition> {
    var previous := LastState(History(log, r.endpointID));
    if previous != r.state then Some(ChangeRow(previous, r).(id := log.nextID + 1)) else None
  }

  function NewAlert(log: Log, c: Write): Option<Alert> {
    var r := c.result;
    var id := log.nextID + 1 + if NewTransition(log, r).Some? then 1 else 0;
    if AlertWorthy(LastState(History(log, r.endpointID)), r.state) && !Duplicate(log.alerts, c)
    then Some(AlertRow(r).(id := id)) else None
  }

  function Record(log: Log, c: Write): Log {
    var r := c.result;
    var transition, alert := NewTransition(log, r), NewAlert(log, c);
    Log(
      log.results[r.endpointID := History(log, r.endpointID) + [r.(id := log.nextID)]],
      log.transitions + ToSeq(transition),
      log.alerts + ToSeq(alert),
      log.nextID + 1 + |ToSeq(transition)| + |ToSeq(alert)|)
  }

  /** What recording a result comes to, in plain terms: which rows it adds, and when. */
  predicate PlainOutcome(log: Log, c: Write, outcome: RecordOutcome) {
    var r, before := c.result, History(log, c.result.endpointID);
    var previous := if before == [] then Unknown else before[|before| - 1].state;
    && (outcome.transition.Some? <==> previous != r.state)
    && (outcome.transition.Some? ==> IsTransition(outcome.transition.value, previous, r))
    && (outcome.alert.Some? <==>
          && (r.state == Degraded || r.state == Unavailable || (r.state == Healthy && previous != Healthy))
          && forall a <- log.alerts | a.dedupeKey == r.endpointID + ":" + r.state.Name() ::
               r.checkedAt - a.createdAt >= c.window)
    && (outcome.alert.Some? ==> IsAlert(outcome.alert.value, r))
  }

  lemma OutcomeIsPlain(log: Log, c: Write)
    ensures PlainOutcome(log, c, RecordOutcome(NewTransition(log, c.result), NewAlert(log, c)))
  {
    assert forall a <- log.alerts ::
      Blocks(a, c) <==> a.dedupeKey == DedupeKey(c.result.endpointID, c.result.state)
                        && c.result.checkedAt - a.createdAt < c.window;
  }

  function Replay(writes: seq<Write>): Log {
    if writes == [] then NEW else Record(Replay(writes[..|writes| - 1]), writes[|writes| - 1])
  }

  // ---- One endpoint's share of the logs ----

  function BareAll(results: seq<CheckResult>): seq<CheckResult> {
    if results == [] then [] else BareAll(results[..|results| - 1]) + [Bare(results[|results| - 1])]
  }

  function TimelineOf(log: Log, endpointID: string): Timeline {
    Timeline(BareAll(History(log, endpointID)),
             TransitionsOf(log.transitions, endpointID),
             AlertsOf(log.alerts, endpointID))
  }

  lemma {:induction false} BareAllSnoc(results: seq<CheckResult>, r: CheckResult)
    ensures BareAll(results + [r]) == BareAll(results) + [Bare(r)]
  {
    assert (results + [r])[..|results + [r]| - 1] == results;
  }

  lemma {:induction false} BareAllKeeps(results: seq<CheckResult>)
    ensures |BareAll(results)| == |results|
    ensures forall i | 0 <= i < |results| :: BareAll(results)[i] == Bare(results[i])
  {
    if results == [] {
    } else {
      BareAllKeeps(results[..|results| - 1]);
    }
  }

  // The scan by dedupe key sees exactly the endpoint's own alerts of that state.
  lemma {:induction false} DuplicateIsTooSoon(alerts: seq<Alert>, c: Write)
    requires KeysMatch(alerts)
    ensures Duplicate(alerts, c)
       <==> TooSoon(AlertsOf(alerts, c.result.endpointID), c.result.state, c.result.checkedAt, c.window)
  {
    var r := c.result;
    var own := AlertsOf(alerts, r.endpointID);
    if a :| a in alerts && Blocks(a, c) {
      KeyFindsOwnAlerts(alerts, r.endpointID, r.state, a.createdAt);
    }
    if a :| a in own && a.state == r.state && r.checkedAt - a.createdAt < c.window {
      KeyFindsOwnAlerts(alerts, r.endpointID, r.state, a.createdAt);
      var b :| b in alerts && b.dedupeKey == DedupeKey(r.endpointID, r.state) && b.createdAt == a.createdAt;
      assert Blocks(b, c);
    }
  }

  lemma {:induction false} LastStateOfBare(results: seq<CheckResult>)
    ensures LastState(BareAll(results)) == LastState(results)
  {
    BareAllKeeps(results);
  }

  lemma RecordKeepsKeys(log: Log, c: Write)
    requires KeysMatch(log.alerts)
    ensures KeysMatch(Record(log, c).alerts)
  {}

  lemma {:induction false} RecordedResults(log: Log, c: Write, endpointID: string)
    ensures BareAll(History(Record(log, c), endpointID))
         == BareAll(History(log, endpointID)) + if c.result.endpointID == endpointID then [Bare(c.result)] else []
  {
    var r := c.result;
    BareAllSnoc(History(log, r.endpointID), r.(id := log.nextID));
  }

  lemma {:induction false} RecordedTransitions(log: Log, c: Write, endpointID: string)
    ensures
      var r, previous := c.result, LastState(History(log, c.result.endpointID));
      TransitionsOf(Record(log, c).transitions, endpointID)
        == TransitionsOf(log.transitions, endpointID)
           + if r.endpointID == endpointID && previous != r.state then [ChangeRow(previous, r)] else []
  {
    TransitionsOfMore(log.transitions, NewTransition(log, c.result), c.result.endpointID, endpointID);
  }

  lemma {:induction false} RecordedAlerts(log: Log, c: Write, endpointID: string)
    requires KeysMatch(log.alerts)
    ensures
      var r, own := c.result, AlertsOf(log.alerts, endpointID);
      var wanted := AlertWorthy(LastState(History(log, r.endpointID)), r.state);
      AlertsOf(Record(log, c).alerts, endpointID)
        == own + if r.endpointID == endpointID && wanted && !TooSoon(own, r.state, r.checkedAt, c.window)
                 then [AlertRow(r)] else []
  {
    DuplicateIsTooSoon(log.alerts, c);
    AlertsOfMore(log.alerts, NewAlert(log, c), c.result.endpointID, endpointID);
  }

  // Recording touches one endpoint's timeline, by one step, and no other endpoint's.
  lemma RecordIsMemStep(log: Log, c: Write, endpointID: string)
    requires KeysMatch(log.alerts)
    ensures TimelineOf(Record(log, c), endpointID)
         == if c.result.endpointID == endpointID then MemStep(TimelineOf(log, endpointID), c)
            else TimelineOf(log, endpointID)
  {
    LastStateOfBare(History(log, c.result.endpointID));
    RecordedResults(log, c, endpointID);
    RecordedTransitions(log, c, endpointID);
    RecordedAlerts(log, c, endpointID);
  }

  lemma {:induction false} ReplayKeepsKeys(writes: seq<Write>)
    ensures KeysMatch(Replay(writes).alerts)
  {
    if writes == [] {
    } else {
      ReplayKeepsKeys(writes[..|writes| - 1]);
      RecordKeepsKeys(Replay(writes[..|writes| - 1]), writes[|writes| - 1]);
    }
  }

  // Whatever the interleaving of endpoints, each endpoint's rows are those its own results
  // alone would have produced.
  lemma {:induction false} ReplayIsPerEndpoint(writes: seq<Write>, endpointID: string)
    ensures TimelineOf(Replay(writes), endpointID) == MemRun(WritesOf(writes, endpointID))
  {
    if writes == [] {
    } else {
      var before, c := writes[..|writes| - 1], writes[|writes| - 1];
      ReplayIsPerEndpoint(before, endpointID);
      ReplayKeepsKeys(before);
      RecordIsMemStep(Replay(before), c, endpointID);
      if c.result.endpointID == endpointID {
        var own := WritesOf(writes, endpointID);
        assert own[..|own| - 1] == WritesOf(before, endpointID);
      } else {
        assert WritesOf(writes, endpointID) == WritesOf(before, endpointID);
      }
    }
  }

  // ---- Row ids ----

  datatype Slot = ResultSlot(endpointID: string, i: nat) | TransitionSlot(i: nat) | AlertSlot(i: nat)

  predicate Filled(log: Log, slot: Slot) {
    match slot
    case ResultSlot(e, i) => i < |History(log, e)|
    case TransitionSlot(i) => i < |log.transitions|
    case AlertSlot(i) => i < |log.alerts|
  }

  function IdIn(log: Log, slot: Slot): int
    requires Filled(log, slot)
  {
    match slot
    case ResultSlot(e, i) => History(log, e)[i].id
    case TransitionSlot(i) => log.transitions[i].id
    case AlertSlot(i) => log.alerts[i].id
  }

  ghost predicate IdsAreUnique(log: Log) {
    && (forall s | Filled(log, s) :: 1 <= IdIn(log, s) < log.nextID)
    && (forall s, t | Filled(log, s) && Filled(log, t) && IdIn(log, s) == IdIn(log, t) :: s == t)
  }

  lemma SlotIsOldOrNew(log: Log, c: Write, slot: Slot)
    requires Filled(Record(log, c), slot)
    ensures
      var r, after := c.result, Record(log, c);
      if Filled(log, slot) then IdIn(after, slot) == IdIn(log, slot)
      else
        && log.nextID <= IdIn(after, slot) < after.nextID
        && slot == (if IdIn(after, slot) == log.nextID then ResultSlot(r.endpointID, |History(log, r.endpointID)|)
                    else if NewTransition(log, r).Some? && IdIn(after, slot) == log.nextID + 1
                    then TransitionSlot(|log.transitions|)
                    else AlertSlot(|log.alerts|))
  {}

  // Results, transitions and alerts draw their ids from one counter: no two rows anywhere
  // share an id, and every id is below the counter.
  lemma {:induction false} ReplayIdsAreUnique(writes: seq<Write>)
    ensures IdsAreUnique(Replay(writes))
    ensures Replay(writes).nextID >= 1
  {
    if writes == [] {
    } else {
      var log, c := Replay(writes[..|writes| - 1]), writes[|writes| - 1];
      ReplayIdsAreUnique(writes[..|writes| - 1]);
      var after := Record(log, c);
      forall s | Filled(after, s)
        ensures 1 <= IdIn(after, s) < after.nextID
      {
        SlotIsOldOrNew(log, c, s);
      }
      forall s, t | Filled(after, s) && Filled(after, t) && IdIn(after, s) == IdIn(after, t)
        ensures s == t
      {
        SlotIsOldOrNew(log, c, s);
        SlotIsOldOrNew(log, c, t);
      }
    }
  }

  // ---- Newest-first transition pages ----

  predicate Selects(endpointID: string, t: Transition) {
    endpointID == "" || t.endpointID == endpointID
  }

  /** The transitions a query selects, oldest first. */
  function Selected(transitions: seq<Transition>, endpointID: string): seq<Transition> {
    if transitions == [] then []
    else
      var last := transitions[|transitions| - 1];
      Selected(transitions[..|transitions| - 1], endpointID) + if Selects(endpointID, last) then [last] else []
  }

  lemma {:induction false} SelectedStep(transitions: seq<Transition>, i: nat, endpointID: string)
    requires i < |transitions|
    ensures Selected(transitions[..i + 1], endpointID)
         == Selected(transitions[..i], endpointID)
            + if endpointID == "" || transitions[i].endpointID == endpointID then [transitions[i]] else []
  {
    assert transitions[..i + 1][..i] == transitions[..i];
  }

  predicate IsNewestPage(page: seq<Transition>, all: seq<Transition>, limit: nat) {
    && |page| == (if |all| <= limit then |all| else limit)
    && forall k | 0 <= k < |page| :: page[k] == all[|all| - 1 - k]
  }

  /** The page holds the end of `all`, newest first, and `left` is what comes before it. */
  predicate Paged(page: seq<Transition>, all: seq<Transition>, left: seq<Transition>) {
    && |all| == |left| + |page| && all[..|left|] == left
    && forall k | 0 <= k < |page| :: page[k] == all[|all| - 1 - k]
  }

  lemma PageGrows(page: seq<Transition>, all: seq<Transition>, left: seq<Transition>, t: Transition)
    requires Paged(page, all, left + [t])
    ensures Paged(page + [t], all, left)
  {
    assert all[..|left| + 1][|left|] == t;
    assert all[..|left|] == all[..|left| + 1][..|left|];
  }

  lemma PageEnds(page: seq<Transition>, all: seq<Transition>, left: seq<Transition>, limit: nat)
    requires Paged(page, all, left) && |page| <= limit && (left == [] || |page| == limit)
    ensures IsNewestPage(page, all, limit)
  {}

  // An empty id asks for the transitions of all endpoints.
  lemma {:induction false} EmptyIdSelectsAll(transitions: seq<Transition>)
    ensures Selected(transitions, "") == transitions
  {
    if transitions == [] {
    } else {
      EmptyIdSelectsAll(transitions[..|transitions| - 1]);
    }
  }

  lemma {:induction false} WholePage(page: seq<Transition>, transitions: seq<Transition>, limit: nat)
    requires IsNewestPage(page, Selected(transitions, ""), limit)
    ensures IsNewestPage(page, transitions, limit)
  {
    EmptyIdSelectsAll(transitions);
  }

  // Ids aside, the transitions selected for one endpoint are its share of the table.
  lemma {:induction false} SelectedIsShare(transitions: seq<Transition>, endpointID: string)
    requires endpointID != ""
    ensures
      var selected, share := Selected(transitions, endpointID), TransitionsOf(transitions, endpointID);
      && |selected| == |share|
      && forall k | 0 <= k < |selected| :: share[k] == selected[k].(id := 0)
  {
    if transitions == [] {
    } else {
      SelectedIsShare(transitions[..|transitions| - 1], endpointID);
    }
  }

  // ---- The store itself ----

  class Memory {
    var results: map<string, seq<CheckResult>>
    var transitions: seq<Transition>
    var alerts: seq<Alert>
    var nextID: int

    ghost function Contents(): Log
      reads this
    {
      Log(results, transitions, alerts, nextID)
    }

    constructor ()
      ensures Contents() == NEW
    {
      results, transitions, alerts, nextID := map[], [], [], 1;
    }

    method Next() returns (value: int)
      modifies this`nextID
      ensures value == old(nextID) && nextID == old(nextID) + 1
    {
      value := nextID;
      nextID := nextID + 1;
    }

    // Newest alert first, until one blocks the write.
    method ScanForDuplicate(c: Write) returns (duplicate: bool)
      ensures duplicate <==> Duplicate(alerts, c)
    {
      var key := DedupeKey(c.result.endpointID, c.result.state);
      var index := |alerts| - 1;
      while index >= 0
        invariant -1 <= index < |alerts|
        invariant forall j | index < j < |alerts| :: !Blocks(alerts[j], c)
      {
        if alerts[index].dedupeKey == key && c.result.checkedAt - alerts[index].createdAt < c.window {
          assert Blocks(alerts[index], c);
          return true;
        }
        index := index - 1;
      }
      return false;
    }

    method RecordResult(result: CheckResult, dedupeWindow: Duration) returns (outcome: RecordOutcome)
      modifies this
      ensures Contents() == Record(old(Contents()), Write(result, dedupeWindow))
      ensures outcome.transition == NewTransition(old(Contents()), result)
      ensures outcome.alert == NewAlert(old(Contents()), Write(result, dedupeWindow))
      ensures PlainOutcome(old(Contents()), Write(result, dedupeWindow), outcome)
      ensures transitions == old(transitions) + ToSeq(outcome.transition)
      ensures alerts == old(alerts) + ToSeq(outcome.alert)
    {
      OutcomeIsPlain(Contents(), Write(result, dedupeWindow));
      var previous := Unknown;
      var items := if result.endpointID in results then results[result.endpointID] else [];
      if |items| > 0 {
        previous := items[|items| - 1].state;
      }
      var id := Next();
      results := results[result.endpointID := items + [result.(id := id)]];
      outcome := RecordOutcome(None, None);
      if previous != result.state {
        id := Next();
        var transition := Transition(id, result.endpointID, previous, result.state, result.checkedAt, result.message);
        transitions := transitions + [transition];
        outcome := outcome.(transition := Some(transition));
      }
      assert outcome.transition == NewTransition(old(Contents()), result);
      if Alertable(result.state) || (previous != result.state && result.state == Healthy) {
        var key := DedupeKey(result.endpointID, result.state);
        var duplicate := ScanForDuplicate(Write(result, dedupeWindow));
        if !duplicate {
          id := Next();
          var alert := Alert(id, result.endpointID, result.state, key, result.checkedAt, result.message);
          alerts := alerts + [alert];
          outcome := outcome.(alert := Some(alert));
        }
      }
    }

    // Every endpoint with a result is present, with its newest one.
    method LatestResults() returns (latest: map<string, CheckResult>)
      ensures latest == map e | e in results && results[e] != [] :: results[e][|results[e]| - 1]
    {
      latest := map[];
      var rest := results.Keys;
      while rest != {}
        invariant rest <= results.Keys
        invariant latest == map e | e in results && e !in rest && results[e] != [] :: results[e][|results[e]| - 1]
        decreases rest
      {
        var e :| e in rest;
        rest := rest - {e};
        if |results[e]| > 0 {
          latest := latest[e := results[e][|results[e]| - 1]];
        }
      }
    }

    method CountResultsSince(endpointID: string, since: Time, latencyTarget: Duration) returns (counts: Counts)
      ensures counts == CountsSince(History(Contents(), endpointID), since, latencyTarget)
      ensures CountedByState(counts, History(Contents(), endpointID), since, latencyTarget)
    {
      CountsByState(History(Contents(), endpointID), since, latencyTarget);
      counts := Counts(0, 0, 0);
      var items := if endpointID in results then results[endpointID] else [];
      for i := 0 to |items|
        invariant counts == CountsSince(items[..i], since, latencyTarget)
      {
        OneMoreResult(items, i, since, latencyTarget);
        var result := items[i];
        if result.checkedAt < since || result.state == Maintenance {
          continue;
        }
        counts := counts.(eligible := counts.eligible + 1);
        if result.state == Healthy || result.state == Degraded {
          counts := counts.(good := counts.good + 1);
        }
        if result.state != Unavailable && result.latency <= latencyTarget {
          counts := counts.(latencyGood := counts.latencyGood + 1);
        }
      }
      assert items[..|items|] == items;
    }

    // The newest `limit` transitions of one endpoint (of all endpoints for an empty id), newest first.
    method RecentTransitions(endpointID: string, limit: nat) returns (items: seq<Transition>)
      ensures IsNewestPage(items, Selected(transitions, endpointID), limit)
      ensures endpointID == "" ==> IsNewestPage(items, transitions, limit)
    {
      items := [];
      var index := |transitions| - 1;
      ghost var all := Selected(transitions, endpointID);
      assert transitions[..|transitions|] == transitions;
      while index >= 0 && |items| < limit
        invariant -1 <= index < |transitions|
        invariant |items| <= limit
        invariant Paged(items, all, Selected(transitions[..index + 1], endpointID))
      {
        ghost var left := Selected(transitions[..index], endpointID);
        SelectedStep(transitions, index, endpointID);
        if endpointID == "" || transitions[index].endpointID == endpointID {
          PageGrows(items, all, left, transitions[index]);
          items := items + [transitions[index]];
        }
        index := index - 1;
      }
      PageEnds(items, all, Selected(transitions[..index + 1], endpointID), limit);
      if endpointID == "" {
        WholePage(items, transitions, limit);
      }
    }
  }
}
