// One endpoint's share of a table, oldest row first and with row ids erased.
module Rows {
  import opened Domain
  import opened Timeline

  function ToSeq<T>(o: Option<T>): seq<T> {
    match o
    case None => []
    case Some(x) => [x]
  }

  function ResultsOf(results: seq<CheckResult>, endpointID: string): seq<CheckResult> {
    if results == [] then []
    else
      var last := results[|results| - 1];
      ResultsOf(results[..|results| - 1], endpointID) + if last.endpointID == endpointID then [Bare(last)] else []
  }

  function TransitionsOf(transitions: seq<Transition>, endpointID: string): seq<Transition> {
    if transitions == [] then []
    else
      var last := transitions[|transitions| - 1];
      TransitionsOf(transitions[..|transitions| - 1], endpointID)
        + if last.endpointID == endpointID then [last.(id := 0)] else []
  }

  function AlertsOf(alerts: seq<Alert>, endpointID: string): seq<Alert> {
    if alerts == [] then []
    else
      var last := alerts[|alerts| - 1];
      AlertsOf(alerts[..|alerts| - 1], endpointID) + if last.endpointID == endpointID then [last.(id := 0)] else []
  }

  function WritesOf(writes: seq<Write>, endpointID: string): seq<Write> {
    if writes == [] then []
    else
      var last := writes[|writes| - 1];
      WritesOf(writes[..|writes| - 1], endpointID) + if last.result.endpointID == endpointID then [last] else []
  }

  lemma {:induction false} ResultsOfSnoc(results: seq<CheckResult>, r: CheckResult, endpointID: string)
    ensures ResultsOf(results + [r], endpointID)
         == ResultsOf(results, endpointID) + if r.endpointID == endpointID then [Bare(r)] else []
  {
    assert (results + [r])[..|results + [r]| - 1] == results;
  }

  // An optional new transition of `owner` extends the share of `owner` only.
  lemma {:induction false} TransitionsOfMore(transitions: seq<Transition>, more: Option<Transition>, owner: string,
                                             endpointID: string)
    requires more.Some? ==> more.value.endpointID == owner
    ensures TransitionsOf(transitions + ToSeq(more), endpointID)
         == TransitionsOf(transitions, endpointID)
            + if more.Some? && owner == endpointID then [more.value.(id := 0)] else []
  {
    var all := transitions + ToSeq(more);
    match more
    case None =>
      assert all == transitions;
    case Some(t) =>
      assert all[..|all| - 1] == transitions;
  }

  lemma {:induction false} AlertsOfMore(alerts: seq<Alert>, more: Option<Alert>, owner: string, endpointID: string)
    requires more.Some? ==> more.value.endpointID == owner
    ensures AlertsOf(alerts + ToSeq(more), endpointID)
         == AlertsOf(alerts, endpointID)
            + if more.Some? && owner == endpointID then [more.value.(id := 0)] else []
  {
    var all := alerts + ToSeq(more);
    match more
    case None =>
      assert all == alerts;
    case Some(a) =>
      assert all[..|all| - 1] == alerts;
  }

  lemma {:induction false} WritesOfSnoc(writes: seq<Write>, c: Write, endpointID: string)
    ensures WritesOf(writes + [c], endpointID)
         == WritesOf(writes, endpointID) + if c.result.endpointID == endpointID then [c] else []
  {
    assert (writes + [c])[..|writes + [c]| - 1] == writes;
  }

  predicate KeysMatch(alerts: seq<Alert>) {
    forall a <- alerts :: a.dedupeKey == DedupeKey(a.endpointID, a.state)
  }

  lemma {:induction false} AlertsOfMembers(alerts: seq<Alert>, endpointID: string, state: State, at: Time)
    ensures (exists a <- AlertsOf(alerts, endpointID) :: a.state == state && a.createdAt == at)
        <==> exists a <- alerts :: a.endpointID == endpointID && a.state == state && a.createdAt == at
  {
    if alerts == [] {
    } else {
      var init, last := alerts[..|alerts| - 1], alerts[|alerts| - 1];
      AlertsOfMembers(init, endpointID, state, at);
      assert alerts == init + [last];
    }
  }

  // Looking an alert up by dedupe key finds exactly the endpoint's own alerts of that state.
  lemma {:induction false} KeyFindsOwnAlerts(alerts: seq<Alert>, endpointID: string, state: State, at: Time)
    requires KeysMatch(alerts)
    ensures (exists a <- alerts :: a.dedupeKey == DedupeKey(endpointID, state) && a.createdAt == at)
        <==> exists a <- AlertsOf(alerts, endpointID) :: a.state == state && a.createdAt == at
  {
    AlertsOfMembers(alerts, endpointID, state, at);
    forall a | a in alerts
      ensures a.dedupeKey == DedupeKey(endpointID, state) <==> a.endpointID == endpointID && a.state == state
    {
      DedupeKeyInjective(a.endpointID, a.state, endpointID, state);
    }
  }
}
