// The status snapshot, taken over a store that nobody is writing to.
module Snapshot {
  import opened Domain
  import opened Timeline
  import opened Rows
  import opened Slo
  import opened MemoryStore

  const PAGE := 10

  datatype EndpointStatus = EndpointStatus(
    endpoint: Endpoint,
    lastResult: Option<CheckResult>,
    uptime: real,
    slo: SLOStatus,
    transitions: seq<Transition>)

  datatype Aggregate = Aggregate(
    total: nat, healthy: nat, degraded: nat, unavailable: nat, maintenance: nat, unknown: nat)

  datatype StatusSnapshot = StatusSnapshot(generatedAt: Time, aggregate: Aggregate, endpoints: seq<EndpointStatus>)

  // ---- What a status must say ----

  /** The state a status shows; an endpoint never checked shows as Unknown. */
  function Shown(status: EndpointStatus): State {
    match status.lastResult
    case None => Unknown
    case Some(r) => r.state
  }

  function Showing(statuses: seq<EndpointStatus>, state: State): nat {
    if statuses == [] then 0
    else Showing(statuses[..|statuses| - 1], state) + if Shown(statuses[|statuses| - 1]) == state then 1 else 0
  }

  predicate Reports(log: Log, endpoint: Endpoint, now: Time, status: EndpointStatus) {
    && status.endpoint == endpoint
    && status.lastResult == LastOf(log, endpoint.id)
    && status.slo == StatusOf(endpoint, History(log, endpoint.id), now)
    && status.uptime == status.slo.availability
    && IsNewestPage(status.transitions, Selected(log.transitions, endpoint.id), PAGE)
  }

  /** Each counter says how often its state is shown. */
  predicate Tallies(aggregate: Aggregate, statuses: seq<EndpointStatus>) {
    && aggregate.healthy == Showing(statuses, Healthy)
    && aggregate.degraded == Showing(statuses, Degraded)
    && aggregate.unavailable == Showing(statuses, Unavailable)
    && aggregate.maintenance == Showing(statuses, Maintenance)
    && aggregate.unknown == Showing(statuses, Unknown)
  }

  /** The figures are those of the checks on record, state by state, and the page has at most ten rows. */
  predicate Accounts(log: Log, endpoint: Endpoint, now: Time, status: EndpointStatus) {
    var history := History(log, endpoint.id);
    var c := WindowCounts(endpoint, history, now);
    && Summarizes(status.slo, endpoint, history, now, c)
    && IsRatio(status.uptime, c.good, c.eligible)
    && IsNewestPage(status.transitions, Selected(log.transitions, endpoint.id), 10)
  }

  lemma ReportAccounts(log: Log, endpoint: Endpoint, now: Time, status: EndpointStatus)
    requires Reports(log, endpoint, now, status)
    ensures Accounts(log, endpoint, now, status)
  {
    StatusSummarizes(endpoint, History(log, endpoint.id), now);
  }

  // ---- Taking the snapshot ----

  /** The counter of the state shown grows by one, and no other counter changes. */
  predicate CountsOneMore(aggregate: Aggregate, shown: State, more: Aggregate) {
    && more.healthy == aggregate.healthy + (if shown == Healthy then 1 else 0)
    && more.degraded == aggregate.degraded + (if shown == Degraded then 1 else 0)
    && more.unavailable == aggregate.unavailable + (if shown == Unavailable then 1 else 0)
    && more.maintenance == aggregate.maintenance + (if shown == Maintenance then 1 else 0)
    && more.unknown == aggregate.unknown + (if shown == Unknown then 1 else 0)
  }

  lemma {:induction false} TalliesOneMore(aggregate: Aggregate, statuses: seq<EndpointStatus>, status: EndpointStatus,
                                          more: Aggregate)
    requires Tallies(aggregate, statuses) && CountsOneMore(aggregate, Shown(status), more)
    ensures Tallies(more, statuses + [status])
  {
    assert (statuses + [status])[..|statuses + [status]| - 1] == statuses;
  }

  /** Each status is right, for the endpoint at its place. */
  predicate AllReport(log: Log, endpoints: seq<Endpoint>, now: Time, statuses: seq<EndpointStatus>) {
    && |statuses| <= |endpoints|
    && forall k | 0 <= k < |statuses| ::
         Reports(log, endpoints[k], now, statuses[k]) && Accounts(log, endpoints[k], now, statuses[k])
  }

  lemma OneMoreReports(log: Log, endpoints: seq<Endpoint>, now: Time, statuses: seq<EndpointStatus>,
                       status: EndpointStatus)
    requires AllReport(log, endpoints, now, statuses) && |statuses| < |endpoints|
    requires Reports(log, endpoints[|statuses|], now, status) && Accounts(log, endpoints[|statuses|], now, status)
    ensures AllReport(log, endpoints, now, statuses + [status])
  {}

  method AddState(aggregate: Aggregate, result: Option<CheckResult>) returns (more: Aggregate)
    ensures more.total == aggregate.total
    ensures CountsOneMore(aggregate, if result.None? then Unknown else result.value.state, more)
  {
    if result == None {
      return aggregate.(unknown := aggregate.unknown + 1);
    }
    match result.value.state
    case Healthy => more := aggregate.(healthy := aggregate.healthy + 1);
    case Degraded => more := aggregate.(degraded := aggregate.degraded + 1);
    case Unavailable => more := aggregate.(unavailable := aggregate.unavailable + 1);
    case Maintenance => more := aggregate.(maintenance := aggregate.maintenance + 1);
    case Unknown => more := aggregate.(unknown := aggregate.unknown + 1);
  }

  method StatusFor(endpoint: Endpoint, store: Memory, latest: map<string, CheckResult>, now: Time)
    returns (status: EndpointStatus)
    requires endpoint.id in latest ==> Some(latest[endpoint.id]) == LastOf(store.Contents(), endpoint.id)
    requires endpoint.id !in latest ==> LastOf(store.Contents(), endpoint.id) == None
    ensures Reports(store.Contents(), endpoint, now, status) && Accounts(store.Contents(), endpoint, now, status)
  {
    var latencyTarget := endpoint.slo.latencyTarget;
    if latencyTarget <= 0 {
      latencyTarget := endpoint.latencyTarget;
    }
    var window := endpoint.slo.window;
    if window <= 0 {
      window := THIRTY_DAYS;
    }
    var counts := store.CountResultsSince(endpoint.id, now - window, latencyTarget);
    var transitions := store.RecentTransitions(endpoint.id, PAGE);
    var last := if endpoint.id in latest then Some(latest[endpoint.id]) else None;
    status := EndpointStatus(endpoint, last, Ratio(counts.good, counts.eligible),
                             CalculateSLOCounts(endpoint, counts.eligible, counts.good, counts.latencyGood),
                             transitions);
    ReportAccounts(store.Contents(), endpoint, now, status);
  }

  // Each endpoint's status agrees with the log: its newest result, the objective as computed
  // from its own results, its newest transitions; and the aggregate counts what is shown.
  method Snapshot(endpoints: seq<Endpoint>, store: Memory, now: Time) returns (snapshot: StatusSnapshot)
    ensures snapshot.generatedAt == now && |snapshot.endpoints| == |endpoints|
    ensures AllReport(store.Contents(), endpoints, now, snapshot.endpoints)
    ensures Tallies(snapshot.aggregate, snapshot.endpoints)
    ensures snapshot.aggregate.total == |endpoints|
  {
    var latest := store.LatestResults();
    var statuses, aggregate := [], Aggregate(0, 0, 0, 0, 0, 0);
    for i := 0 to |endpoints|
      invariant |statuses| == i
      invariant AllReport(store.Contents(), endpoints, now, statuses)
      invariant Tallies(aggregate, statuses)
    {
      var status := StatusFor(endpoints[i], store, latest, now);
      var more := AddState(aggregate, status.lastResult);
      TalliesOneMore(aggregate, statuses, status, more);
      OneMoreReports(store.Contents(), endpoints, now, statuses, status);
      aggregate := more;
      statuses := statuses + [status];
    }
    snapshot := StatusSnapshot(now, aggregate.(total := |statuses|), statuses);
  }

  // ---- What a reader of a snapshot can rely on ----

  // The five counters account for every endpoint.
  lemma {:induction false} CountersAddUp(aggregate: Aggregate, statuses: seq<EndpointStatus>)
    requires Tallies(aggregate, statuses)
    ensures aggregate.healthy + aggregate.degraded + aggregate.unavailable + aggregate.maintenance + aggregate.unknown
         == |statuses|
  {
    ShowingPartitions(statuses);
  }

  lemma {:induction false} ShowingPartitions(statuses: seq<EndpointStatus>)
    ensures Showing(statuses, Healthy) + Showing(statuses, Degraded) + Showing(statuses, Unavailable)
          + Showing(statuses, Maintenance) + Showing(statuses, Unknown) == |statuses|
  {
    if statuses == [] {
    } else {
      ShowingPartitions(statuses[..|statuses| - 1]);
    }
  }

  lemma NewestPageOfChain(all: seq<Transition>, share: seq<Transition>, page: seq<Transition>)
    requires |all| == |share| && forall k | 0 <= k < |all| :: share[k] == all[k].(id := 0)
    requires Chained(share) && IsNewestPage(page, all, PAGE)
    ensures page == [] ==> Reached(share) == Unknown
    ensures page != [] ==> page[0].toState == Reached(share)
    ensures forall k | 0 <= k < |page| - 1 :: page[k].fromState == page[k + 1].toState
  {
    if page != [] {
      RowOfPage(all, share, page, 0);
    }
    forall k | 0 <= k < |page| - 1
      ensures page[k].fromState == page[k + 1].toState
    {
      LinkOfPage(all, share, page, k);
    }
  }

  lemma LinkOfPage(all: seq<Transition>, share: seq<Transition>, page: seq<Transition>, k: nat)
    requires |all| == |share| && forall k | 0 <= k < |all| :: share[k] == all[k].(id := 0)
    requires Chained(share) && IsNewestPage(page, all, PAGE) && k < |page| - 1
    ensures page[k].fromState == page[k + 1].toState
  {
    RowOfPage(all, share, page, k);
    RowOfPage(all, share, page, k + 1);
    LinkOfChain(share, |share| - 1 - k);
  }

  lemma RowOfPage(all: seq<Transition>, share: seq<Transition>, page: seq<Transition>, k: nat)
    requires |all| == |share| && forall k | 0 <= k < |all| :: share[k] == all[k].(id := 0)
    requires IsNewestPage(page, all, PAGE) && k < |page|
    ensures k < |share|
    ensures share[|share| - 1 - k].fromState == page[k].fromState && share[|share| - 1 - k].toState == page[k].toState
  {
    assert page[k] == all[|all| - 1 - k];
    assert share[|share| - 1 - k] == all[|all| - 1 - k].(id := 0);
  }

  lemma LinkOfChain(share: seq<Transition>, j: nat)
    requires Chained(share) && 0 < j < |share|
    ensures share[j].fromState == share[j - 1].toState
  {
    assert share[..j][j - 1] == share[j - 1];
    assert share[j].fromState == Reached(share[..j]);
  }

  // However the log came about, the transitions a status lists end in the state it shows: the
  // newest one leads to it, each older one leads to where the next one starts, and there is
  // none only if the state is still Unknown.
  lemma {:induction false} PageLeadsToShown(writes: seq<Write>, endpoint: Endpoint, now: Time, status: EndpointStatus)
    requires endpoint.id != "" && Reports(Replay(writes), endpoint, now, status)
    ensures
      var page := status.transitions;
      && (page == [] ==> Shown(status) == Unknown)
      && (page != [] ==> page[0].toState == Shown(status))
      && (forall k | 0 <= k < |page| - 1 :: page[k].fromState == page[k + 1].toState)
  {
    var log := Replay(writes);
    var own := WritesOf(writes, endpoint.id);
    var history := History(log, endpoint.id);
    ReplayIsPerEndpoint(writes, endpoint.id);
    TransitionsChain(own);
    SelectedIsShare(log.transitions, endpoint.id);
    LastStateOfBare(history);
    NewestPageOfChain(Selected(log.transitions, endpoint.id), MemRun(own).transitions, status.transitions);
    assert TimelineOf(log, endpoint.id).transitions == MemRun(own).transitions;
    assert LastState(history) == Shown(status);
  }
}
