// The status snapshot taken over the database at rest: what the deployed service shows is what
// the in-memory store would show, ids aside.
module DatabaseStatus {
  import opened Domain
  import opened Slo
  import opened Stores
  import opened StoreAgreement
  import opened Snapshot
  import Pages
  import Deployment
  import Scheduler
  import Timeline
  import Mem = MemoryStore
  import Pg = PostgresStore

  /** What a status must say, read from the tables. */
  predicate DbReports(s: Pg.Db, endpoint: Endpoint, now: Time, status: EndpointStatus) {
    var c := QueryCounts(s.results, endpoint.id, now - EffectiveWindow(endpoint), EffectiveLatencyTarget(endpoint));
    && status.endpoint == endpoint
    && status.lastResult == Pg.NewestIn(s.results, endpoint.id)
    && status.slo == CalculateSLOCounts(endpoint, c.eligible, c.good, c.latencyGood)
    && status.uptime == Ratio(c.good, c.eligible)
    && status.transitions == Pages.QueryPage(s.transitions, endpoint.id, PAGE)
  }

  predicate SameStatus(a: EndpointStatus, b: EndpointStatus) {
    && a.endpoint == b.endpoint && a.uptime == b.uptime && a.slo == b.slo
    && Pg.BareOption(a.lastResult) == Pg.BareOption(b.lastResult)
    && Pages.BarePage(a.transitions) == Pages.BarePage(b.transitions)
  }

  // With check times in commit order both stores yield the same status of an endpoint.
  lemma {:induction false} StatusesAgree(hash: Pg.Hash, s: Pg.Db, endpoint: Endpoint, now: Time,
                                         mem: EndpointStatus, db: EndpointStatus)
    requires Pg.Inv(hash, s) && endpoint.id != "" && InOrder(Committed(s, endpoint.id))
    requires Reports(Mem.Replay(s.committed), endpoint, now, mem) && DbReports(s, endpoint, now, db)
    ensures SameStatus(mem, db)
  {
    FiguresAgree(hash, s, endpoint, now, mem, db);
    NewestAgrees(hash, s, endpoint, now, mem, db);
    Pages.PagesAgree(hash, s, endpoint.id, PAGE, mem.transitions);
  }

  lemma {:induction false} FiguresAgree(hash: Pg.Hash, s: Pg.Db, endpoint: Endpoint, now: Time,
                                        mem: EndpointStatus, db: EndpointStatus)
    requires Pg.Inv(hash, s)
    requires Reports(Mem.Replay(s.committed), endpoint, now, mem) && DbReports(s, endpoint, now, db)
    ensures mem.uptime == db.uptime && mem.slo == db.slo
  {
    CountsAgree(hash, s, endpoint.id, now - EffectiveWindow(endpoint), EffectiveLatencyTarget(endpoint));
    FiguresOfCounts(s, Mem.Replay(s.committed), endpoint, now, mem, db);
  }

  lemma {:induction false} FiguresOfCounts(s: Pg.Db, log: Mem.Log, endpoint: Endpoint, now: Time,
                                           mem: EndpointStatus, db: EndpointStatus)
    requires QueryCounts(s.results, endpoint.id, now - EffectiveWindow(endpoint), EffectiveLatencyTarget(endpoint))
          == CountsSince(Mem.History(log, endpoint.id), now - EffectiveWindow(endpoint),
                         EffectiveLatencyTarget(endpoint))
    requires Reports(log, endpoint, now, mem) && DbReports(s, endpoint, now, db)
    ensures mem.uptime == db.uptime && mem.slo == db.slo
  {}

  lemma {:induction false} NewestAgrees(hash: Pg.Hash, s: Pg.Db, endpoint: Endpoint, now: Time,
                                        mem: EndpointStatus, db: EndpointStatus)
    requires Pg.Inv(hash, s) && InOrder(Committed(s, endpoint.id))
    requires Reports(Mem.Replay(s.committed), endpoint, now, mem) && DbReports(s, endpoint, now, db)
    ensures Pg.BareOption(mem.lastResult) == Pg.BareOption(db.lastResult)
  {
    LatestAgree(hash, s, endpoint.id);
    LatestInOrder(Committed(s, endpoint.id));
  }

  lemma LatestInOrder(writes: seq<Timeline.Write>)
    requires InOrder(writes)
    ensures LastIsLatest(writes)
  {}

  // So it is in every state of a deployed run: the database's status of each endpoint is the one
  // the in-memory store would give after the same commits.
  lemma {:induction false} DeployedStatus(c: Scheduler.Config, hash: Pg.Hash, states: seq<Deployment.Deployment>,
                                          moves: seq<Deployment.Move>, i: nat, endpoint: Endpoint, now: Time,
                                          mem: EndpointStatus, db: EndpointStatus)
    requires Deployment.IsDeployed(c, hash, states, moves) && i < |states| && endpoint.id != ""
    requires Reports(Mem.Replay(states[i].db.committed), endpoint, now, mem)
    requires DbReports(states[i].db, endpoint, now, db)
    ensures SameStatus(mem, db)
  {
    Deployment.DeployedKeepsInv(c, hash, states, moves, i);
    Deployment.CommitsInOrder(c, hash, states, moves, i, endpoint.id);
    StatusesAgree(hash, states[i].db, endpoint, now, mem, db);
  }

  // And statuses that agree are counted alike.
  lemma {:induction false} AggregatesAgree(a: seq<EndpointStatus>, b: seq<EndpointStatus>, state: State)
    requires |a| == |b| && forall k | 0 <= k < |a| :: SameStatus(a[k], b[k])
    ensures Showing(a, state) == Showing(b, state)
  {
    if a == [] {
    } else {
      AggregatesAgree(a[..|a| - 1], b[..|b| - 1], state);
      assert SameStatus(a[|a| - 1], b[|b| - 1]);
      ShownAlike(a[|a| - 1], b[|b| - 1]);
    }
  }

  lemma ShownAlike(a: EndpointStatus, b: EndpointStatus)
    requires SameStatus(a, b)
    ensures Shown(a) == Shown(b)
  {
    match a.lastResult
    case None =>
    case Some(r) => assert Domain.Some(Timeline.Bare(r)) == Pg.BareOption(b.lastResult);
  }
}
