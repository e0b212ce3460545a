// The vocabulary shared by every component: endpoints, states, check results,
// transitions and alerts.
module Domain {

  // Instants and durations are whole nanoseconds. The instant 0 stands for Go's zero
  // time.Time, the value that IsZero recognises; a running clock is always above it.
  type Time = int
  type Duration = int

  datatype Option<+T> = None | Some(value: T)

  datatype State = Healthy | Degraded | Unavailable | Maintenance | Unknown
  {
    /** The text of the state, as it appears in dedupe keys and in the database. */
    function Name(): string {
      match this
      case Healthy => "Healthy"
      case Degraded => "Degraded"
      case Unavailable => "Unavailable"
      case Maintenance => "Maintenance"
      case Unknown => "Unknown"
    }
  }

  datatype CheckResult = CheckResult(
    id: int,
    endpointID: string,
    checkedAt: Time,
    state: State,
    latency: Duration,
    attemptCount: int,
    circuitBreakerOpen: bool,
    message: string,
    error: string)

  datatype Transition = Transition(
    id: int,
    endpointID: string,
    fromState: State,
    toState: State,
    changedAt: Time,
    reason: string)

  datatype Alert = Alert(
    id: int,
    endpointID: string,
    state: State,
    dedupeKey: string,
    createdAt: Time,
    message: string)

  datatype SLOConfig = SLOConfig(availabilityTarget: real, latencyTarget: Duration, window: Duration)

  datatype Endpoint = Endpoint(
    id: string,
    interval: Duration,
    retries: int,
    latencyTarget: Duration,
    slo: SLOConfig)

  datatype RecordOutcome = RecordOutcome(transition: Option<Transition>, alert: Option<Alert>)

  /** An instant check, for examples. */
  function Sample(state: State, at: Time): CheckResult {
    CheckResult(0, "web", at, state, 0, 1, false, "", "")
  }

  predicate Alertable(state: State) {
    state == Degraded || state == Unavailable
  }

  /** Does a result in `state`, following a result in `previous`, ask for an alert? */
  predicate AlertWorthy(previous: State, state: State) {
    Alertable(state) || (previous != state && state == Healthy)
  }

  function DedupeKey(endpointID: string, state: State): string {
    endpointID + ":" + state.Name()
  }

  // ---- The rows a result gives rise to, field by field ----

  /** The change from `previous` to the state of `r`. */
  predicate IsTransition(t: Transition, previous: State, r: CheckResult) {
    && t.endpointID == r.endpointID && t.fromState == previous && t.toState == r.state
    && t.changedAt == r.checkedAt && t.reason == r.message
  }

  /** The alert about `r`. */
  predicate IsAlert(a: Alert, r: CheckResult) {
    && a.endpointID == r.endpointID && a.state == r.state && a.dedupeKey == r.endpointID + ":" + r.state.Name()
    && a.createdAt == r.checkedAt && a.message == r.message
  }

  lemma NameHasNoColon(state: State)
    ensures ':' !in state.Name()
  {
    match state
    case Healthy => assert state.Name() == ['H', 'e', 'a', 'l', 't', 'h', 'y'];
    case Degraded => assert state.Name() == ['D', 'e', 'g', 'r', 'a', 'd', 'e', 'd'];
    case Unavailable => assert state.Name() == ['U', 'n', 'a', 'v', 'a', 'i', 'l', 'a', 'b', 'l', 'e'];
    case Maintenance => assert state.Name() == ['M', 'a', 'i', 'n', 't', 'e', 'n', 'a', 'n', 'c', 'e'];
    case Unknown => assert state.Name() == ['U', 'n', 'k', 'n', 'o', 'w', 'n'];
  }

  lemma NameInjective(s1: State, s2: State)
    requires s1.Name() == s2.Name()
    ensures s1 == s2
  {
    assert s1.Name()[0] == s2.Name()[0];
    assert |s1.Name()| == |s2.Name()|;
    assert s1.Name()[2] == s2.Name()[2];
  }

  // An endpoint id may itself contain colons; the last colon of the key is nevertheless
  // the separator, so a key names one endpoint and one state.
  lemma DedupeKeyInjective(e1: string, s1: State, e2: string, s2: State)
    ensures DedupeKey(e1, s1) == DedupeKey(e2, s2) <==> e1 == e2 && s1 == s2
  {
    if DedupeKey(e1, s1) == DedupeKey(e2, s2) {
      NameHasNoColon(s1);
      NameHasNoColon(s2);
      LastColonSplits(e1, s1.Name(), e2, s2.Name());
      NameInjective(s1, s2);
    }
  }

  lemma LastColonSplits(a1: string, b1: string, a2: string, b2: string)
    requires a1 + ":" + b1 == a2 + ":" + b2
    requires ':' !in b1 && ':' !in b2
    ensures a1 == a2 && b1 == b2
  {
    ColonNotEarlier(a1, b1, a2, b2);
    ColonNotEarlier(a2, b2, a1, b1);
    var key := a1 + ":" + b1;
    assert a1 == key[..|a1|] && b1 == key[|a1| + 1..];
    assert a2 == key[..|a2|] && b2 == key[|a2| + 1..];
  }

  lemma ColonNotEarlier(a1: string, b1: string, a2: string, b2: string)
    requires a1 + ":" + b1 == a2 + ":" + b2
    requires ':' !in b1
    ensures |a1| >= |a2|
  {
    var key := a1 + ":" + b1;
    assert key[|a2|] == ':' by { assert (a2 + ":" + b2)[|a2|] == ':'; }
    assert forall i | |a1| < i < |key| :: key[i] == b1[i - |a1| - 1] && key[i] != ':';
  }
}
