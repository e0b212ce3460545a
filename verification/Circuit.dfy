// The per-endpoint circuit breaker, and what its fields mean in terms of the calls made on it.
module Circuit {
  import opened Domain
  import opened Spacing

  datatype Item = Item(failures: int, openedAt: Time, halfOpen: bool)

  type Items = map<string, Item>

  /** A key without an entry behaves like a fresh circuit. */
  function ItemOf(items: Items, key: string): Item {
    if key in items then items[key] else Item(0, 0, false)
  }

  predicate Open(item: Item) {
    item.openedAt != 0
  }

  predicate Grants(item: Item, cooldown: Duration, now: Time) {
    !Open(item) || (now - item.openedAt >= cooldown && !item.halfOpen)
  }

  datatype Call =
    | Allow(key: string, now: Time)
    | Success(key: string)
    | Failure(key: string, now: Time)

  function Step(threshold: int, cooldown: Duration, items: Items, call: Call): Items {
    var item := ItemOf(items, call.key);
    match call
    case Allow(key, now) =>
      items[key := if Open(item) && Grants(item, cooldown, now) then item.(halfOpen := true) else item]
    case Success(key) =>
      items - {key}
    case Failure(key, now) =>
      var failures := item.failures + 1;
      items[key := Item(failures, if failures >= threshold then now else item.openedAt, false)]
  }

  function Replay(threshold: int, cooldown: Duration, calls: seq<Call>): Items {
    if calls == [] then map[]
    else Step(threshold, cooldown, Replay(threshold, cooldown, calls[..|calls| - 1]), calls[|calls| - 1])
  }

  class CircuitBreaker {
    const threshold: int
    const cooldown: Duration
    var items: Items
    ghost var history: seq<Call>  // every call so far, oldest first

    ghost predicate Valid()
      reads this
    {
      items == Replay(threshold, cooldown, history)
    }

    constructor (threshold: int, cooldown: Duration)
      ensures Valid() && history == []
      ensures this.threshold == threshold && this.cooldown == cooldown
    {
      this.threshold := threshold;
      this.cooldown := cooldown;
      items := map[];
      history := [];
    }

    method Lookup(key: string) returns (item: Item)
      modifies this`items
      ensures item == ItemOf(old(items), key)
      ensures items == old(items)[key := item]
    {
      if key in items {
        item := items[key];
      } else {
        item := Item(0, 0, false);
        items := items[key := item];
      }
    }

    // Permission is given exactly when the history says the circuit is closed, or its
    // cooldown is over and no earlier probe is still unresolved.
    method Allow(key: string, now: Time) returns (granted: bool)
      requires Valid()
      modifies this
      ensures Valid() && history == old(history) + [Call.Allow(key, now)]
      ensures granted == Grants(ItemOf(old(items), key), cooldown, now)
      ensures granted <==>
        || OpenSince(threshold, old(history), key) == 0
        || (now - OpenSince(threshold, old(history), key) >= cooldown
            && !ProbePending(threshold, cooldown, old(history), key))
    {
      MeaningOfFields(threshold, cooldown, history, key);
      var item := Lookup(key);
      history := history + [Call.Allow(key, now)];
      assert history[..|history| - 1] == old(history);
      if item.openedAt == 0 {
        return true;
      }
      if now - item.openedAt < cooldown || item.halfOpen {
        return false;
      }
      items := items[key := item.(halfOpen := true)];
      return true;
    }

    method Success(key: string)
      requires Valid()
      modifies this
      ensures Valid() && history == old(history) + [Call.Success(key)]
    {
      items := items - {key};
      history := history + [Call.Success(key)];
      assert history[..|history| - 1] == old(history);
    }

    // Reports whether the circuit is open afterwards.
    method Failure(key: string, now: Time) returns (tripped: bool)
      requires Valid()
      modifies this
      ensures Valid() && history == old(history) + [Call.Failure(key, now)]
      ensures tripped <==> FailuresInARow(history, key) >= threshold
      ensures tripped ==> OpenSince(threshold, history, key) == now
    {
      AfterFailure(threshold, cooldown, history, key, now);
      var item := Lookup(key);
      history := history + [Call.Failure(key, now)];
      item := item.(halfOpen := false);
      item := item.(failures := item.failures + 1);
      if item.failures >= threshold {
        item := item.(openedAt := now);
        items := items[key := item];
        return true;
      }
      items := items[key := item];
      return false;
    }

    method IsOpen(key: string, now: Time) returns (open: bool)
      requires Valid()
      ensures open ==> !Grants(ItemOf(items, key), cooldown, now)
      ensures open <==>
        && OpenSince(threshold, history, key) != 0
        && now - OpenSince(threshold, history, key) < cooldown
    {
      MeaningOfFields(threshold, cooldown, history, key);
      if key in items {
        var item := items[key];
        open := item.openedAt != 0 && now - item.openedAt < cooldown;
      } else {
        open := false;
      }
    }
  }

  // ---- The same facts read off the call history alone ----

  predicate Resolves(call: Call, key: string) {
    (call.Success? || call.Failure?) && call.key == key
  }

  /** Failures of `key` since its last success. */
  function FailuresInARow(calls: seq<Call>, key: string): nat {
    if calls == [] then 0
    else
      var last := calls[|calls| - 1];
      var before := FailuresInARow(calls[..|calls| - 1], key);
      if !Resolves(last, key) then before
      else if last.Failure? then before + 1
      else 0
  }

  /** The instant of the latest failure of `key`; 0 if it never failed. */
  function LastFailure(calls: seq<Call>, key: string): Time {
    if calls == [] then 0
    else
      var last := calls[|calls| - 1];
      if last.Failure? && last.key == key then last.now
      else LastFailure(calls[..|calls| - 1], key)
  }

  /** When the circuit opened, or 0 while it is closed. A threshold below 1 acts like 1. */
  function OpenSince(threshold: int, calls: seq<Call>, key: string): Time {
    var needed := if threshold < 1 then 1 else threshold;
    if FailuresInARow(calls, key) >= needed then LastFailure(calls, key) else 0
  }

  /** Call `i` was a permission given although the circuit was open: a half-open probe. */
  ghost predicate IsProbe(threshold: int, cooldown: Duration, calls: seq<Call>, i: nat)
    requires i < |calls|
    decreases i, 2
  {
    var call := calls[i];
    && call.Allow?
    && OpenSince(threshold, calls[..i], call.key) != 0
    && call.now - OpenSince(threshold, calls[..i], call.key) >= cooldown
    && !ProbePending(threshold, cooldown, calls[..i], call.key)
  }

  ghost predicate UnresolvedAfter(calls: seq<Call>, i: nat, key: string) {
    forall m | i < m < |calls| :: !Resolves(calls[m], key)
  }

  /** Some probe of `key` was permitted and has been neither confirmed nor refuted since. */
  ghost predicate ProbePending(threshold: int, cooldown: Duration, calls: seq<Call>, key: string)
    decreases |calls|, 1
  {
    exists i: nat :: i < |calls| && calls[i].key == key
      && IsProbe(threshold, cooldown, calls, i) && UnresolvedAfter(calls, i, key)
  }

  lemma {:induction false} ProbeInPrefix(threshold: int, cooldown: Duration, calls: seq<Call>, n: nat, i: nat)
    requires i < n <= |calls|
    ensures IsProbe(threshold, cooldown, calls[..n], i) == IsProbe(threshold, cooldown, calls, i)
  {
    assert calls[..n][..i] == calls[..i];
  }

  lemma {:induction false} PendingStays(threshold: int, cooldown: Duration, calls: seq<Call>, key: string)
    requires calls != [] && !Resolves(calls[|calls| - 1], key)
    requires ProbePending(threshold, cooldown, calls[..|calls| - 1], key)
    ensures ProbePending(threshold, cooldown, calls, key)
  {
    var n := |calls| - 1;
    var before := calls[..n];
    var i: nat :| i < |before| && before[i].key == key
      && IsProbe(threshold, cooldown, before, i) && UnresolvedAfter(before, i, key);
    ProbeInPrefix(threshold, cooldown, calls, n, i);
    assert UnresolvedAfter(calls, i, key) by {
      assert forall m | i < m < n :: calls[m] == before[m];
    }
  }

  lemma PendingIsOldOrNew(threshold: int, cooldown: Duration, calls: seq<Call>, key: string)
    requires calls != [] && ProbePending(threshold, cooldown, calls, key)
    ensures
      var last, before := calls[|calls| - 1], calls[..|calls| - 1];
      || (last.key == key && IsProbe(threshold, cooldown, calls, |calls| - 1))
      || (!Resolves(last, key) && ProbePending(threshold, cooldown, before, key))
  {
    var n := |calls| - 1;
    var before := calls[..n];
    var i: nat :| i < |calls| && calls[i].key == key
      && IsProbe(threshold, cooldown, calls, i) && UnresolvedAfter(calls, i, key);
    if i < n {
      ProbeInPrefix(threshold, cooldown, calls, n, i);
      assert before[i] == calls[i];
      assert UnresolvedAfter(before, i, key) by {
        assert forall m | i < m < n :: calls[m] == before[m];
      }
    }
  }

  lemma PendingAfterCall(threshold: int, cooldown: Duration, calls: seq<Call>, key: string)
    requires calls != []
    ensures
      var last, before := calls[|calls| - 1], calls[..|calls| - 1];
      ProbePending(threshold, cooldown, calls, key) <==>
        || (last.key == key && IsProbe(threshold, cooldown, calls, |calls| - 1))
        || (!Resolves(last, key) && ProbePending(threshold, cooldown, before, key))
  {
    var n := |calls| - 1;
    if ProbePending(threshold, cooldown, calls, key) {
      PendingIsOldOrNew(threshold, cooldown, calls, key);
    } else if !Resolves(calls[n], key) && ProbePending(threshold, cooldown, calls[..n], key) {
      PendingStays(threshold, cooldown, calls, key);
    } else if calls[n].key == key && IsProbe(threshold, cooldown, calls, n) {
      assert UnresolvedAfter(calls, n, key);
    }
  }

  // The breaker refines its history, for every interleaving of calls on any keys.
  lemma {:induction false} MeaningOfFields(threshold: int, cooldown: Duration, calls: seq<Call>, key: string)
    ensures
      var item := ItemOf(Replay(threshold, cooldown, calls), key);
      && item.failures == FailuresInARow(calls, key)
      && item.openedAt == OpenSince(threshold, calls, key)
      && (item.halfOpen <==> ProbePending(threshold, cooldown, calls, key))
  {
    if calls == [] {
    } else {
      var before := calls[..|calls| - 1];
      MeaningOfFields(threshold, cooldown, before, key);
      PendingAfterCall(threshold, cooldown, calls, key);
    }
  }

  lemma {:induction false} ReplaySnoc(threshold: int, cooldown: Duration, calls: seq<Call>, call: Call)
    ensures Replay(threshold, cooldown, calls + [call])
         == Step(threshold, cooldown, Replay(threshold, cooldown, calls), call)
  {
    assert (calls + [call])[..|calls + [call]| - 1] == calls;
  }

  // A failure adds one to the count kept for its key and, at the threshold, opens the circuit.
  lemma {:induction false} AfterFailure(threshold: int, cooldown: Duration, calls: seq<Call>, key: string, now: Time)
    ensures
      var items, after := Replay(threshold, cooldown, calls), calls + [Failure(key, now)];
      && Replay(threshold, cooldown, after) == Step(threshold, cooldown, items, Failure(key, now))
      && FailuresInARow(after, key) == ItemOf(items, key).failures + 1
      && (ItemOf(items, key).failures + 1 >= threshold ==> OpenSince(threshold, after, key) == now)
  {
    MeaningOfFields(threshold, cooldown, calls, key);
    var after := calls + [Failure(key, now)];
    assert after[..|after| - 1] == calls;
  }

  // Between two probes of one endpoint the first has been resolved: an open circuit never
  // has two probes outstanding.
  lemma ProbesAreExclusive(threshold: int, cooldown: Duration, calls: seq<Call>, i: nat, j: nat) returns (m: nat)
    requires i < j < |calls| && calls[i].key == calls[j].key
    requires IsProbe(threshold, cooldown, calls, i) && IsProbe(threshold, cooldown, calls, j)
    ensures i < m < j && Resolves(calls[m], calls[i].key)
  {
    var prefix := calls[..j];
    ProbeInPrefix(threshold, cooldown, calls, j, i);
    assert prefix[i] == calls[i];
    assert !UnresolvedAfter(prefix, i, calls[i].key);
    m :| i < m < |prefix| && Resolves(prefix[m], calls[i].key);
  }

  /** The clock read for later calls on `key` is not behind that of earlier ones. */
  ghost predicate ClockMonotone(calls: seq<Call>, key: string) {
    forall i, j | 0 <= i < j < |calls| && calls[i].key == key == calls[j].key
      && !calls[i].Success? && !calls[j].Success? :: calls[i].now <= calls[j].now
  }

  lemma {:induction false} LastFailureIsLatest(calls: seq<Call>, key: string, m: nat)
    requires ClockMonotone(calls, key)
    requires m < |calls| && calls[m].Failure? && calls[m].key == key
    ensures LastFailure(calls, key) >= calls[m].now
  {
    var n := |calls| - 1;
    if calls[n].Failure? && calls[n].key == key {
    } else {
      assert calls[..n][m] == calls[m];
      LastFailureIsLatest(calls[..n], key, m);
    }
  }

  // Load shedding: without a success in between, probes are at least the cooldown apart.
  lemma {:induction false} ProbeSpacing(threshold: int, cooldown: Duration, calls: seq<Call>, i: nat, j: nat)
    requires i < j < |calls| && calls[i].key == calls[j].key
    requires IsProbe(threshold, cooldown, calls, i) && IsProbe(threshold, cooldown, calls, j)
    requires ClockMonotone(calls, calls[i].key)
    requires forall m | i < m < j :: calls[m] != Success(calls[i].key)
    ensures calls[j].now - calls[i].now >= cooldown
  {
    var key := calls[i].key;
    var m := ProbesAreExclusive(threshold, cooldown, calls, i, j);
    assert calls[m] == (if calls[m].Success? then Success(key) else Failure(key, calls[m].now));
    assert calls[..j][m] == calls[m];
    LastFailureIsLatest(calls[..j], key, m);
  }

  function Instant(call: Call): Time {
    if call.Success? then 0 else call.now
  }

  // Over a span of length L without a success, an endpoint is probed at most
  // floor(L / cooldown) + 1 times.
  lemma ProbeRate(threshold: int, cooldown: Duration, calls: seq<Call>, key: string,
                  probes: set<nat>, from: Time, to: Time)
    requires cooldown > 0 && from <= to
    requires ClockMonotone(calls, key)
    requires forall i <- probes :: i < |calls| && calls[i].key == key && IsProbe(threshold, cooldown, calls, i)
    requires forall i <- probes :: from <= Instant(calls[i]) <= to
    requires forall i, j, m | i in probes && j in probes && i < m < j :: calls[m] != Success(key)
    ensures |probes| <= (to - from) / cooldown + 1
  {
    var times := seq(|calls|, i requires 0 <= i < |calls| => Instant(calls[i]));
    forall i, j | i in probes && j in probes && i < j
      ensures times[j] - times[i] >= cooldown
    {
      ProbeSpacing(threshold, cooldown, calls, i, j);
    }
    SeparatedBound(times, probes, cooldown, from, to);
  }

  function CallsOn(calls: seq<Call>, key: string): seq<Call> {
    if calls == [] then []
    else
      var last := calls[|calls| - 1];
      CallsOn(calls[..|calls| - 1], key) + if last.key == key then [last] else []
  }

  // Endpoints do not influence each other: only the calls on `key` matter for `key`.
  lemma {:induction false} KeysAreIndependent(threshold: int, cooldown: Duration, calls: seq<Call>, key: string)
    ensures ItemOf(Replay(threshold, cooldown, calls), key)
         == ItemOf(Replay(threshold, cooldown, CallsOn(calls, key)), key)
  {
    if calls == [] {
    } else {
      var n := |calls| - 1;
      KeysAreIndependent(threshold, cooldown, calls[..n], key);
      var own := CallsOn(calls, key);
      if calls[n].key == key {
        assert own[..|own| - 1] == CallsOn(calls[..n], key);
      } else {
        assert own == CallsOn(calls[..n], key);
      }
    }
  }
}
