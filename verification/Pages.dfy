// Pages of an endpoint's transitions: the database's ordered query against the in-memory
// store's backwards walk.
module Pages {
  import opened Domain
  import opened Timeline
  import opened Rows
  import opened MemoryStore
  import opened Stores
  import opened StoreAgreement
  import Pg = PostgresStore

  // ---- ORDER BY changed_at DESC, id DESC ----

  predicate Precedes(a: Transition, b: Transition) {
    a.changedAt > b.changedAt || (a.changedAt == b.changedAt && a.id > b.id)
  }

  predicate Sorted(rows: seq<Transition>) {
    forall i, j | 0 <= i < j < |rows| :: !Precedes(rows[j], rows[i])
  }

  function Insert(row: Transition, ordered: seq<Transition>): seq<Transition> {
    if ordered == [] || Precedes(row, ordered[0]) then [row] + ordered
    else [ordered[0]] + Insert(row, ordered[1..])
  }

  function OrderBy(rows: seq<Transition>): seq<Transition> {
    if rows == [] then [] else Insert(rows[|rows| - 1], OrderBy(rows[..|rows| - 1]))
  }

  lemma {:induction false} InsertKeepsRows(row: Transition, ordered: seq<Transition>)
    ensures multiset(Insert(row, ordered)) == multiset(ordered) + multiset{row}
  {
    if ordered == [] || Precedes(row, ordered[0]) {
    } else {
      InsertKeepsRows(row, ordered[1..]);
      assert ordered == [ordered[0]] + ordered[1..];
    }
  }

  lemma {:induction false} InsertSorts(row: Transition, ordered: seq<Transition>)
    requires Sorted(ordered)
    ensures Sorted(Insert(row, ordered))
  {
    if ordered == [] || Precedes(row, ordered[0]) {
    } else {
      var tail := Insert(row, ordered[1..]);
      InsertSorts(row, ordered[1..]);
      InsertKeepsRows(row, ordered[1..]);
      forall j | 0 <= j < |tail|
        ensures !Precedes(tail[j], ordered[0])
      {
        assert tail[j] in multiset(tail);
        if tail[j] != row {
          assert tail[j] in ordered[1..];
        }
      }
    }
  }

  // The ordered rows are the selected ones, none missing or doubled, newest change first.
  lemma {:induction false} OrderBySorts(rows: seq<Transition>)
    ensures Sorted(OrderBy(rows)) && multiset(OrderBy(rows)) == multiset(rows)
    ensures |OrderBy(rows)| == |rows|
  {
    if rows == [] {
    } else {
      var init, last := rows[..|rows| - 1], rows[|rows| - 1];
      OrderBySorts(init);
      InsertSorts(last, OrderBy(init));
      InsertKeepsRows(last, OrderBy(init));
      assert rows == init + [last];
      assert |multiset(OrderBy(rows))| == |multiset(rows)|;
    }
  }

  // ---- The two pages ----

  /** The newest `limit` of `all`, newest first. */
  function Newest(all: seq<Transition>, limit: nat): (page: seq<Transition>)
    ensures IsNewestPage(page, all, limit)
  {
    seq(if |all| <= limit then |all| else limit, k requires 0 <= k < |all| => all[|all| - 1 - k])
  }

  lemma PageIsNewest(page: seq<Transition>, all: seq<Transition>, limit: nat)
    requires IsNewestPage(page, all, limit)
    ensures page == Newest(all, limit)
  {}

  /** ... WHERE endpoint_id = $1 ORDER BY changed_at DESC, id DESC LIMIT $2 */
  function QueryPage(rows: seq<Transition>, endpointID: string, limit: nat): seq<Transition> {
    var all := OrderBy(Selected(rows, endpointID));
    if |all| <= limit then all else all[..limit]
  }

  function BarePage(page: seq<Transition>): (bare: seq<Transition>)
    ensures |bare| == |page| && forall k | 0 <= k < |page| :: bare[k] == page[k].(id := 0)
  {
    seq(|page|, k requires 0 <= k < |page| => page[k].(id := 0))
  }

  /** Change times never go back along the log. */
  predicate Forward(log: seq<Transition>) {
    forall i, j | 0 <= i < j < |log| :: log[i].changedAt <= log[j].changedAt
  }

  predicate IdsAscend(log: seq<Transition>) {
    forall i, j | 0 <= i < j < |log| :: log[i].id < log[j].id
  }

  lemma {:induction false} OrderReverses(log: seq<Transition>)
    requires Forward(log) && IdsAscend(log)
    ensures OrderBy(log) == Newest(log, |log|)
  {
    if log == [] {
    } else {
      var n := |log| - 1;
      OrderReverses(log[..n]);
      assert n > 0 ==> Newest(log[..n], n)[0] == log[n - 1] && Precedes(log[n], log[n - 1]);
      assert Newest(log, n + 1) == [log[n]] + Newest(log[..n], n);
    }
  }

  lemma {:induction false} SortedReversalIsForward(ordered: seq<Transition>, log: seq<Transition>)
    requires Sorted(ordered) && BarePage(ordered) == BarePage(Newest(log, |log|))
    ensures Forward(log)
  {
    forall i, j | 0 <= i < j < |log|
      ensures log[i].changedAt <= log[j].changedAt
    {
      var n := |log| - 1;
      assert BarePage(ordered)[n - i] == log[i].(id := 0) && BarePage(ordered)[n - j] == log[j].(id := 0);
      assert !Precedes(ordered[n - i], ordered[n - j]);
    }
  }

  lemma {:induction false} SelectedMembers(rows: seq<Transition>, endpointID: string)
    requires endpointID != ""
    ensures forall t <- Selected(rows, endpointID) :: t in rows && t.endpointID == endpointID
  {
    if rows == [] {
    } else {
      SelectedMembers(rows[..|rows| - 1], endpointID);
    }
  }

  lemma {:induction false} SelectedAscends(rows: seq<Transition>, next: int, endpointID: string)
    requires endpointID != "" && Pg.TransitionIdsAscend(rows, next)
    ensures IdsAscend(Selected(rows, endpointID))
  {
    if rows == [] {
    } else {
      var n := |rows| - 1;
      SelectedAscends(rows[..n], next, endpointID);
      SelectedMembers(rows[..n], endpointID);
      if rows[n].endpointID == endpointID {
        IdsAscendSnoc(Selected(rows[..n], endpointID), rows[n]);
      } else {
        assert Selected(rows, endpointID) == Selected(rows[..n], endpointID);
      }
    }
  }

  lemma IdsAscendSnoc(log: seq<Transition>, t: Transition)
    requires IdsAscend(log) && forall u <- log :: u.id < t.id
    ensures IdsAscend(log + [t])
  {
    assert forall i | 0 <= i < |log| :: log[i] in log;
  }

  lemma {:induction false} ForwardPages(rows: seq<Transition>, endpointID: string, limit: nat)
    requires
      var log := Selected(rows, endpointID);
      OrderBy(log) == Newest(log, |log|)
    ensures QueryPage(rows, endpointID, limit) == Newest(Selected(rows, endpointID), limit)
  {}

  predicate PagesMatch(rows: seq<Transition>, log: seq<Transition>, endpointID: string, limit: nat) {
    BarePage(QueryPage(rows, endpointID, limit)) == BarePage(Newest(log, limit))
  }

  ghost predicate AllPagesMatch(rows: seq<Transition>, log: seq<Transition>, endpointID: string) {
    forall limit: nat :: PagesMatch(rows, log, endpointID, limit)
  }

  lemma {:induction false} WholePageForward(rows: seq<Transition>, endpointID: string)
    requires PagesMatch(rows, Selected(rows, endpointID), endpointID, |Selected(rows, endpointID)|)
    ensures Forward(Selected(rows, endpointID))
  {
    var log := Selected(rows, endpointID);
    OrderBySorts(log);
    SortedReversalIsForward(OrderBy(log), log);
  }

  // Of one endpoint's rows the two pages are the same for every limit, ids aside, exactly when
  // change times never go back along the log.
  lemma {:induction false} PageOrdersAgree(rows: seq<Transition>, next: int, endpointID: string)
    requires endpointID != "" && Pg.TransitionIdsAscend(rows, next)
    ensures
      var log := Selected(rows, endpointID);
      AllPagesMatch(rows, log, endpointID) == Forward(log)
  {
    var log := Selected(rows, endpointID);
    SelectedAscends(rows, next, endpointID);
    if Forward(log) {
      OrderReverses(log);
      forall limit: nat
        ensures PagesMatch(rows, log, endpointID, limit)
      {
        ForwardPages(rows, endpointID, limit);
      }
    } else if PagesMatch(rows, log, endpointID, |log|) {
      WholePageForward(rows, endpointID);
    }
  }

  lemma {:induction false} BareNewest(a: seq<Transition>, b: seq<Transition>, limit: nat)
    requires BarePage(a) == BarePage(b)
    ensures BarePage(Newest(a, limit)) == BarePage(Newest(b, limit))
  {
    var p, q := Newest(a, limit), Newest(b, limit);
    forall k | 0 <= k < |p|
      ensures BarePage(p)[k] == BarePage(q)[k]
    {
      assert BarePage(a)[|a| - 1 - k] == BarePage(b)[|b| - 1 - k];
    }
  }

  lemma {:induction false} SharePagesAgree(rows: seq<Transition>, next: int, log: seq<Transition>, endpointID: string)
    requires endpointID != "" && Pg.TransitionIdsAscend(rows, next)
    requires BarePage(log) == BarePage(Selected(rows, endpointID))
    ensures AllPagesMatch(rows, log, endpointID) == Forward(BarePage(log))
  {
    var own := Selected(rows, endpointID);
    forall limit: nat
      ensures PagesMatch(rows, log, endpointID, limit) == PagesMatch(rows, own, endpointID, limit)
    {
      BareNewest(log, own, limit);
    }
    PageOrdersAgree(rows, next, endpointID);
    BareForward(own);
  }

  lemma {:induction false} BareSelected(rows: seq<Transition>, endpointID: string)
    requires endpointID != ""
    ensures BarePage(Selected(rows, endpointID)) == TransitionsOf(rows, endpointID)
  {
    SelectedIsShare(rows, endpointID);
  }

  // Where the two stores hold the same transitions of an endpoint, their pages are the same for
  // every limit, ids aside, exactly when its change times never go back in commit order.
  lemma {:induction false} PagesAgreeExactly(s: Pg.Db, endpointID: string)
    requires Pg.TransitionIdsAscend(s.transitions, s.nextTransition)
    requires endpointID != "" && TransitionsAgree(s, endpointID)
    ensures
      var log := Selected(Replay(s.committed).transitions, endpointID);
      AllPagesMatch(s.transitions, log, endpointID) == Forward(TransitionsOf(s.transitions, endpointID))
  {
    BareSelected(Replay(s.committed).transitions, endpointID);
    BareSelected(s.transitions, endpointID);
    SharePagesAgree(s.transitions, s.nextTransition, Selected(Replay(s.committed).transitions, endpointID), endpointID);
  }

  lemma BareForward(log: seq<Transition>)
    ensures Forward(log) == Forward(BarePage(log))
  {
    if Forward(BarePage(log)) {
      forall i, j | 0 <= i < j < |log|
        ensures log[i].changedAt <= log[j].changedAt
      {
        assert BarePage(log)[i].changedAt <= BarePage(log)[j].changedAt;
      }
    }
  }

  // With check times in commit order, the query answers with the very page the in-memory store's
  // walk returns, ids aside.
  lemma {:induction false} PagesAgree(hash: Pg.Hash, s: Pg.Db, endpointID: string, limit: nat, page: seq<Transition>)
    requires Pg.Inv(hash, s) && endpointID != "" && InOrder(Committed(s, endpointID))
    requires IsNewestPage(page, Selected(Replay(s.committed).transitions, endpointID), limit)
    ensures BarePage(QueryPage(s.transitions, endpointID, limit)) == BarePage(page)
  {
    PageIsNewest(page, Selected(Replay(s.committed).transitions, endpointID), limit);
    QueryAgrees(hash, s, endpointID, limit);
  }

  lemma {:induction false} QueryAgrees(hash: Pg.Hash, s: Pg.Db, endpointID: string, limit: nat)
    requires Pg.Inv(hash, s) && endpointID != "" && InOrder(Committed(s, endpointID))
    ensures PagesMatch(s.transitions, Selected(Replay(s.committed).transitions, endpointID), endpointID, limit)
  {
    SameTransitions(hash, s, endpointID);
    ForwardInOrder(hash, s, endpointID);
    PagesAgreeExactly(s, endpointID);
  }

  lemma {:induction false} ForwardInOrder(hash: Pg.Hash, s: Pg.Db, endpointID: string)
    requires Pg.Inv(hash, s) && InOrder(Committed(s, endpointID))
    ensures Forward(TransitionsOf(s.transitions, endpointID))
  {
    InvHoldsCommits(hash, s, endpointID);
    LogsAgree(Committed(s, endpointID));
    RunIsForward(Committed(s, endpointID));
  }

  lemma {:induction false} RunIsForward(writes: seq<Write>)
    requires InOrder(writes)
    ensures Forward(MemRun(writes).transitions)
  {
    TransitionsInOrder(writes);
  }
}
