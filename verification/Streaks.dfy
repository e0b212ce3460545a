// What was handed to the store about one endpoint, whether the store kept it or not: the run of
// Unavailable verdicts it ends with, and what of it reached the record.
module Streaks {
  import opened Domain
  import opened Scheduler

  /** A result about the endpoint that says how it is; Maintenance does not. */
  predicate IsVerdict(h: Handed, id: string) {
    h.write.result.endpointID == id && h.write.result.state != Maintenance
  }

  /** The length of the trailing run of Unavailable verdicts on the endpoint. */
  function Streak(handed: seq<Handed>, id: string): nat {
    if handed == [] then 0
    else
      var init, last := handed[..|handed| - 1], handed[|handed| - 1];
      if !IsVerdict(last, id) then Streak(init, id)
      else if last.write.result.state == Unavailable then Streak(init, id) + 1
      else 0
  }

  /** The store kept none of that run. */
  predicate StreakLost(handed: seq<Handed>, id: string) {
    handed != [] ==>
      var init, last := handed[..|handed| - 1], handed[|handed| - 1];
      if !IsVerdict(last, id) then StreakLost(init, id)
      else last.write.result.state == Unavailable ==> !last.kept && StreakLost(init, id)
  }

  /** What was handed over before that run. */
  function BeforeStreak(handed: seq<Handed>, id: string): seq<Handed> {
    if handed == [] then []
    else
      var init, last := handed[..|handed| - 1], handed[|handed| - 1];
      if !IsVerdict(last, id) || last.write.result.state == Unavailable then BeforeStreak(init, id) else handed
  }

  /** The newest verdict the store kept; `before` if it kept none. */
  function KeptVerdict(handed: seq<Handed>, id: string, before: Option<State>): Option<State> {
    if handed == [] then before
    else
      var last := handed[|handed| - 1];
      if IsVerdict(last, id) && last.kept then Some(last.write.result.state)
      else KeptVerdict(handed[..|handed| - 1], id, before)
  }

  /** Something of the run is on record, or the record was that of an outage before the run began. */
  predicate OutageShows(handed: seq<Handed>, id: string, before: Option<State>) {
    !StreakLost(handed, id) || KeptVerdict(BeforeStreak(handed, id), id, before) == Some(Unavailable)
  }

  /** How many verdicts on the endpoint the store lost. */
  function Losses(handed: seq<Handed>, id: string): nat {
    if handed == [] then 0
    else
      var last := handed[|handed| - 1];
      Losses(handed[..|handed| - 1], id) + if IsVerdict(last, id) && !last.kept then 1 else 0
  }

  // Losing the whole run takes as many losses as the run is long.
  lemma {:induction false} StreakTakesLosses(handed: seq<Handed>, id: string)
    requires StreakLost(handed, id)
    ensures Losses(handed, id) >= Streak(handed, id)
  {
    if handed == [] {
    } else {
      var init, last := handed[..|handed| - 1], handed[|handed| - 1];
      if !IsVerdict(last, id) || last.write.result.state == Unavailable {
        StreakTakesLosses(init, id);
      }
    }
  }

  lemma {:induction false} StreakSnoc(handed: seq<Handed>, h: Handed, id: string)
    ensures Streak(handed + [h], id)
         == if !IsVerdict(h, id) then Streak(handed, id)
            else if h.write.result.state == Unavailable then Streak(handed, id) + 1
            else 0
  {
    assert (handed + [h])[..|handed + [h]| - 1] == handed;
  }

  lemma {:induction false} KeptVerdictSnoc(handed: seq<Handed>, h: Handed, id: string, before: Option<State>)
    ensures KeptVerdict(handed + [h], id, before)
         == if IsVerdict(h, id) && h.kept then Some(h.write.result.state) else KeptVerdict(handed, id, before)
  {
    assert (handed + [h])[..|handed + [h]| - 1] == handed;
  }

  lemma {:induction false} LostStreakHidesNothingOlder(handed: seq<Handed>, id: string, before: Option<State>)
    ensures KeptVerdict(handed, id, before)
         == if StreakLost(handed, id) then KeptVerdict(BeforeStreak(handed, id), id, before) else Some(Unavailable)
  {
    if handed == [] {
    } else {
      LostStreakHidesNothingOlder(handed[..|handed| - 1], id, before);
    }
  }

  // The record says Unavailable exactly when something of the run was kept, or all of it was lost
  // and the record said so before.
  lemma {:induction false} OutageShowsExactly(handed: seq<Handed>, id: string, before: Option<State>)
    ensures KeptVerdict(handed, id, before) == Some(Unavailable) <==> OutageShows(handed, id, before)
  {
    LostStreakHidesNothingOlder(handed, id, before);
  }
}
