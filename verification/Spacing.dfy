// How many instants, pairwise a fixed distance apart, fit in a span of time.
module Spacing {
  import opened Domain

  /** Later members of `picked` are at least `gap` after earlier ones. */
  ghost predicate Separated(times: seq<Time>, picked: set<nat>, gap: Duration) {
    && (forall i <- picked :: i < |times|)
    && (forall i, j | i in picked && j in picked && i < j :: times[j] - times[i] >= gap)
  }

  lemma LargestMember(picked: set<nat>) returns (last: nat)
    requires picked != {}
    ensures last in picked && forall i <- picked :: i <= last
  {
    var some :| some in picked;
    if picked == {some} {
      last := some;
    } else {
      var rest := picked - {some};
      assert picked == rest + {some};
      var m := LargestMember(rest);
      last := if some <= m then m else some;
    }
  }

  lemma {:induction false} SeparatedSpan(times: seq<Time>, picked: set<nat>, gap: Duration, from: Time, to: Time)
    requires gap > 0 && from <= to
    requires Separated(times, picked, gap)
    requires forall i <- picked :: from <= times[i] <= to
    ensures gap * (|picked| - 1) <= to - from
    decreases |picked|
  {
    if picked == {} {
    } else {
      var last := LargestMember(picked);
      var rest := picked - {last};
      assert |picked| == |rest| + 1;
      if rest == {} {
      } else {
        var some :| some in rest;
        assert from <= times[some] <= times[last] - gap;
        SeparatedSpan(times, rest, gap, from, times[last] - gap);
        assert gap * (|picked| - 1) == gap * (|rest| - 1) + gap;
      }
    }
  }

  // At most floor(L / gap) + 1 instants, pairwise at least `gap` apart, lie in a span of length L.
  lemma SeparatedBound(times: seq<Time>, picked: set<nat>, gap: Duration, from: Time, to: Time)
    requires gap > 0 && from <= to
    requires Separated(times, picked, gap)
    requires forall i <- picked :: from <= times[i] <= to
    ensures |picked| <= (to - from) / gap + 1
  {
    SeparatedSpan(times, picked, gap, from, to);
    FitsQuotient(gap, |picked| - 1, to - from);
  }

  lemma FitsQuotient(d: int, n: int, total: int)
    requires d > 0 && d * n <= total
    ensures n <= total / d
  {
    var q := total / d;
    assert total < d * q + d;
    assert d * n < d * (q + 1);
    Cancel(d, n, q + 1);
  }

  lemma Cancel(d: int, a: int, b: int)
    requires d > 0 && d * a < d * b
    ensures a < b
  {}
}
