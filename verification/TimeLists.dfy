/** Lists of clock readings, as the evaluator keeps them per pod. */
module TimeLists {

  /** Nanoseconds.  0 stands for Go's zero time; every clock reading is positive. */
  type Time = int

  /** The readings strictly later than `cutoff`, in order. */
  function After(times: seq<Time>, cutoff: Time): seq<Time> {
    if times == [] then []
    else
      var n := |times| - 1;
      After(times[..n], cutoff) + (if times[n] > cutoff then [times[n]] else [])
  }

  /** The readings that `After` leaves out, in order. */
  function NotAfter(times: seq<Time>, cutoff: Time): seq<Time> {
    if times == [] then []
    else
      var n := |times| - 1;
      NotAfter(times[..n], cutoff) + (if times[n] > cutoff then [] else [times[n]])
  }

  /** The latest reading, or the zero time when there is none later than it. */
  function Latest(times: seq<Time>): Time {
    if times == [] then 0
    else
      var n := |times| - 1;
      var m := Latest(times[..n]);
      if times[n] > m then times[n] else m
  }

  ghost predicate Sorted(times: seq<Time>) {
    forall i, j :: 0 <= i < j < |times| ==> times[i] <= times[j]
  }

  /** Every reading is a real one, not later than `bound`. */
  ghost predicate Within(times: seq<Time>, bound: Time) {
    forall t :: t in times ==> 0 < t <= bound
  }

  lemma {:induction false} AfterMembers(times: seq<Time>, cutoff: Time)
    ensures forall t :: t in After(times, cutoff) <==> t in times && t > cutoff
    ensures forall t :: t in NotAfter(times, cutoff) <==> t in times && t <= cutoff
    ensures |After(times, cutoff)| + |NotAfter(times, cutoff)| == |times|
  {
    if times != [] {
      var n := |times| - 1;
      AfterMembers(times[..n], cutoff);
      assert times == times[..n] + [times[n]];
    }
  }

  /** `After` keeps one entry for each position with a later reading. */
  lemma {:induction false} AfterCounts(times: seq<Time>, cutoff: Time)
    ensures |After(times, cutoff)| == |set i | 0 <= i < |times| && times[i] > cutoff|
  {
    var later := set i | 0 <= i < |times| && times[i] > cutoff;
    if times != [] {
      var n := |times| - 1;
      var front := times[..n];
      AfterCounts(front, cutoff);
      var before := set i | 0 <= i < |front| && front[i] > cutoff;
      assert later == before + (if times[n] > cutoff then {n} else {});
    }
  }

  lemma AfterAppend(times: seq<Time>, t: Time, cutoff: Time)
    ensures After(times + [t], cutoff) == After(times, cutoff) + (if t > cutoff then [t] else [])
  {
    assert (times + [t])[..|times|] == times;
  }

  lemma {:induction false} AfterConcat(a: seq<Time>, b: seq<Time>, cutoff: Time)
    ensures After(a + b, cutoff) == After(a, cutoff) + After(b, cutoff)
  {
    if b == [] {
      assert a + b == a;
    } else {
      var front, last := b[..|b| - 1], b[|b| - 1];
      AfterConcat(a, front, cutoff);
      assert a + b == (a + front) + [last];
      AfterAppend(a + front, last, cutoff);
    }
  }

  lemma {:induction false} AllOld(times: seq<Time>, cutoff: Time)
    requires forall i :: 0 <= i < |times| ==> times[i] <= cutoff
    ensures After(times, cutoff) == []
  {
    if times != [] {
      var n := |times| - 1;
      AllOld(times[..n], cutoff);
    }
  }

  lemma AfterOne(t: Time, cutoff: Time)
    ensures After([t], cutoff) == if t > cutoff then [t] else []
    ensures NotAfter([t], cutoff) == if t > cutoff then [] else [t]
  {
    assert [t][..0] == [];
  }

  /** Pruning a sorted list cuts off a prefix: what is dropped followed by what is kept is the list. */
  lemma {:induction false} SortedSplits(times: seq<Time>, cutoff: Time)
    requires Sorted(times)
    ensures times == NotAfter(times, cutoff) + After(times, cutoff)
  {
    if times != [] {
      var front, last := times[..|times| - 1], times[|times| - 1];
      SortedSplits(front, cutoff);
      assert times == front + [last];
      if last <= cutoff {
        AllOld(front, cutoff);
        assert NotAfter(times, cutoff) == front + [last];
      } else {
        assert NotAfter(times, cutoff) == NotAfter(front, cutoff);
      }
    }
  }

  lemma AfterKeepsOrder(times: seq<Time>, cutoff: Time, bound: Time)
    requires Sorted(times) && Within(times, bound)
    ensures Sorted(After(times, cutoff)) && Within(After(times, cutoff), bound)
  {
    AfterMembers(times, cutoff);
    SortedSplits(times, cutoff);
    var n := |NotAfter(times, cutoff)|;
    assert After(times, cutoff) == times[n..];
  }

  lemma SortedAppend(times: seq<Time>, t: Time)
    requires Sorted(times) && Within(times, t) && t > 0
    ensures Sorted(times + [t]) && Within(times + [t], t)
  {
    forall i | 0 <= i < |times| ensures times[i] <= t {
      assert times[i] in times;
    }
  }

  /** For any list: no reading is later than the latest, and the latest is a reading or, with none after it, zero. */
  lemma {:induction false} LatestIsGreatest(times: seq<Time>)
    ensures forall t :: t in times ==> t <= Latest(times)
    ensures Latest(times) in times || Latest(times) == 0
    ensures Latest(times) >= 0
  {
    if times != [] {
      var n := |times| - 1;
      LatestIsGreatest(times[..n]);
      assert times == times[..n] + [times[n]];
    }
  }

  /** In a sorted list of real readings the latest is the last. */
  lemma {:induction false} LatestIsLast(times: seq<Time>, bound: Time)
    requires Sorted(times) && Within(times, bound) && times != []
    ensures Latest(times) == times[|times| - 1] > 0
  {
    var n := |times| - 1;
    assert times[n] in times;
    if n > 0 {
      var front := times[..n];
      assert forall t :: t in front ==> t in times;
      LatestIsLast(front, bound);
      assert front[n - 1] == times[n - 1] <= times[n];
    }
  }
}
