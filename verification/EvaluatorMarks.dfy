/** Which marks a pod can receive, and in what order, over whole runs. */
module EvaluatorMarks {
  import opened ApiTypes
  import opened TimeLists
  import opened EvaluatorTables
  import opened EvaluatorRuns

  /** The latest entry about `k`. */
  function LastEntry(trail: seq<Entry>, k: Key): Option<Entry> {
    if trail == [] then None
    else
      var n := |trail| - 1;
      if trail[n].key == k then Some(trail[n]) else LastEntry(trail[..n], k)
  }

  /** The latest mark sent for `k`; being forgotten as stale sends none. */
  function LastMark(trail: seq<Entry>, k: Key): Option<Entry> {
    if trail == [] then None
    else
      var n := |trail| - 1;
      if trail[n].key == k && !trail[n].Dropped? then Some(trail[n]) else LastMark(trail[..n], k)
  }

  ghost predicate Legal(before: seq<Entry>, e: Entry) {
    match e
    case MarkedUnhealthy(k) => LastEntry(before, k) != Some(MarkedUnhealthy(k))
    case MarkedHealthy(k) => LastMark(before, k) == Some(MarkedUnhealthy(k))
    case Dropped(k) => LastEntry(before, k) == Some(MarkedUnhealthy(k))
  }

  ghost predicate Disciplined(trail: seq<Entry>) {
    forall i :: 0 <= i < |trail| ==> Legal(trail[..i], trail[i])
  }

  ghost predicate Marked(s: State, k: Key) {
    k in s.tables.unhealthy <==> LastEntry(s.trail, k) == Some(MarkedUnhealthy(k))
  }

  ghost predicate QueueInv(s: State) {
    s.phase.Recovering? ==>
      && (forall i, j :: 0 <= i < j < |s.phase.queue| ==> s.phase.queue[i] != s.phase.queue[j])
      && (forall k :: k in s.phase.queue ==> LastMark(s.trail, k) == Some(MarkedUnhealthy(k)))
  }

  ghost predicate MarkInv(s: State) {
    Disciplined(s.trail) && QueueInv(s) && forall k: Key :: Marked(s, k)
  }

  lemma LastAppend(trail: seq<Entry>, e: Entry, k: Key)
    ensures LastEntry(trail + [e], k) == if e.key == k then Some(e) else LastEntry(trail, k)
    ensures LastMark(trail + [e], k) == if e.key == k && !e.Dropped? then Some(e) else LastMark(trail, k)
  {
    assert (trail + [e])[..|trail|] == trail;
  }

  lemma DisciplinedAppend(trail: seq<Entry>, e: Entry)
    requires Disciplined(trail) && Legal(trail, e)
    ensures Disciplined(trail + [e])
  {
    forall i | 0 <= i < |trail + [e]| ensures Legal((trail + [e])[..i], (trail + [e])[i]) {
      assert (trail + [e])[..i] == trail[..i];
      assert trail[..|trail|] == trail;
    }
  }

  lemma {:induction false} LastUnhealthyIsLastMark(trail: seq<Entry>, k: Key)
    requires LastEntry(trail, k) == Some(MarkedUnhealthy(k))
    ensures LastMark(trail, k) == Some(MarkedUnhealthy(k))
  {
    var n := |trail| - 1;
    if trail[n].key != k {
      LastUnhealthyIsLastMark(trail[..n], k);
    }
  }

  lemma {:induction false} DropAllEffect(trail: seq<Entry>, drops: seq<Key>)
    requires Disciplined(trail)
    requires forall k :: k in drops ==> LastEntry(trail, k) == Some(MarkedUnhealthy(k))
    requires forall i, j :: 0 <= i < j < |drops| ==> drops[i] != drops[j]
    ensures Disciplined(trail + DropAll(drops))
    ensures forall k: Key :: LastMark(trail + DropAll(drops), k) == LastMark(trail, k)
    ensures forall k: Key :: LastEntry(trail + DropAll(drops), k) ==
                             if k in drops then Some(Dropped(k)) else LastEntry(trail, k)
  {
    if drops == [] {
      assert trail + DropAll(drops) == trail;
    } else {
      var n := |drops| - 1;
      var front, d := drops[..n], drops[n];
      assert drops == front + [d];
      DropAllEffect(trail, front);
      var mid := trail + DropAll(front);
      assert trail + DropAll(drops) == mid + [Dropped(d)];
      assert d !in front;
      DisciplinedAppend(mid, Dropped(d));
      forall k: Key {
        LastAppend(mid, Dropped(d), k);
      }
    }
  }

  lemma MarkTick(s: State, now: Time, drops: seq<Key>, order: seq<Key>)
    requires MarkInv(s) && Enabled(s, Tick(now, drops, order))
    ensures MarkInv(Next(s, Tick(now, drops, order)))
  {
    forall k | k in s.tables.unhealthy ensures LastEntry(s.trail, k) == Some(MarkedUnhealthy(k)) {
      assert Marked(s, k);
    }
    DropAllEffect(s.trail, drops);
    forall k | k in order ensures LastMark(s.trail, k) == Some(MarkedUnhealthy(k)) {
      LastUnhealthyIsLastMark(s.trail, k);
    }
    var u := Next(s, Tick(now, drops, order));
    forall k: Key ensures Marked(u, k) {
      assert Marked(s, k);
    }
  }

  lemma MarkRecover(s: State)
    requires MarkInv(s) && Enabled(s, Recover)
    ensures MarkInv(Next(s, Recover))
  {
    var k := s.phase.queue[0];
    var u := Next(s, Recover);
    if Markable(k) {
      DisciplinedAppend(s.trail, MarkedHealthy(k));
      forall j: Key ensures Marked(u, j) {
        assert Marked(s, j);
        LastAppend(s.trail, MarkedHealthy(k), j);
      }
      forall j | j in s.phase.queue[1..] ensures LastMark(u.trail, j) == Some(MarkedUnhealthy(j)) {
        LastAppend(s.trail, MarkedHealthy(k), j);
      }
    } else {
      forall j: Key ensures Marked(u, j) {
        assert Marked(s, j);
      }
    }
  }

  lemma FinishCases(s: State, recount: Time)
    requires Enabled(s, Finish(recount))
    ensures var u, k := FinishEvent(s, recount), s.phase.key;
            && u.phase == Idle
            && ((u.tables.unhealthy == s.tables.unhealthy && u.trail == s.trail)
                || (k !in s.tables.unhealthy && u.tables.unhealthy == s.tables.unhealthy + {k}
                    && u.trail == s.trail + [MarkedUnhealthy(k)]))
  {}

  lemma Unchanged(s: State, u: State)
    requires MarkInv(s) && u.trail == s.trail && u.tables.unhealthy == s.tables.unhealthy && u.phase == Idle
    ensures MarkInv(u)
  {
    forall j: Key ensures Marked(u, j) {
      assert Marked(s, j);
    }
  }

  lemma NewlyMarked(s: State, u: State, k: Key)
    requires MarkInv(s) && k !in s.tables.unhealthy && u.phase == Idle
    requires u.trail == s.trail + [MarkedUnhealthy(k)] && u.tables.unhealthy == s.tables.unhealthy + {k}
    ensures MarkInv(u)
  {
    assert Marked(s, k);
    DisciplinedAppend(s.trail, MarkedUnhealthy(k));
    forall j: Key ensures Marked(u, j) {
      assert Marked(s, j);
      LastAppend(s.trail, MarkedUnhealthy(k), j);
    }
  }

  lemma MarkFinish(s: State, recount: Time)
    requires MarkInv(s) && Enabled(s, Finish(recount))
    ensures MarkInv(FinishEvent(s, recount))
  {
    FinishCases(s, recount);
    var u := FinishEvent(s, recount);
    if u.tables.unhealthy == s.tables.unhealthy && u.trail == s.trail {
      Unchanged(s, u);
    } else {
      NewlyMarked(s, u, s.phase.key);
    }
  }

  lemma MarkStep(s: State, l: Label)
    requires MarkInv(s) && Enabled(s, l)
    ensures MarkInv(Next(s, l))
  {
    match l
    case Finish(recount) => MarkFinish(s, recount);
    case Tick(now, drops, order) => MarkTick(s, now, drops, order);
    case Recover => MarkRecover(s);
    case Begin(_, _) => assert forall k: Key :: Marked(s, k) ==> Marked(Next(s, l), k);
    case Fetch(_) => assert forall k: Key :: Marked(s, k) ==> Marked(Next(s, l), k);
    case SyncPods(_) => assert forall k: Key :: Marked(s, k) ==> Marked(Next(s, l), k);
  }

  lemma {:induction false} MarkAlways(tr: seq<State>, ls: seq<Label>, i: nat)
    requires IsRun(tr, ls) && i < |tr|
    ensures MarkInv(tr[i])
  {
    if i > 0 {
      MarkAlways(tr, ls, i - 1);
      assert StepAt(tr, ls, i - 1);
      MarkStep(tr[i - 1], ls[i - 1]);
    }
  }

  // ---- the discipline in terms of positions in the trail ----

  lemma {:induction false} LastMarkPosition(trail: seq<Entry>, k: Key) returns (m: nat)
    requires LastMark(trail, k).Some?
    ensures m < |trail| && LastMark(trail, k) == Some(trail[m]) && trail[m].key == k
    ensures forall j :: m < j < |trail| && trail[j].key == k ==> trail[j].Dropped?
  {
    var n := |trail| - 1;
    if trail[n].key == k && !trail[n].Dropped? {
      m := n;
    } else {
      m := LastMarkPosition(trail[..n], k);
    }
  }

  lemma {:induction false} EntriesSince(trail: seq<Entry>, k: Key, i: nat)
    requires i < |trail| && trail[i].key == k && LastEntry(trail, k) != Some(trail[i])
    ensures exists j :: i < j < |trail| && LastEntry(trail, k) == Some(trail[j]) && trail[j].key == k
  {
    var n := |trail| - 1;
    if trail[n].key != k {
      EntriesSince(trail[..n], k, i);
      var j :| i < j < n && LastEntry(trail[..n], k) == Some(trail[j]) && trail[j].key == k;
    }
  }

  /** A "healthy" mark answers an "unhealthy" mark of the same pod, with no mark of that pod between. */
  lemma HealthyAnswersUnhealthy(tr: seq<State>, ls: seq<Label>, i: nat, j: nat, k: Key) returns (m: nat)
    requires IsRun(tr, ls) && i < |tr|
    requires j < |tr[i].trail| && tr[i].trail[j] == MarkedHealthy(k)
    ensures m < j && tr[i].trail[m] == MarkedUnhealthy(k)
    ensures forall n :: m < n < j && tr[i].trail[n].key == k ==> tr[i].trail[n].Dropped?
  {
    MarkAlways(tr, ls, i);
    var trail := tr[i].trail;
    assert Legal(trail[..j], trail[j]);
    m := LastMarkPosition(trail[..j], k);
  }

  /** Between two "unhealthy" marks of a pod it was marked healthy or forgotten as stale. */
  lemma UnhealthyMarksSeparated(tr: seq<State>, ls: seq<Label>, i: nat, a: nat, b: nat, k: Key) returns (m: nat)
    requires IsRun(tr, ls) && i < |tr|
    requires a < b < |tr[i].trail|
    requires tr[i].trail[a] == MarkedUnhealthy(k) && tr[i].trail[b] == MarkedUnhealthy(k)
    ensures a < m < b
    ensures tr[i].trail[m] == MarkedHealthy(k) || tr[i].trail[m] == Dropped(k)
  {
    MarkAlways(tr, ls, i);
    var trail := tr[i].trail;
    assert Legal(trail[..b], trail[b]);
    EntriesSince(trail[..b], k, a);
    m :| a < m < b && LastEntry(trail[..b], k) == Some(trail[m]) && trail[m].key == k;
  }

  /** A pod is in the unhealthy table exactly while the latest thing that happened to it,
      among marks and stale removals, is an "unhealthy" mark. */
  lemma UnhealthyIffLastMarked(tr: seq<State>, ls: seq<Label>, i: nat, k: Key)
    requires IsRun(tr, ls) && i < |tr|
    ensures k in tr[i].tables.unhealthy <==> LastEntry(tr[i].trail, k) == Some(MarkedUnhealthy(k))
    ensures k in tr[i].tables.unhealthy ==> LastMark(tr[i].trail, k) == Some(MarkedUnhealthy(k))
  {
    MarkAlways(tr, ls, i);
    assert Marked(tr[i], k);
    if k in tr[i].tables.unhealthy {
      LastUnhealthyIsLastMark(tr[i].trail, k);
    }
  }
}
