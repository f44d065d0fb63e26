/** Which pods the evaluator keeps track of. */
module EvaluatorTracking {
  import opened EvaluatorTables
  import opened EvaluatorRuns

  /** Step `l` takes up an event of pod `k`. */
  ghost predicate Sees(l: Label, k: Key) {
    l.Begin? && Evaluated(l.event) && PodKey(l.event.podNamespace, l.event.podName) == k
  }

  lemma SeenStep(s: State, l: Label, k: Key)
    requires Enabled(s, l) && k in Next(s, l).tables.lastSeen && !Sees(l, k)
    ensures k in s.tables.lastSeen && Next(s, l).tables.lastSeen[k] == s.tables.lastSeen[k]
  {}

  /** The last-seen time of a tracked pod is the time of its latest event, slow or not. */
  lemma {:induction false} LastSeenIsLatestEvent(tr: seq<State>, ls: seq<Label>, j: nat, k: Key) returns (i: nat)
    requires IsRun(tr, ls) && j < |tr| && k in tr[j].tables.lastSeen
    ensures i < j && Sees(ls[i], k) && ls[i].now == tr[j].tables.lastSeen[k]
    ensures forall n :: i < n < j ==> !Sees(ls[n], k)
  {
    assert j > 0;
    assert StepAt(tr, ls, j - 1);
    if Sees(ls[j - 1], k) {
      i := j - 1;
    } else {
      SeenStep(tr[j - 1], ls[j - 1], k);
      i := LastSeenIsLatestEvent(tr, ls, j - 1, k);
    }
  }

  lemma EventsInOrder(tr: seq<State>, ls: seq<Label>, n: nat, i: nat, k: Key)
    requires IsRun(tr, ls) && n <= i < |ls| && Sees(ls[n], k) && Sees(ls[i], k)
    ensures ls[n].now <= ls[i].now
  {
    if n < i {
      assert StepAt(tr, ls, n) && StepAt(tr, ls, i);
      ClockMonotone(tr, ls, n + 1, i);
    }
  }

  /** A tick forgets a tracked pod exactly when every event it ever sent is more than three windows old, and then
      nothing of it stays in any table. */
  lemma ForgottenIffSilent(tr: seq<State>, ls: seq<Label>, j: nat, k: Key)
    requires IsRun(tr, ls) && j < |ls| && ls[j].Tick? && k in tr[j].tables.lastSeen
    ensures k !in tr[j + 1].tables.lastSeen <==>
            forall n :: 0 <= n < j && Sees(ls[n], k) ==>
                          ls[n].now < ls[j].now - RECOVERY_MULTIPLIER * Window(tr[j].tables, tr[j].defaults, k)
    ensures k !in tr[j + 1].tables.lastSeen ==>
              var t := tr[j + 1].tables; k !in t.violations && k !in t.unhealthy && k !in t.configs
  {
    assert StepAt(tr, ls, j);
    InvAlways(tr, ls, j + 1);
    var i := LastSeenIsLatestEvent(tr, ls, j, k);
    forall n | 0 <= n < j && Sees(ls[n], k) ensures ls[n].now <= ls[i].now {
      EventsInOrder(tr, ls, n, i, k);
    }
  }
}
