/** When a pod is marked healthy again.  RecoveryMultiplier is meant as the quiet time before a pod recovers; the
    tick that first finds the window empty deletes the list the quiet-time test needs.  RecoversIff says exactly
    which ticks recover a pod; while its window is constant only a late tick does. */
module EvaluatorRecovery {
  import opened TimeLists
  import opened EvaluatorTables
  import opened EvaluatorRuns

  /** The clock readings of the ticks among `ls`, in order. */
  function TickTimes(ls: seq<Label>): seq<Time> {
    if ls == [] then []
    else
      var n := |ls| - 1;
      TickTimes(ls[..n]) + (if ls[n].Tick? then [ls[n].now] else [])
  }

  // ---- safety: a recovery mark is never early ----

  /** A recovery in progress was started by a tick, and nothing was recorded since. */
  lemma {:induction false} RecoveryStart(tr: seq<State>, ls: seq<Label>, j: nat) returns (i: nat)
    requires IsRun(tr, ls) && j < |tr| && tr[j].phase.Recovering?
    ensures i < j && ls[i].Tick? && tr[j].log == tr[i].log
    ensures forall k :: k in tr[j].phase.queue ==> k in ls[i].order
  {
    assert j > 0;
    assert StepAt(tr, ls, j - 1);
    if ls[j - 1].Tick? {
      i := j - 1;
    } else {
      i := RecoveryStart(tr, ls, j - 1);
    }
  }

  /** Whenever a pod is marked healthy, every violation ever recorded for it, discarded ones included,
      is strictly older than three windows at the tick that decided it; there is at least one, so the
      zero-time alternative of the test never decides. */
  lemma SafeRecovery(tr: seq<State>, ls: seq<Label>, j: nat, k: Key) returns (i: nat)
    requires IsRun(tr, ls) && j < |ls| && StepAt(tr, ls, j) && ls[j].Recover? && tr[j].phase.queue[0] == k
    ensures i < j && ls[i].Tick? && Recovers(tr[i].tables, tr[i].defaults, ls[i].now, k)
    ensures Get(tr[j].log, k) != [] && Latest(Get(tr[i].tables.violations, k)) > 0
    ensures forall t :: t in Get(tr[j].log, k) ==>
                          t < ls[i].now - RECOVERY_MULTIPLIER * Window(tr[i].tables, tr[i].defaults, k)
  {
    assert StepAt(tr, ls, j);
    i := RecoveryStart(tr, ls, j);
    assert StepAt(tr, ls, i);
    assert k in tr[j].phase.queue && Enabled(tr[i], ls[i]);
    InvAlways(tr, ls, i);
    assert LogOf(tr[i], k);
    var kept, log := tr[i].tables.violations[k], Get(tr[i].log, k);
    LatestIsLast(kept, tr[i].tables.lastSeen[k]);
    assert kept[|kept| - 1] == log[|log| - 1];
    forall t | t in log ensures t <= log[|log| - 1] {
      var n :| 0 <= n < |log| && log[n] == t;
    }
  }

  // ---- exactly which ticks recover a pod, whatever happens to its window ----

  ghost function LastOf(times: seq<Time>): Time
    requires times != []
  {
    times[|times| - 1]
  }

  /** Tick `m` comes after the last violation of `log` was recorded, and finds it inside the window. */
  ghost predicate SparedAt(tr: seq<State>, ls: seq<Label>, m: nat, k: Key, log: seq<Time>)
    requires m < |ls| < |tr| && log != []
  {
    ls[m].Tick? && Get(tr[m].log, k) == log ==> LastOf(log) > ls[m].now - Window(tr[m].tables, tr[m].defaults, k)
  }

  /** There is a violation, and every tick since the last one was recorded found that one inside the window. */
  ghost predicate Spared(tr: seq<State>, ls: seq<Label>, i: nat, k: Key)
    requires i <= |ls| < |tr|
  {
    var log := Get(tr[i].log, k);
    log != [] && forall m :: 0 <= m < i ==> SparedAt(tr, ls, m, k, log)
  }

  lemma LogStep(s: State, l: Label, k: Key)
    requires Enabled(s, l)
    ensures Get(Next(s, l).log, k) == Get(s.log, k)
            || (l.Finish? && s.phase.key == k && s.phase.durationUs > s.phase.settings.thresholdUs
                && Get(Next(s, l).log, k) == Get(s.log, k) + [s.phase.now]
                && Get(Next(s, l).tables.violations, k) != [])
    ensures Get(Next(s, l).log, k) == Get(s.log, k) && !l.Tick? ==>
              Get(Next(s, l).tables.violations, k) == Get(s.tables.violations, k)
  {
    if l.Finish? && s.phase.key == k && s.phase.durationUs > s.phase.settings.thresholdUs {
      var grown := Get(s.log, k) + [s.phase.now];
      assert Get(Next(s, l).log, k) == grown && |grown| > |Get(s.log, k)|;
      assert Get(Next(s, l).tables.violations, k) == Get(s.tables.violations, k) + [s.phase.now];
    }
  }

  lemma LogLonger(s: State, l: Label, k: Key)
    requires Enabled(s, l)
    ensures |Get(s.log, k)| <= |Get(Next(s, l).log, k)|
  {
    LogStep(s, l, k);
  }

  lemma {:induction false} LogGrows(tr: seq<State>, ls: seq<Label>, i: nat, j: nat, k: Key)
    requires IsRun(tr, ls) && i <= j < |tr|
    ensures |Get(tr[i].log, k)| <= |Get(tr[j].log, k)|
    decreases j
  {
    if i < j {
      LogGrows(tr, ls, i, j - 1, k);
      assert StepAt(tr, ls, j - 1);
      LogLonger(tr[j - 1], ls[j - 1], k);
    }
  }

  lemma LastKept(s: State, k: Key)
    requires Inv(s) && Get(s.tables.violations, k) != []
    ensures Get(s.log, k) != [] && LastOf(Get(s.log, k)) == LastOf(Get(s.tables.violations, k)) > 0
    ensures Latest(Get(s.tables.violations, k)) == LastOf(Get(s.log, k))
  {
    assert LogOf(s, k);
    LatestIsLast(s.tables.violations[k], s.tables.lastSeen[k]);
  }

  /** A sorted list has nothing in the window exactly when its last entry is out. */
  lemma EmptyWindowIff(times: seq<Time>, cutoff: Time)
    requires Sorted(times) && times != []
    ensures After(times, cutoff) == [] <==> LastOf(times) <= cutoff
  {
    AfterMembers(times, cutoff);
    assert LastOf(times) in times;
    if LastOf(times) <= cutoff {
      AllOld(times, cutoff);
    }
  }

  lemma KeptAfterTick(s: State, now: Time, drops: seq<Key>, order: seq<Key>, k: Key)
    requires Inv(s)
    ensures Get(TickSweep(s, now, drops, order).tables.violations, k) != [] <==>
            && Get(s.tables.violations, k) != []
            && LastOf(Get(s.tables.violations, k)) > now - Window(s.tables, s.defaults, k)
  {
    TickMoves(s, now, drops, order, k);
    if Get(s.tables.violations, k) != [] {
      EmptyWindowIff(Get(s.tables.violations, k), now - Window(s.tables, s.defaults, k));
    }
  }

  lemma SparedNext(tr: seq<State>, ls: seq<Label>, i: nat, k: Key)
    requires IsRun(tr, ls) && i < |ls|
    requires Get(tr[i + 1].log, k) == Get(tr[i].log, k)
    ensures Spared(tr, ls, i + 1, k) <==> Spared(tr, ls, i, k) && SparedAt(tr, ls, i, k, Get(tr[i].log, k))
  {}

  lemma SparedAfresh(tr: seq<State>, ls: seq<Label>, i: nat, k: Key)
    requires IsRun(tr, ls) && i < |ls| && |Get(tr[i].log, k)| < |Get(tr[i + 1].log, k)|
    ensures Spared(tr, ls, i + 1, k)
  {
    var log := Get(tr[i + 1].log, k);
    forall m | 0 <= m <= i ensures SparedAt(tr, ls, m, k, log) {
      LogGrows(tr, ls, m, i, k);
    }
  }

  /** The evaluator still keeps violations of a pod exactly while the last one recorded was spared by every tick. */
  lemma {:induction false} KeptIffSpared(tr: seq<State>, ls: seq<Label>, i: nat, k: Key)
    requires IsRun(tr, ls) && i < |tr|
    ensures Get(tr[i].tables.violations, k) != [] <==> Spared(tr, ls, i, k)
  {
    if i > 0 {
      var s, l := tr[i - 1], ls[i - 1];
      KeptIffSpared(tr, ls, i - 1, k);
      assert StepAt(tr, ls, i - 1);
      LogStep(s, l, k);
      if Get(tr[i].log, k) == Get(s.log, k) {
        SparedNext(tr, ls, i - 1, k);
        InvAlways(tr, ls, i - 1);
        if l.Tick? {
          KeptAfterTick(s, l.now, l.drops, l.order, k);
        }
        if Get(s.tables.violations, k) != [] {
          LastKept(s, k);
        }
      } else {
        SparedAfresh(tr, ls, i - 1, k);
      }
    }
  }

  /** Tick `i` decides that `k` has recovered. */
  ghost predicate Queued(s: State, k: Key) {
    s.phase.Recovering? && k in s.phase.queue
  }

  lemma QueuedByTick(s: State, now: Time, drops: seq<Key>, order: seq<Key>, k: Key)
    requires Enabled(s, Tick(now, drops, order))
    ensures Queued(TickSweep(s, now, drops, order), k) <==> Recovers(s.tables, s.defaults, now, k)
  {
    assert k in Recoverable(s.tables, s.defaults, now) <==> Recovers(s.tables, s.defaults, now, k);
    assert order == [] ==> k !in order;
  }

  /** In every run and for every pod, whatever syncs do to its window: a tick takes the pod up for recovery if and
      only if the pod is unhealthy, its last violation is out of the window and older than the quiet time, and no
      earlier tick since that violation was recorded found it out of the window of that moment. */
  lemma RecoversIff(tr: seq<State>, ls: seq<Label>, i: nat, k: Key)
    requires IsRun(tr, ls) && i < |ls| && ls[i].Tick?
    ensures Queued(tr[i + 1], k) <==>
            && k in tr[i].tables.unhealthy
            && Spared(tr, ls, i, k)
            && var v, now, w := LastOf(Get(tr[i].log, k)), ls[i].now, Window(tr[i].tables, tr[i].defaults, k);
               v <= now - w && v < now - RECOVERY_MULTIPLIER * w
  {
    assert StepAt(tr, ls, i);
    InvAlways(tr, ls, i);
    KeptIffSpared(tr, ls, i, k);
    var s, now := tr[i], ls[i].now;
    QueuedByTick(s, now, ls[i].drops, ls[i].order, k);
    if Get(s.tables.violations, k) != [] {
      LastKept(s, k);
      EmptyWindowIff(Get(s.tables.violations, k), now - Window(s.tables, s.defaults, k));
    }
  }

  // ---- which tick schedules allow it, for a constant window ----

  /** Tick `n` is late enough to recover a pod with window `w`. */
  ghost predicate Late(start: Time, ts: seq<Time>, w: int, n: nat) {
    && n < |ts|
    && ts[n] - start > RECOVERY_MULTIPLIER * w
    && (n > 0 ==> ts[n] - ts[n - 1] > (RECOVERY_MULTIPLIER - 1) * w + 1)
  }

  ghost predicate CanRecover(start: Time, ts: seq<Time>, w: int) {
    exists n :: Late(start, ts, w, n)
  }

  /** Tick `i` finds violations of `k`: only then does its window matter. */
  ghost predicate Examines(tr: seq<State>, ls: seq<Label>, i: nat, k: Key)
    requires IsRun(tr, ls)
  {
    i < |ls| && ls[i].Tick? && k in tr[i].tables.violations
  }

  ghost predicate ConstantWindow(tr: seq<State>, ls: seq<Label>, k: Key, w: int)
    requires IsRun(tr, ls)
  {
    forall i: nat :: Examines(tr, ls, i, k) ==> Window(tr[i].tables, tr[i].defaults, k) == w
  }

  /** No earlier than the start, and inside the window of the last tick. */
  ghost predicate RecentTime(t: Time, start: Time, ts: seq<Time>, w: int) {
    start <= t && (ts != [] ==> ts[|ts| - 1] - w < t)
  }

  ghost predicate Recent(s: State, k: Key, start: Time, ts: seq<Time>, w: int) {
    && start <= s.clock && (ts != [] ==> ts[|ts| - 1] <= s.clock)
    && (s.phase.Fetching? || s.phase.Judging? ==> RecentTime(s.phase.now, start, ts, w))
    && (forall t :: t in Get(s.tables.violations, k) ==> RecentTime(t, start, ts, w))
  }

  lemma RecentKept(times: seq<Time>, now: Time, start: Time, ts: seq<Time>, w: int)
    requires forall t :: t in times ==> RecentTime(t, start, ts, w)
    ensures forall t :: t in After(times, now - w) ==> RecentTime(t, start, ts + [now], w)
  {
    AfterMembers(times, now - w);
  }

  lemma RecentTick(s: State, u: State, k: Key, start: Time, ts: seq<Time>, w: int)
    requires s.clock <= u.clock && w > 0 && Recent(s, k, start, ts, w)
    requires k in s.tables.violations ==> Window(s.tables, s.defaults, k) == w
    requires u.phase.Idle? || u.phase.Recovering?
    requires Get(u.tables.violations, k) == Kept(s.tables, s.defaults, u.clock, k)
    ensures Recent(u, k, start, ts + [u.clock], w)
  {
    RecentKept(Get(s.tables.violations, k), u.clock, start, ts, w);
  }

  lemma RecentFinish(s: State, recount: Time, k: Key, start: Time, ts: seq<Time>, w: int)
    requires Enabled(s, Finish(recount)) && Recent(s, k, start, ts, w)
    ensures Recent(FinishEvent(s, recount), k, start, ts, w)
  {
    var u := FinishEvent(s, recount);
    if s.phase.key == k && s.phase.durationUs > s.phase.settings.thresholdUs {
      assert Get(u.tables.violations, k) == Get(s.tables.violations, k) + [s.phase.now];
    } else {
      assert Get(u.tables.violations, k) == Get(s.tables.violations, k);
    }
  }

  /** Steps other than ticks and evaluations record nothing. */
  lemma RecentOther(s: State, l: Label, k: Key, start: Time, ts: seq<Time>, w: int)
    requires Enabled(s, l) && !l.Tick? && !l.Finish? && Recent(s, k, start, ts, w) && w > 0
    ensures Recent(Next(s, l), k, start, ts, w)
  {
    assert Next(s, l).tables.violations == s.tables.violations;
  }

  lemma RecentStep(s: State, l: Label, k: Key, start: Time, ts: seq<Time>, w: int)
    requires Enabled(s, l) && w > 0 && Recent(s, k, start, ts, w)
    requires l.Tick? && k in s.tables.violations ==> Window(s.tables, s.defaults, k) == w
    ensures Recent(Next(s, l), k, start, if l.Tick? then ts + [l.now] else ts, w)
  {
    match l
    case Tick(now, drops, order) =>
      TickMoves(s, now, drops, order, k);
      RecentTick(s, Next(s, l), k, start, ts, w);
    case Finish(recount) => RecentFinish(s, recount, k, start, ts, w);
    case _ => RecentOther(s, l, k, start, ts, w);
  }

  lemma RecoversOnlyLate(s: State, now: Time, k: Key, start: Time, ts: seq<Time>, w: int)
    requires Inv(s) && w > 0 && Recent(s, k, start, ts, w)
    requires Window(s.tables, s.defaults, k) == w && Recovers(s.tables, s.defaults, now, k)
    ensures Late(start, ts + [now], w, |ts|)
  {
    var kept := s.tables.violations[k];
    LatestIsLast(kept, s.tables.lastSeen[k]);
    assert kept[|kept| - 1] in kept;
  }

  lemma LateExtends(start: Time, ts: seq<Time>, more: seq<Time>, w: int)
    requires CanRecover(start, ts, w)
    ensures CanRecover(start, ts + more, w)
  {
    var n :| Late(start, ts, w, n);
    assert Late(start, ts + more, w, n);
  }

  ghost predicate Untouched(s: State, k: Key) {
    MarkedHealthy(k) !in s.trail && (s.phase.Recovering? ==> k !in s.phase.queue)
  }

  lemma UntouchedStep(s: State, l: Label, k: Key)
    requires Enabled(s, l) && Untouched(s, k)
    requires l.Tick? ==> !Recovers(s.tables, s.defaults, l.now, k)
    ensures Untouched(Next(s, l), k)
  {
    match l
    case Tick(now, drops, order) => assert MarkedHealthy(k) !in DropAll(drops);
    case Recover => assert s.phase.queue[0] in s.phase.queue;
    case _ =>
  }

  lemma {:induction false} NoLateTickNoRecovery(tr: seq<State>, ls: seq<Label>, j: nat, k: Key, w: int)
    requires IsRun(tr, ls) && j < |tr| && w > 0 && ConstantWindow(tr, ls, k, w)
    requires !CanRecover(tr[0].clock, TickTimes(ls[..j]), w)
    ensures Untouched(tr[j], k) && Recent(tr[j], k, tr[0].clock, TickTimes(ls[..j]), w)
  {
    if j > 0 {
      var start, ts, s, l := tr[0].clock, TickTimes(ls[..j - 1]), tr[j - 1], ls[j - 1];
      assert StepAt(tr, ls, j - 1);
      assert ls[..j][..j - 1] == ls[..j - 1];
      assert TickTimes(ls[..j]) == ts + (if l.Tick? then [l.now] else []);
      if CanRecover(start, ts, w) {
        LateExtends(start, ts, if l.Tick? then [l.now] else [], w);
      }
      NoLateTickNoRecovery(tr, ls, j - 1, k, w);
      InvAlways(tr, ls, j - 1);
      assert l.Tick? && k in s.tables.violations ==> Examines(tr, ls, j - 1, k);
      RecentStep(s, l, k, start, ts, w);
      if l.Tick? && Recovers(s.tables, s.defaults, l.now, k) {
        RecoversOnlyLate(s, l.now, k, start, ts, w);
      }
      UntouchedStep(s, l, k);
    }
  }

  /** Necessity: a run that marks a pod healthy whose window is the same whenever a tick finds violations of it has a
      late tick. */
  lemma RecoveryNeedsLateTick(tr: seq<State>, ls: seq<Label>, k: Key, w: int)
    requires IsRun(tr, ls) && w > 0 && ConstantWindow(tr, ls, k, w)
    requires MarkedHealthy(k) in tr[|ls|].trail
    ensures CanRecover(tr[0].clock, TickTimes(ls), w)
  {
    if !CanRecover(tr[0].clock, TickTimes(ls), w) {
      assert ls[..|ls|] == ls;
      NoLateTickNoRecovery(tr, ls, |ls|, k, w);
    }
  }

  // ---- punctual ticks ----

  ghost predicate OnTime(start: Time, ts: seq<Time>, period: int, n: nat)
    requires n < |ts|
  {
    ts[n] <= (if n == 0 then start else ts[n - 1]) + period
  }

  /** No tick comes more than `period` after the one before it, nor the first after the start. */
  ghost predicate Punctual(start: Time, ts: seq<Time>, period: int) {
    forall n :: 0 <= n < |ts| ==> OnTime(start, ts, period, n)
  }

  ghost function Previous(start: Time, ts: seq<Time>): Time {
    if ts == [] then start else ts[|ts| - 1]
  }

  ghost predicate IsLastTick(ls: seq<Label>, m: nat, i: nat) {
    m < i <= |ls| && ls[m].Tick? && forall n :: m < n < i ==> !ls[n].Tick?
  }

  /** The last violation known at step `i` is no older than the last tick before it, or that tick knew it already. */
  ghost predicate NewOrKnown(tr: seq<State>, ls: seq<Label>, i: nat, k: Key, prev: Time)
    requires IsRun(tr, ls) && i < |tr|
  {
    var log := Get(tr[i].log, k);
    log != [] ==>
      || prev <= LastOf(log)
      || exists m: nat :: IsLastTick(ls, m, i) && ls[m].now == prev && Get(tr[m].log, k) == log
  }

  lemma TickTimesStep(ls: seq<Label>, i: nat, start: Time)
    requires i < |ls|
    ensures TickTimes(ls[..i + 1]) == TickTimes(ls[..i]) + (if ls[i].Tick? then [ls[i].now] else [])
    ensures Previous(start, TickTimes(ls[..i + 1])) ==
              if ls[i].Tick? then ls[i].now else Previous(start, TickTimes(ls[..i]))
  {
    assert ls[..i + 1][..i] == ls[..i];
  }

  lemma NewOrKnownStep(tr: seq<State>, ls: seq<Label>, i: nat, k: Key, prev: Time)
    requires IsRun(tr, ls) && i < |ls| && NewOrKnown(tr, ls, i, k, prev)
    requires tr[i].phase.Judging? ==> prev <= tr[i].phase.now
    ensures NewOrKnown(tr, ls, i + 1, k, if ls[i].Tick? then ls[i].now else prev)
  {
    assert StepAt(tr, ls, i);
    LogStep(tr[i], ls[i], k);
    var log := Get(tr[i].log, k);
    if ls[i].Tick? {
      assert IsLastTick(ls, i, i + 1);
    } else if Get(tr[i + 1].log, k) == log && log != [] && LastOf(log) < prev {
      var m: nat :| IsLastTick(ls, m, i) && ls[m].now == prev && Get(tr[m].log, k) == log;
      assert IsLastTick(ls, m, i + 1);
    }
  }

  lemma {:induction false} SinceLastTick(tr: seq<State>, ls: seq<Label>, i: nat, k: Key)
    requires IsRun(tr, ls) && i < |tr|
    ensures var prev := Previous(tr[0].clock, TickTimes(ls[..i]));
            && prev <= tr[i].clock && NewOrKnown(tr, ls, i, k, prev)
            && (tr[i].phase.Fetching? || tr[i].phase.Judging? ==> prev <= tr[i].phase.now)
  {
    if i > 0 {
      SinceLastTick(tr, ls, i - 1, k);
      assert StepAt(tr, ls, i - 1);
      InvAlways(tr, ls, i);
      TickTimesStep(ls, i - 1, tr[0].clock);
      NewOrKnownStep(tr, ls, i - 1, k, Previous(tr[0].clock, TickTimes(ls[..i - 1])));
    }
  }

  lemma {:induction false} TickTimesPrefix(ls: seq<Label>, i: nat)
    requires i <= |ls|
    ensures TickTimes(ls[..i]) <= TickTimes(ls)
  {
    var n := |ls| - 1;
    if i <= n {
      TickTimesPrefix(ls[..n], i);
      assert ls[..n][..i] == ls[..i];
    } else {
      assert ls[..i] == ls;
    }
  }

  lemma PunctualAfter(start: Time, ts: seq<Time>, before: seq<Time>, now: Time, period: int)
    requires Punctual(start, ts, period) && before + [now] <= ts
    ensures now <= Previous(start, before) + period
  {
    var n := |before|;
    assert OnTime(start, ts, period, n);
    assert ts[n] == (before + [now])[n] == now;
    assert n > 0 ==> ts[n - 1] == (before + [now])[n - 1] == before[n - 1];
  }

  lemma PunctualTick(start: Time, ls: seq<Label>, i: nat, period: int)
    requires i < |ls| && ls[i].Tick? && Punctual(start, TickTimes(ls), period)
    ensures ls[i].now <= Previous(start, TickTimes(ls[..i])) + period
  {
    TickTimesStep(ls, i, start);
    TickTimesPrefix(ls, i + 1);
    PunctualAfter(start, TickTimes(ls), TickTimes(ls[..i]), ls[i].now, period);
  }

  /** With every tick on time, a tick recovers a pod with a window of a second or more only if the window has shrunk
      since the tick before, which still found the last violation inside. */
  lemma PunctualRecoveryNeedsShrink(tr: seq<State>, ls: seq<Label>, i: nat, k: Key) returns (m: nat)
    requires IsRun(tr, ls) && i < |ls| && ls[i].Tick? && Queued(tr[i + 1], k)
    requires Punctual(tr[0].clock, TickTimes(ls), 2 * SECOND)
    requires Window(tr[i].tables, tr[i].defaults, k) >= SECOND
    ensures IsLastTick(ls, m, i) && Examines(tr, ls, m, k)
    ensures Window(tr[m].tables, tr[m].defaults, k) > Window(tr[i].tables, tr[i].defaults, k)
  {
    RecoversIff(tr, ls, i, k);
    SinceLastTick(tr, ls, i, k);
    PunctualTick(tr[0].clock, ls, i, 2 * SECOND);
    var prev, log := Previous(tr[0].clock, TickTimes(ls[..i])), Get(tr[i].log, k);
    m :| IsLastTick(ls, m, i) && ls[m].now == prev && Get(tr[m].log, k) == log;
    assert SparedAt(tr, ls, m, k, log);
    assert Spared(tr, ls, m, k);
    KeptIffSpared(tr, ls, m, k);
  }

  lemma {:induction false} HealthyMarkStep(tr: seq<State>, ls: seq<Label>, j: nat, k: Key) returns (i: nat)
    requires IsRun(tr, ls) && j < |tr| && MarkedHealthy(k) in tr[j].trail
    ensures i < j && ls[i].Recover? && tr[i].phase.Recovering? && tr[i].phase.queue != [] && tr[i].phase.queue[0] == k
  {
    assert j > 0;
    assert StepAt(tr, ls, j - 1);
    if MarkedHealthy(k) in tr[j - 1].trail {
      i := HealthyMarkStep(tr, ls, j - 1, k);
    } else {
      i := j - 1;
    }
  }

  /** From one tick to the next, as long as both find violations of `k`, its window does not shrink; and it is a second
      or more. */
  ghost predicate NeverShrinks(tr: seq<State>, ls: seq<Label>, k: Key)
    requires IsRun(tr, ls)
  {
    && (forall i: nat :: Examines(tr, ls, i, k) ==> Window(tr[i].tables, tr[i].defaults, k) >= SECOND)
    && (forall m: nat, i: nat :: IsLastTick(ls, m, i) && Examines(tr, ls, m, k) && Examines(tr, ls, i, k) ==>
                                   Window(tr[m].tables, tr[m].defaults, k) <= Window(tr[i].tables, tr[i].defaults, k))
  }

  /** The ticker fires every two seconds: with every tick on time no pod, whether its window comes from a policy or is
      the default, is ever marked healthy, unless its window shrinks. */
  lemma PunctualTicksNeverRecover(tr: seq<State>, ls: seq<Label>, k: Key)
    requires IsRun(tr, ls) && NeverShrinks(tr, ls, k)
    requires Punctual(tr[0].clock, TickTimes(ls), 2 * SECOND)
    ensures MarkedHealthy(k) !in tr[|ls|].trail
  {
    if MarkedHealthy(k) in tr[|ls|].trail {
      var j := HealthyMarkStep(tr, ls, |ls|, k);
      assert StepAt(tr, ls, j);
      var i := SafeRecovery(tr, ls, j, k);
      assert StepAt(tr, ls, i) && Examines(tr, ls, i, k);
      QueuedByTick(tr[i], ls[i].now, ls[i].drops, ls[i].order, k);
      var m := PunctualRecoveryNeedsShrink(tr, ls, i, k);
    }
  }

  /** A constant window of whole seconds is a case of it. */
  lemma ConstantNeverShrinks(tr: seq<State>, ls: seq<Label>, k: Key, windowSize: int)
    requires IsRun(tr, ls) && windowSize >= 1 && ConstantWindow(tr, ls, k, windowSize * SECOND)
    ensures NeverShrinks(tr, ls, k)
  {}
}
