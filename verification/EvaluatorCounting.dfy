/** When the count over the pruned list is the count over everything ever recorded, and hence
    when a pod turns unhealthy exactly as docs/governance-architecture.md asks. */
module EvaluatorCounting {
  import opened ApiTypes
  import opened TimeLists
  import opened EvaluatorTables
  import opened EvaluatorRuns

  /** Step `l` evaluates pod `k`. */
  ghost predicate Judges(s: State, l: Label, k: Key) {
    l.Finish? && s.phase.Judging? && s.phase.key == k
  }

  /** The documented rule over the full log: this event is slow, and with it more violations than
      the limit were recorded in the window ending at the recount. */
  ghost predicate Breach(s: State, l: Label, k: Key)
    requires Judges(s, l, k)
  {
    && s.phase.durationUs > s.phase.settings.thresholdUs
    && RuleCount(s, l, k) > s.phase.settings.limit
  }

  // ---- what ticks discard ----

  /** The latest reading that tick `i` counts as out of the window of `k`. */
  ghost function Cutoff(tr: seq<State>, ls: seq<Label>, i: nat, k: Key): Time
    requires i < |ls| < |tr| && ls[i].Tick?
  {
    ls[i].now - Window(tr[i].tables, tr[i].defaults, k)
  }

  /** Step `i` is a tick with `t` in the log of `k` by then and outside the window. */
  ghost predicate OutAt(tr: seq<State>, ls: seq<Label>, i: nat, k: Key, t: Time)
    requires i < |ls| < |tr|
  {
    ls[i].Tick? && t in Get(tr[i].log, k) && t <= Cutoff(tr, ls, i, k)
  }

  ghost predicate OutBefore(tr: seq<State>, ls: seq<Label>, j: nat, k: Key, t: Time)
    requires j <= |ls| < |tr|
  {
    exists i :: 0 <= i < j && OutAt(tr, ls, i, k, t)
  }

  lemma OnlyTicksPrune(s: State, l: Label)
    requires Enabled(s, l) && !l.Tick?
    ensures Next(s, l).pruned == s.pruned
  {}

  lemma OutOfList(before: seq<Time>, times: seq<Time>, cutoff: Time, t: Time)
    ensures t in before + NotAfter(times, cutoff) <==> t in before || (t in before + times && t <= cutoff)
  {
    AfterMembers(times, cutoff);
  }

  /** A tick discards exactly what is recorded by then and out of the window. */
  lemma TickPrunes(s: State, after: seq<Time>, now: Time, k: Key, t: Time)
    requires LogOf(s, k) && after == Get(s.pruned, k) + Pruned(s.tables, s.defaults, now, k)
    ensures t in after <==>
            t in Get(s.pruned, k) || (t in Get(s.log, k) && t <= now - Window(s.tables, s.defaults, k))
  {
    OutOfList(Get(s.pruned, k), Get(s.tables.violations, k), now - Window(s.tables, s.defaults, k), t);
  }

  lemma PrunedStep(tr: seq<State>, ls: seq<Label>, i: nat, k: Key, t: Time)
    requires IsRun(tr, ls) && i < |ls|
    ensures t in Get(tr[i + 1].pruned, k) <==> t in Get(tr[i].pruned, k) || OutAt(tr, ls, i, k, t)
  {
    var s, l := tr[i], ls[i];
    assert StepAt(tr, ls, i);
    InvAlways(tr, ls, i);
    assert LogOf(s, k);
    if l.Tick? {
      TickMoves(s, l.now, l.drops, l.order, k);
      TickPrunes(s, Get(tr[i + 1].pruned, k), l.now, k, t);
    } else {
      OnlyTicksPrune(s, l);
    }
  }

  /** In every reachable state a violation is discarded if and only if some earlier tick found it recorded
      and outside the window the pod had at that tick. */
  lemma {:induction false} PrunedByTick(tr: seq<State>, ls: seq<Label>, j: nat, k: Key, t: Time)
    requires IsRun(tr, ls) && j < |tr|
    ensures t in Get(tr[j].pruned, k) <==> OutBefore(tr, ls, j, k, t)
  {
    if j > 0 {
      var i := j - 1;
      PrunedByTick(tr, ls, i, k, t);
      PrunedStep(tr, ls, i, k, t);
      assert OutBefore(tr, ls, j, k, t) <==> OutBefore(tr, ls, i, k, t) || OutAt(tr, ls, i, k, t);
    }
  }

  // ---- the two counts ----

  lemma {:induction false} NoneAfter(times: seq<Time>, cutoff: Time)
    ensures After(times, cutoff) == [] <==> forall t :: t in times ==> t <= cutoff
  {
    AfterMembers(times, cutoff);
    if forall t :: t in times ==> t <= cutoff {
      forall i | 0 <= i < |times| ensures times[i] <= cutoff {
        assert times[i] in times;
      }
      AllOld(times, cutoff);
    }
  }

  lemma KeptOfLog(s: State, k: Key, cutoff: Time)
    requires LogOf(s, k)
    ensures |After(Get(s.log, k), cutoff)| ==
              |After(Get(s.pruned, k), cutoff)| + |After(Get(s.tables.violations, k), cutoff)|
    ensures After(Get(s.pruned, k), cutoff) == [] <==> forall t :: t in Get(s.pruned, k) ==> t <= cutoff
  {
    AfterConcat(Get(s.pruned, k), Get(s.tables.violations, k), cutoff);
    NoneAfter(Get(s.pruned, k), cutoff);
  }

  /** No violation later than `cutoff` was outside the window of a tick that found it recorded. */
  ghost predicate NothingMissed(tr: seq<State>, ls: seq<Label>, j: nat, k: Key, cutoff: Time)
    requires j <= |ls| < |tr|
  {
    forall t :: OutBefore(tr, ls, j, k, t) ==> t <= cutoff
  }

  lemma NothingMissedIff(tr: seq<State>, ls: seq<Label>, j: nat, k: Key, cutoff: Time)
    requires IsRun(tr, ls) && j < |tr|
    ensures NothingMissed(tr, ls, j, k, cutoff) <==> forall t :: t in Get(tr[j].pruned, k) ==> t <= cutoff
  {
    forall t ensures t in Get(tr[j].pruned, k) <==> OutBefore(tr, ls, j, k, t) {
      PrunedByTick(tr, ls, j, k, t);
    }
  }

  /** In any reachable state the count over the kept list equals the count over the full log exactly when no
      violation later than the cutoff was out of the window of an earlier tick; it is never the larger one. */
  lemma CountAgreesExactly(tr: seq<State>, ls: seq<Label>, j: nat, k: Key, cutoff: Time)
    requires IsRun(tr, ls) && j < |tr|
    ensures |After(Get(tr[j].tables.violations, k), cutoff)| <= |After(Get(tr[j].log, k), cutoff)|
    ensures |After(Get(tr[j].tables.violations, k), cutoff)| == |After(Get(tr[j].log, k), cutoff)|
            <==> NothingMissed(tr, ls, j, k, cutoff)
  {
    InvAlways(tr, ls, j);
    assert LogOf(tr[j], k);
    KeptOfLog(tr[j], k, cutoff);
    NothingMissedIff(tr, ls, j, k, cutoff);
  }

  /** The evaluation at step `j` counts from this reading on. */
  ghost function From(s: State, l: Label, k: Key): Time
    requires Judges(s, l, k)
  {
    l.recount - s.phase.settings.window
  }

  ghost function CodeCount(s: State, l: Label, k: Key): nat
    requires Judges(s, l, k)
  {
    |After(Get(s.tables.violations, k) + [s.phase.now], From(s, l, k))|
  }

  ghost function RuleCount(s: State, l: Label, k: Key): nat
    requires Judges(s, l, k)
  {
    |After(Get(s.log, k) + [s.phase.now], From(s, l, k))|
  }

  /** What an evaluation counts falls short of the documented count exactly when a violation inside its window was
      outside the window of an earlier tick. */
  lemma CountAgrees(tr: seq<State>, ls: seq<Label>, j: nat, k: Key)
    requires IsRun(tr, ls) && j < |ls| && Judges(tr[j], ls[j], k)
    ensures CodeCount(tr[j], ls[j], k) <= RuleCount(tr[j], ls[j], k)
    ensures CodeCount(tr[j], ls[j], k) == RuleCount(tr[j], ls[j], k) <==>
            NothingMissed(tr, ls, j, k, From(tr[j], ls[j], k))
  {
    var cutoff := From(tr[j], ls[j], k);
    CountAgreesExactly(tr, ls, j, k, cutoff);
    AfterConcat(Get(tr[j].tables.violations, k), [tr[j].phase.now], cutoff);
    AfterConcat(Get(tr[j].log, k), [tr[j].phase.now], cutoff);
  }

  /** Would the code, and would the documented rule, call this evaluation over the limit if the limit were `limit`? */
  ghost predicate CodeVerdict(s: State, l: Label, k: Key, limit: int)
    requires Judges(s, l, k)
  {
    OverLimit(s.tables, k, s.phase.settings.(limit := limit), s.phase.now, l.recount)
  }

  ghost predicate RuleVerdict(s: State, l: Label, k: Key, limit: int)
    requires Judges(s, l, k)
  {
    RuleCount(s, l, k) > limit
  }

  lemma VerdictByCount(s: State, l: Label, k: Key, limit: int)
    requires Judges(s, l, k)
    ensures CodeVerdict(s, l, k, limit) <==> CodeCount(s, l, k) > limit
  {}

  lemma VerdictsAgree(s: State, l: Label, k: Key)
    requires Judges(s, l, k)
    ensures (forall limit :: CodeVerdict(s, l, k, limit) <==> RuleVerdict(s, l, k, limit)) <==>
            CodeCount(s, l, k) == RuleCount(s, l, k)
  {
    var a, b := CodeCount(s, l, k), RuleCount(s, l, k);
    forall limit ensures CodeVerdict(s, l, k, limit) <==> a > limit {
      VerdictByCount(s, l, k, limit);
    }
    var least := if a < b then a else b;
    assert a != b ==> (CodeVerdict(s, l, k, least) <==> !RuleVerdict(s, l, k, least));
  }

  /** The same condition for the verdict: an evaluation decides by the documented rule, whatever the limit, exactly
      when it misses nothing. */
  lemma VerdictAgreesIff(tr: seq<State>, ls: seq<Label>, j: nat, k: Key)
    requires IsRun(tr, ls) && j < |ls| && Judges(tr[j], ls[j], k)
    ensures (forall limit :: CodeVerdict(tr[j], ls[j], k, limit) <==> RuleVerdict(tr[j], ls[j], k, limit)) <==>
            NothingMissed(tr, ls, j, k, From(tr[j], ls[j], k))
  {
    CountAgrees(tr, ls, j, k);
    VerdictsAgree(tr[j], ls[j], k);
  }

  // ---- two conditions on the windows alone ----

  /** Tick `i` finds violations of `k` kept, and step `j` evaluates `k` later. */
  ghost predicate PrunesBefore(tr: seq<State>, ls: seq<Label>, i: nat, j: nat, k: Key)
    requires IsRun(tr, ls)
  {
    i < j < |ls| && ls[i].Tick? && k in tr[i].tables.violations && Judges(tr[j], ls[j], k)
  }

  /** No evaluation of `k` looks further back than an earlier tick that had violations of `k` to prune. */
  ghost predicate CutoffsAdvance(tr: seq<State>, ls: seq<Label>, k: Key)
    requires IsRun(tr, ls)
  {
    forall i: nat, j: nat :: PrunesBefore(tr, ls, i, j, k) ==> Cutoff(tr, ls, i, k) <= From(tr[j], ls[j], k)
  }

  /** No evaluation of `k` uses a wider window than an earlier tick pruned with. */
  ghost predicate NeverGrows(tr: seq<State>, ls: seq<Label>, k: Key)
    requires IsRun(tr, ls)
  {
    forall i: nat, j: nat :: PrunesBefore(tr, ls, i, j, k) ==>
                               tr[j].phase.settings.window <= Window(tr[i].tables, tr[i].defaults, k)
  }

  /** Every evaluation of `k` from step `a` to step `b` counts what the documented rule counts. */
  ghost predicate Faithful(tr: seq<State>, ls: seq<Label>, a: nat, b: nat, k: Key)
    requires IsRun(tr, ls) && b <= |ls|
  {
    forall j :: a <= j < b && Judges(tr[j], ls[j], k) ==> NothingMissed(tr, ls, j, k, From(tr[j], ls[j], k))
  }

  /** The tick that discards a violation finds it among those kept. */
  lemma {:induction false} DiscardedFromKept(tr: seq<State>, ls: seq<Label>, j: nat, k: Key, t: Time) returns (i: nat)
    requires IsRun(tr, ls) && j < |tr| && t in Get(tr[j].pruned, k)
    ensures i < j && OutAt(tr, ls, i, k, t) && k in tr[i].tables.violations
  {
    assert j > 0;
    i := j - 1;
    PrunedStep(tr, ls, i, k, t);
    if t in Get(tr[i].pruned, k) {
      i := DiscardedFromKept(tr, ls, i, k, t);
    } else {
      assert StepAt(tr, ls, i);
      TickMoves(tr[i], ls[i].now, ls[i].drops, ls[i].order, k);
    }
  }

  lemma AdvancingMissesNothing(tr: seq<State>, ls: seq<Label>, j: nat, k: Key)
    requires IsRun(tr, ls) && j < |ls| && Judges(tr[j], ls[j], k) && CutoffsAdvance(tr, ls, k)
    ensures NothingMissed(tr, ls, j, k, From(tr[j], ls[j], k))
  {
    forall t | t in Get(tr[j].pruned, k) ensures t <= From(tr[j], ls[j], k) {
      var i := DiscardedFromKept(tr, ls, j, k, t);
      assert PrunesBefore(tr, ls, i, j, k);
    }
    NothingMissedIff(tr, ls, j, k, From(tr[j], ls[j], k));
  }

  /** A window may grow, as long as it grows by no more than the time gone by since each tick that pruned with it;
      windows in force while the pod had nothing recorded, such as the default before its config is known, do not
      matter. */
  lemma AdvancingCutoffsSuffice(tr: seq<State>, ls: seq<Label>, k: Key)
    requires IsRun(tr, ls)
    ensures NeverGrows(tr, ls, k) ==> CutoffsAdvance(tr, ls, k)
    ensures CutoffsAdvance(tr, ls, k) ==> Faithful(tr, ls, 0, |ls|, k)
  {
    forall i: nat, j: nat | PrunesBefore(tr, ls, i, j, k) ensures ls[i].now <= ls[j].recount {
      assert StepAt(tr, ls, i) && StepAt(tr, ls, j);
      ClockMonotone(tr, ls, i + 1, j);
    }
    if CutoffsAdvance(tr, ls, k) {
      forall j | 0 <= j < |ls| && Judges(tr[j], ls[j], k) ensures NothingMissed(tr, ls, j, k, From(tr[j], ls[j], k)) {
        AdvancingMissesNothing(tr, ls, j, k);
      }
    }
  }

  /** A step takes `k` out of the unhealthy table. */
  ghost predicate Clears(tr: seq<State>, i: nat, k: Key)
    requires i + 1 < |tr|
  {
    k in tr[i].tables.unhealthy && k !in tr[i + 1].tables.unhealthy
  }

  ghost predicate BreachAt(tr: seq<State>, ls: seq<Label>, i: nat, k: Key)
    requires IsRun(tr, ls)
  {
    i < |ls| && Judges(tr[i], ls[i], k) && Breach(tr[i], ls[i], k)
  }

  /** The only step that makes a pod unhealthy is an evaluation whose kept list exceeds the limit. */
  lemma UnhealthyStep(s: State, l: Label, k: Key)
    requires Enabled(s, l) && k !in s.tables.unhealthy
    ensures var over := Judges(s, l, k) && s.phase.durationUs > s.phase.settings.thresholdUs
                        && OverLimit(s.tables, k, s.phase.settings, s.phase.now, l.recount);
            && (k in Next(s, l).tables.unhealthy <==> over)
            && (over ==> Next(s, l).trail == s.trail + [MarkedUnhealthy(k)])
  {}

  lemma UnmarkedStep(s: State, l: Label, k: Key)
    requires Enabled(s, l) && MarkedUnhealthy(k) !in s.trail && k !in Next(s, l).tables.unhealthy
    ensures MarkedUnhealthy(k) !in Next(s, l).trail
  {
    match l
    case Tick(now, drops, order) => assert MarkedUnhealthy(k) !in DropAll(drops);
    case _ =>
  }

  /** One step: a pod never turns unhealthy without a breach, and an evaluation that misses nothing turns it
      unhealthy, with one mark, exactly on a breach. */
  lemma TurnsUnhealthyOnBreach(tr: seq<State>, ls: seq<Label>, i: nat, k: Key)
    requires IsRun(tr, ls) && i < |ls|
    ensures k !in tr[i].tables.unhealthy && k in tr[i + 1].tables.unhealthy ==>
              BreachAt(tr, ls, i, k) && tr[i + 1].trail == tr[i].trail + [MarkedUnhealthy(k)]
    ensures BreachAt(tr, ls, i, k) && NothingMissed(tr, ls, i, k, From(tr[i], ls[i], k)) ==>
              k in tr[i + 1].tables.unhealthy
    ensures k in tr[i].tables.unhealthy && BreachAt(tr, ls, i, k) ==> tr[i + 1].trail == tr[i].trail
  {
    assert StepAt(tr, ls, i);
    if Judges(tr[i], ls[i], k) {
      CountAgrees(tr, ls, i, k);
    }
    if k !in tr[i].tables.unhealthy {
      UnhealthyStep(tr[i], ls[i], k);
    }
  }

  lemma UnhealthyNext(tr: seq<State>, ls: seq<Label>, i: nat, k: Key)
    requires IsRun(tr, ls) && i < |ls| && Faithful(tr, ls, i, i + 1, k) && !Clears(tr, i, k)
    ensures k in tr[i + 1].tables.unhealthy <==> k in tr[i].tables.unhealthy || BreachAt(tr, ls, i, k)
  {
    TurnsUnhealthyOnBreach(tr, ls, i, k);
  }

  ghost predicate BreachedIn(tr: seq<State>, ls: seq<Label>, a: nat, b: nat, k: Key)
    requires IsRun(tr, ls)
  {
    exists i :: a <= i < b && BreachAt(tr, ls, i, k)
  }

  lemma BreachedMore(tr: seq<State>, ls: seq<Label>, a: nat, b: nat, k: Key)
    requires IsRun(tr, ls) && a <= b
    ensures BreachedIn(tr, ls, a, b + 1, k) <==> BreachedIn(tr, ls, a, b, k) || BreachAt(tr, ls, b, k)
  {
    if BreachedIn(tr, ls, a, b + 1, k) {
      var i :| a <= i < b + 1 && BreachAt(tr, ls, i, k);
    }
  }

  /** A tracked pod turns unhealthy exactly at the first breach: from a point where it is not
      unhealthy, and as long as nothing clears it, it is unhealthy if and only if a breach happened. */
  lemma {:induction false} UnhealthyIffBreached(tr: seq<State>, ls: seq<Label>, a: nat, b: nat, k: Key)
    requires IsRun(tr, ls) && a <= b < |tr| && Faithful(tr, ls, a, b, k)
    requires k !in tr[a].tables.unhealthy
    requires forall i :: a <= i < b ==> !Clears(tr, i, k)
    ensures k in tr[b].tables.unhealthy <==> BreachedIn(tr, ls, a, b, k)
    decreases b
  {
    if a < b {
      UnhealthyIffBreached(tr, ls, a, b - 1, k);
      assert !Clears(tr, b - 1, k);
      UnhealthyNext(tr, ls, b - 1, k);
      BreachedMore(tr, ls, a, b - 1, k);
    }
  }

  lemma NothingInEmptyWindow(s: State, l: Label, k: Key)
    requires Inv(s) && Enabled(s, l) && Judges(s, l, k) && s.phase.settings.window <= 0
    ensures After(Get(s.tables.violations, k) + [s.phase.now], l.recount - s.phase.settings.window) == []
  {
    var times := Get(s.tables.violations, k) + [s.phase.now];
    forall t | t in times ensures t <= s.phase.now {}
    NoneAfter(times, l.recount - s.phase.settings.window);
  }

  /** With a window of 0 or less an evaluation turns the pod unhealthy exactly on a slow event and a negative limit. */
  lemma EmptyWindowTurnsIff(s: State, l: Label, k: Key)
    requires Inv(s) && Enabled(s, l) && Judges(s, l, k) && s.phase.settings.window <= 0 && k !in s.tables.unhealthy
    ensures k in Next(s, l).tables.unhealthy <==>
            s.phase.durationUs > s.phase.settings.thresholdUs && s.phase.settings.limit < 0
  {
    NothingInEmptyWindow(s, l, k);
    UnhealthyStep(s, l, k);
  }

  lemma EmptyWindowStep(s: State, l: Label, k: Key)
    requires Inv(s) && Enabled(s, l) && k !in s.tables.unhealthy && MarkedUnhealthy(k) !in s.trail
    requires Judges(s, l, k) ==> s.phase.settings.window <= 0 <= s.phase.settings.limit
    ensures k !in Next(s, l).tables.unhealthy && MarkedUnhealthy(k) !in Next(s, l).trail
  {
    UnhealthyStep(s, l, k);
    if Judges(s, l, k) {
      NothingInEmptyWindow(s, l, k);
    }
    UnmarkedStep(s, l, k);
  }

  /** With a window of 0 or less and a limit of 0 or more, which is what an omitted evalConfig means,
      no slow event ever makes the pod unhealthy. */
  lemma {:induction false} EmptyWindowNeverMarks(tr: seq<State>, ls: seq<Label>, j: nat, k: Key)
    requires IsRun(tr, ls) && j < |tr|
    requires forall i :: 0 <= i < |ls| && Judges(tr[i], ls[i], k) ==>
                           tr[i].phase.settings.window <= 0 <= tr[i].phase.settings.limit
    ensures k !in tr[j].tables.unhealthy
    ensures MarkedUnhealthy(k) !in tr[j].trail
  {
    if j > 0 {
      EmptyWindowNeverMarks(tr, ls, j - 1, k);
      var s, l := tr[j - 1], ls[j - 1];
      assert StepAt(tr, ls, j - 1);
      InvAlways(tr, ls, j - 1);
      EmptyWindowStep(s, l, k);
    }
  }

  // ---- the law fails when the window grows ----

  function Config(windowSize: int, limit: int): GovernanceConfig {
    GovernanceConfig(Thresholds(0, 0, 0, 0), EvalConfig(windowSize, limit))
  }

  const SLOW: Event := Event(NCCL_ALL_REDUCE, "p", "ns", 1)

  /** A violation at 1 s, a tick at 3 s with a one-second window, then a config with a ten-second
      window and limit 1 and a second violation at 4 s. */
  function Fresh(): State {
    State(Settings(0, 0, 0), Tables(map[], map[], {}, map[]), SECOND, Idle, map[], map[], [])
  }

  /** Just before the first slow event is judged. */
  function Before(): State {
    Fresh().(tables := Tables(map[], map[POD := SECOND], {}, map[POD := Config(1, 1)]),
             phase := Judging(POD, SECOND, 1, Settings(0, SECOND, 1)))
  }

  function Recorded(): State {
    Before().(tables := Before().tables.(violations := map[POD := [SECOND]]),
              phase := Idle,
              log := map[POD := [SECOND]])
  }

  function Swept(): State {
    Recorded().(tables := Before().tables, clock := 3 * SECOND, pruned := map[POD := [SECOND]])
  }

  /** Just before the second slow event is judged, with the wider window. */
  function Again(): State {
    Swept().(tables := Tables(map[], map[POD := 4 * SECOND], {}, map[POD := Config(10, 1)]), clock := 4 * SECOND,
             phase := Judging(POD, 4 * SECOND, 1, Settings(0, 10 * SECOND, 1)))
  }

  function LoadAndSee(s: State, windowSize: int, now: Time): State {
    s.(tables := s.tables.(lastSeen := s.tables.lastSeen[POD := now],
                           configs := s.tables.configs[POD := Config(windowSize, 1)]),
       clock := now,
       phase := Judging(POD, now, 1, Settings(0, windowSize * SECOND, 1)))
  }

  lemma LoadAndSeeReached(s: State, windowSize: int, now: Time)
    requires Reachable(s) && s.phase == Idle && s.clock <= now
    ensures Reachable(LoadAndSee(s, windowSize, now))
  {
    var l := SyncPods([Listed("ns", "p", Some(Config(windowSize, 1)))]);
    assert l.pods[..0] == [];
    assert Sync(s.tables.configs, l.pods) == s.tables.configs[POD := Config(windowSize, 1)];
    ReachNext(s, l);
    ReachNext(Next(s, l), Begin(SLOW, now));
    assert LoadAndSee(s, windowSize, now) == Next(Next(s, l), Begin(SLOW, now));
  }

  lemma FirstJudged()
    ensures Enabled(Before(), Finish(SECOND)) && Next(Before(), Finish(SECOND)) == Recorded()
  {
    AfterOne(SECOND, 0);
    assert Get(map[], POD) + [SECOND] == [SECOND];
  }

  lemma OneOutOfWindow()
    ensures var t, d := Recorded().tables, Recorded().defaults;
            Kept(t, d, 3 * SECOND, POD) == [] && Pruned(t, d, 3 * SECOND, POD) == [SECOND]
  {
    AfterOne(SECOND, 2 * SECOND);
    assert Get(Recorded().tables.violations, POD) == [SECOND];
  }

  lemma SweepForgets()
    ensures var t, d := Recorded().tables, Recorded().defaults;
            && StaleKeys(t, d, 3 * SECOND) == {} && Recoverable(t, d, 3 * SECOND) == {}
            && Sweep(t, d, 3 * SECOND) == Before().tables
  {
    var t, d := Recorded().tables, Recorded().defaults;
    OneOutOfWindow();
    assert !Stale(t, d, 3 * SECOND, POD);
    assert StaleKeys(t, d, 3 * SECOND) == {};
    assert Prune(t, d, 3 * SECOND) == map[];
  }

  lemma TickForgets()
    ensures Enabled(Recorded(), Tick(3 * SECOND, [], [])) && Next(Recorded(), Tick(3 * SECOND, [], [])) == Swept()
  {
    OneOutOfWindow();
    SweepForgets();
    assert Recorded().trail + DropAll([]) == [];
    var u := TickSweep(Recorded(), 3 * SECOND, [], []);
    assert u.pruned == map[POD := [SECOND]];
  }

  lemma GrowingRun()
    ensures Reachable(Again())
  {
    ReachInit(Fresh());
    LoadAndSeeReached(Fresh(), 1, SECOND);
    assert LoadAndSee(Fresh(), 1, SECOND) == Before();
    FirstJudged();
    ReachNext(Before(), Finish(SECOND));
    TickForgets();
    ReachNext(Recorded(), Tick(3 * SECOND, [], []));
    LoadAndSeeReached(Swept(), 10, 4 * SECOND);
    assert LoadAndSee(Swept(), 10, 4 * SECOND) == Again();
  }

  /** The documented rule is breached, yet the code does not mark the pod. */
  lemma GrowingWindowMissesBreach()
    ensures exists s, l :: Reachable(s) && Enabled(s, l) && Judges(s, l, POD)
                           && Breach(s, l, POD) && POD !in Next(s, l).tables.unhealthy
  {
    GrowingRun();
    var s, l := Again(), Finish(4 * SECOND);
    AfterOne(SECOND, -6 * SECOND);
    AfterOne(4 * SECOND, -6 * SECOND);
    AfterConcat([SECOND], [4 * SECOND], -6 * SECOND);
    assert Get(s.log, POD) == [SECOND];
    assert Get(s.tables.violations, POD) + [4 * SECOND] == [4 * SECOND];
    assert Enabled(s, l) && Judges(s, l, POD) && Breach(s, l, POD);
    UnhealthyStep(s, l, POD);
  }
}
