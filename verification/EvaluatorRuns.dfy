/** Runs of the evaluator.  Events and ticks alternate in one goroutine; config sync runs in another
    and may fall between any two locked regions.  Beside the tables a state carries the full history:
    every violation ever recorded (`log`), the part of it that ticks have discarded (`pruned`) and
    every mark sent and every unhealthy pod forgotten as stale (`trail`). */
module EvaluatorRuns {
  import opened ApiTypes
  import opened TimeLists
  import opened EvaluatorTables

  datatype Phase =
    | Idle
    | Fetching(key: Key, now: Time, durationUs: int)
    | Judging(key: Key, now: Time, durationUs: int, settings: Settings)
    | Recovering(queue: seq<Key>)

  datatype Entry =
    | MarkedUnhealthy(key: Key)
    | MarkedHealthy(key: Key)
    | Dropped(key: Key)

  datatype State = State(
    defaults: Settings,
    tables: Tables,
    clock: Time,
    phase: Phase,
    log: map<Key, seq<Time>>,
    pruned: map<Key, seq<Time>>,
    trail: seq<Entry>)

  /** `drops` and `order` are the orders in which the two map loops of a tick happen to visit
      the stale unhealthy pods and the recovering pods. */
  datatype Label =
    | Begin(event: Event, now: Time)
    | Fetch(fetched: Option<GovernanceConfig>)
    | Finish(recount: Time)
    | Tick(now: Time, drops: seq<Key>, order: seq<Key>)
    | Recover
    | SyncPods(pods: seq<Listed>)

  /** The constructor takes the default window in seconds, as policies do theirs. */
  ghost predicate WholeSeconds(window: int) {
    window % SECOND == 0
  }

  ghost predicate Init(s: State) {
    && s.clock > 0 && WholeSeconds(s.defaults.window)
    && s.tables == Tables(map[], map[], {}, map[])
    && s.phase == Idle
    && s.log == map[] && s.pruned == map[] && s.trail == []
  }

  ghost predicate Enabled(s: State, l: Label) {
    match l
    case Begin(_, now) => s.phase.Idle? && s.clock <= now
    case Fetch(_) => s.phase.Fetching?
    case Finish(recount) => s.phase.Judging? && s.clock <= recount
    case Tick(now, drops, order) =>
      && s.phase.Idle? && s.clock <= now
      && IsListing(drops, StaleKeys(s.tables, s.defaults, now) * s.tables.unhealthy)
      && IsListing(order, Recoverable(s.tables, s.defaults, now))
    case Recover => s.phase.Recovering? && s.phase.queue != []
    case SyncPods(_) => true
  }

  function Requeue(queue: seq<Key>): Phase {
    if queue == [] then Idle else Recovering(queue)
  }

  function DropAll(keys: seq<Key>): seq<Entry> {
    seq(|keys|, i requires 0 <= i < |keys| => Dropped(keys[i]))
  }

  function BeginEvent(s: State, e: Event, now: Time): State {
    if !Evaluated(e) then s
    else
      var k := PodKey(e.podNamespace, e.podName);
      s.(tables := See(s.tables, k, now),
         clock := now,
         phase := if k in s.tables.configs
                  then Judging(k, now, e.durationUs, Resolve(s.defaults, Some(s.tables.configs[k])))
                  else Fetching(k, now, e.durationUs))
  }

  function FinishEvent(s: State, recount: Time): State
    requires s.phase.Judging?
  {
    var Judging(k, now, durationUs, st) := s.phase;
    var t := Judge(s.tables, k, st, durationUs, now, recount);
    if durationUs <= st.thresholdUs then s.(phase := Idle)
    else
      s.(tables := t,
         clock := recount,
         phase := Idle,
         log := s.log[k := Get(s.log, k) + [now]],
         trail := if k !in s.tables.unhealthy && k in t.unhealthy then s.trail + [MarkedUnhealthy(k)] else s.trail)
  }

  function TickSweep(s: State, now: Time, drops: seq<Key>, order: seq<Key>): State {
    s.(tables := Sweep(s.tables, s.defaults, now),
       clock := now,
       phase := Requeue(order),
       pruned := map k | k in s.pruned.Keys + s.tables.violations.Keys
                   :: Get(s.pruned, k) + Pruned(s.tables, s.defaults, now, k),
       trail := s.trail + DropAll(drops))
  }

  function RecoverNext(s: State): State
    requires s.phase.Recovering? && s.phase.queue != []
  {
    var k := s.phase.queue[0];
    s.(tables := Unmark(s.tables, k),
       phase := Requeue(s.phase.queue[1..]),
       trail := if Markable(k) then s.trail + [MarkedHealthy(k)] else s.trail)
  }

  function Next(s: State, l: Label): State
    requires Enabled(s, l)
  {
    match l
    case Begin(e, now) => BeginEvent(s, e, now)
    case Fetch(fetched) =>
      var Fetching(k, now, durationUs) := s.phase;
      s.(tables := Cache(s.tables, k, fetched),
         phase := Judging(k, now, durationUs, Resolve(s.defaults, fetched)))
    case Finish(recount) => FinishEvent(s, recount)
    case Tick(now, drops, order) => TickSweep(s, now, drops, order)
    case Recover => RecoverNext(s)
    case SyncPods(pods) => s.(tables := Synced(s.tables, pods))
  }

  ghost predicate StepAt(tr: seq<State>, ls: seq<Label>, i: nat)
    requires i < |ls| < |tr|
  {
    Enabled(tr[i], ls[i]) && tr[i + 1] == Next(tr[i], ls[i])
  }

  /** `tr[i]` is the state before step `ls[i]`. */
  ghost predicate IsRun(tr: seq<State>, ls: seq<Label>) {
    && |tr| == |ls| + 1
    && Init(tr[0])
    && forall i :: 0 <= i < |ls| ==> StepAt(tr, ls, i)
  }

  lemma Extend(tr: seq<State>, ls: seq<Label>, l: Label) returns (tr': seq<State>, ls': seq<Label>)
    requires IsRun(tr, ls) && Enabled(tr[|ls|], l)
    ensures tr' == tr + [Next(tr[|ls|], l)] && ls' == ls + [l]
    ensures IsRun(tr', ls') && tr'[|ls'|] == Next(tr[|ls|], l)
  {
    tr', ls' := tr + [Next(tr[|ls|], l)], ls + [l];
    forall i | 0 <= i < |ls'| ensures StepAt(tr', ls', i) {
      if i < |ls| {
        assert StepAt(tr, ls, i);
        assert tr'[i] == tr[i] && ls'[i] == ls[i] && tr'[i + 1] == tr[i + 1];
      }
    }
  }

  /** The pod of the example runs. */
  const POD: Key := PodKey("ns", "p")

  ghost predicate Reachable(s: State) {
    exists tr, ls :: IsRun(tr, ls) && tr[|ls|] == s
  }

  lemma ReachInit(s: State)
    requires Init(s)
    ensures Reachable(s)
  {
    var ls: seq<Label> := [];
    assert IsRun([s], ls) && [s][|ls|] == s;
  }

  lemma ReachNext(s: State, l: Label)
    requires Reachable(s) && Enabled(s, l)
    ensures Reachable(Next(s, l))
  {
    var tr, ls :| IsRun(tr, ls) && tr[|ls|] == s;
    tr, ls := Extend(tr, ls, l);
  }

  // ---- what every reachable state keeps ----

  ghost predicate TablesInv(t: Tables, clock: Time) {
    && (forall k :: k in t.violations ==>
                      && k in t.lastSeen
                      && t.violations[k] != []
                      && Sorted(t.violations[k])
                      && Within(t.violations[k], t.lastSeen[k]))
    && t.unhealthy <= t.lastSeen.Keys
    && (forall k :: k in t.lastSeen ==> t.lastSeen[k] <= clock)
  }

  /** The log of a pod is what ticks discarded followed by what is still kept. */
  ghost predicate LogOf(s: State, k: Key) {
    && Get(s.log, k) == Get(s.pruned, k) + Get(s.tables.violations, k)
    && Sorted(Get(s.log, k))
    && Within(Get(s.log, k), s.clock)
  }

  ghost predicate LogInv(s: State) {
    forall k: Key :: LogOf(s, k)
  }

  ghost predicate EventInv(s: State) {
    s.phase.Fetching? || s.phase.Judging? ==>
      && s.phase.key in s.tables.lastSeen
      && s.tables.lastSeen[s.phase.key] == s.phase.now
      && 0 < s.phase.now <= s.clock
      && Within(Get(s.log, s.phase.key), s.phase.now)
  }

  ghost predicate Inv(s: State) {
    s.clock > 0 && TablesInv(s.tables, s.clock) && LogInv(s) && EventInv(s)
  }

  lemma InvInit(s: State)
    requires Init(s)
    ensures Inv(s)
  {}

  lemma SweepKeepsTables(t: Tables, defaults: Settings, clock: Time, now: Time)
    requires TablesInv(t, clock) && clock <= now
    ensures TablesInv(Sweep(t, defaults, now), now)
  {
    var u := Sweep(t, defaults, now);
    forall k | k in u.violations
      ensures k in u.lastSeen && Sorted(u.violations[k]) && Within(u.violations[k], t.lastSeen[k])
    {
      var cutoff := now - Window(t, defaults, k);
      AfterKeepsOrder(t.violations[k], cutoff, t.lastSeen[k]);
      AfterMembers(t.violations[k], cutoff);
      assert u.violations[k][0] in u.violations[k];
    }
  }

  lemma JudgeKeepsTables(s: State, recount: Time)
    requires Inv(s) && Enabled(s, Finish(recount))
    ensures TablesInv(FinishEvent(s, recount).tables, FinishEvent(s, recount).clock)
  {
    var Judging(k, now, durationUs, st) := s.phase;
    if k in s.tables.violations {
      SortedAppend(s.tables.violations[k], now);
    } else {
      SortedAppend([], now);
    }
  }

  lemma TablesInvStep(s: State, l: Label)
    requires Inv(s) && Enabled(s, l)
    ensures TablesInv(Next(s, l).tables, Next(s, l).clock)
  {
    match l
    case Begin(e, now) =>
    case Fetch(_) =>
    case Finish(recount) => JudgeKeepsTables(s, recount);
    case Tick(now, _, _) => SweepKeepsTables(s.tables, s.defaults, s.clock, now);
    case Recover =>
    case SyncPods(_) =>
  }

  lemma Regroup(a: seq<Time>, b: seq<Time>, c: seq<Time>)
    ensures (a + b) + c == a + (b + c)
  {}

  lemma TickMoves(s: State, now: Time, drops: seq<Key>, order: seq<Key>, k: Key)
    ensures Get(TickSweep(s, now, drops, order).pruned, k) == Get(s.pruned, k) + Pruned(s.tables, s.defaults, now, k)
    ensures Get(TickSweep(s, now, drops, order).tables.violations, k) == Kept(s.tables, s.defaults, now, k)
  {}

  lemma LogTick(s: State, now: Time, drops: seq<Key>, order: seq<Key>, k: Key)
    requires LogOf(s, k) && s.clock <= now
    requires Sorted(Get(s.tables.violations, k))
    ensures LogOf(TickSweep(s, now, drops, order), k)
  {
    TickMoves(s, now, drops, order, k);
    var pruned, kept := Pruned(s.tables, s.defaults, now, k), Kept(s.tables, s.defaults, now, k);
    SortedSplits(Get(s.tables.violations, k), now - Window(s.tables, s.defaults, k));
    assert Get(s.tables.violations, k) == pruned + kept;
    Regroup(Get(s.pruned, k), pruned, kept);
  }

  lemma LogFinish(s: State, recount: Time, k: Key)
    requires LogOf(s, k) && EventInv(s) && Enabled(s, Finish(recount))
    ensures LogOf(FinishEvent(s, recount), k)
  {
    var u := FinishEvent(s, recount);
    var Judging(key, now, durationUs, st) := s.phase;
    if k == key && durationUs > st.thresholdUs {
      var kept, log := Get(s.tables.violations, k), Get(s.log, k);
      assert Get(u.tables.violations, k) == kept + [now];
      assert Get(u.log, k) == log + [now];
      SortedAppend(log, now);
      Regroup(Get(s.pruned, k), kept, [now]);
    } else {
      assert Get(u.tables.violations, k) == Get(s.tables.violations, k);
      assert Get(u.log, k) == Get(s.log, k);
    }
  }

  lemma InvStep(s: State, l: Label)
    requires Inv(s) && Enabled(s, l)
    ensures Inv(Next(s, l))
  {
    TablesInvStep(s, l);
    match l
    case Begin(e, now) =>
      assert forall k: Key :: LogOf(s, k) ==> LogOf(Next(s, l), k);
      assert LogOf(s, PodKey(e.podNamespace, e.podName));
    case Fetch(_) => assert forall k: Key :: LogOf(s, k) ==> LogOf(Next(s, l), k);
    case Finish(recount) =>
      forall k: Key ensures LogOf(Next(s, l), k) { LogFinish(s, recount, k); }
    case Tick(now, drops, order) =>
      forall k: Key ensures LogOf(Next(s, l), k) { LogTick(s, now, drops, order, k); }
    case Recover => assert forall k: Key :: LogOf(s, k) ==> LogOf(Next(s, l), k);
    case SyncPods(_) => assert forall k: Key :: LogOf(s, k) ==> LogOf(Next(s, l), k);
  }

  lemma {:induction false} InvAlways(tr: seq<State>, ls: seq<Label>, i: nat)
    requires IsRun(tr, ls) && i < |tr|
    ensures Inv(tr[i])
    ensures i > 0 ==> Inv(tr[i - 1]) && tr[i - 1].clock <= tr[i].clock
  {
    if i == 0 {
      InvInit(tr[0]);
    } else {
      InvAlways(tr, ls, i - 1);
      assert StepAt(tr, ls, i - 1);
      InvStep(tr[i - 1], ls[i - 1]);
    }
  }

  lemma {:induction false} ClockMonotone(tr: seq<State>, ls: seq<Label>, i: nat, j: nat)
    requires IsRun(tr, ls) && i <= j < |tr|
    ensures tr[i].clock <= tr[j].clock
    ensures tr[i].defaults == tr[j].defaults
    decreases j - i
  {
    if i < j {
      ClockMonotone(tr, ls, i, j - 1);
      InvAlways(tr, ls, j);
      assert StepAt(tr, ls, j - 1);
    }
  }

  /** Every reachable state: violation and unhealthy keys are tracked keys, the lists are non-empty
      and sorted, no violation is later than the pod was last seen, and the log splits as stated. */
  lemma ReachableTables(tr: seq<State>, ls: seq<Label>, i: nat)
    requires IsRun(tr, ls) && i < |tr|
    ensures var t := tr[i].tables;
            && t.violations.Keys <= t.lastSeen.Keys
            && t.unhealthy <= t.lastSeen.Keys
            && forall k :: k in t.violations ==>
                 && t.violations[k] != [] && Sorted(t.violations[k])
                 && (forall v :: v in t.violations[k] ==> 0 < v <= t.lastSeen[k] <= tr[i].clock)
    ensures forall k: Key :: Get(tr[i].log, k) == Get(tr[i].pruned, k) + Get(tr[i].tables.violations, k)
  {
    InvAlways(tr, ls, i);
    forall k: Key ensures Get(tr[i].log, k) == Get(tr[i].pruned, k) + Get(tr[i].tables.violations, k) {
      assert LogOf(tr[i], k);
    }
  }
}
