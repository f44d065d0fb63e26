/** On which tick schedules a pod can recover at all: for a constant window, and for windows that change.  Necessity
    comes from the laws of EvaluatorRecovery; for sufficiency runs are built tick by tick. */
module EvaluatorSchedules {
  import opened ApiTypes
  import opened TimeLists
  import opened EvaluatorTables
  import opened EvaluatorRuns
  import opened EvaluatorRecovery

  /** The configs a pod may have, `None` for one that has none of its own. */
  type Configs = set<Option<GovernanceConfig>>

  /** A run from `start` in which the pod has one of the configs `cs` whenever violations of it are kept. */
  ghost predicate Plain(tr: seq<State>, ls: seq<Label>, start: Time, d: Settings, cs: Configs) {
    && IsRun(tr, ls)
    && tr[0].clock == start
    && forall i :: 0 <= i < |tr| ==>
         tr[i].defaults == d && (POD in tr[i].tables.violations ==> ConfigOf(tr[i].tables, POD) in cs)
  }

  lemma PlainExtend(tr: seq<State>, ls: seq<Label>, start: Time, d: Settings, cs: Configs, l: Label)
    returns (tr': seq<State>, ls': seq<Label>)
    requires Plain(tr, ls, start, d, cs) && Enabled(tr[|ls|], l)
    requires var t := Next(tr[|ls|], l).tables; POD in t.violations ==> ConfigOf(t, POD) in cs
    ensures Plain(tr', ls', start, d, cs) && tr'[|ls'|] == Next(tr[|ls|], l)
    ensures TickTimes(ls') == TickTimes(ls) + (if l.Tick? then [l.now] else [])
  {
    tr', ls' := Extend(tr, ls, l);
    assert ls'[..|ls|] == ls;
  }

  /** A sync gives the pod the config `c`. */
  lemma SyncOne(tr: seq<State>, ls: seq<Label>, start: Time, d: Settings, cs: Configs, c: GovernanceConfig)
    returns (tr': seq<State>, ls': seq<Label>)
    requires Plain(tr, ls, start, d, cs) && Some(c) in cs
    ensures Plain(tr', ls', start, d, cs) && TickTimes(ls') == TickTimes(ls)
    ensures var s := tr[|ls|];
            tr'[|ls'|] == s.(tables := s.tables.(configs := s.tables.configs[POD := c]))
  {
    var s, l := tr[|ls|], SyncPods([Listed("ns", "p", Some(c))]);
    assert l.pods[..0] == [];
    assert Sync(s.tables.configs, l.pods) == s.tables.configs[POD := c];
    tr', ls' := PlainExtend(tr, ls, start, d, cs, l);
  }

  ghost predicate Ascending(from: Time, ts: seq<Time>) {
    && (forall i :: 0 <= i < |ts| ==> from <= ts[i])
    && Sorted(ts)
  }

  lemma AscendingFront(from: Time, ts: seq<Time>, front: seq<Time>, last: Time)
    requires Ascending(from, ts) && ts == front + [last]
    ensures Ascending(from, front) && from <= last && (front != [] ==> front[|front| - 1] <= last)
  {
    assert forall i :: 0 <= i < |front| ==> front[i] == ts[i];
    assert ts[|front|] == last;
  }

  lemma Glue(a: seq<Time>, front: seq<Time>, last: Time, ts: seq<Time>)
    requires ts == front + [last]
    ensures (a + front) + [last] == a + ts
  {}

  // ---- ticks with nothing to do ----

  ghost predicate Empty(s: State) {
    s.phase == Idle && s.tables.violations == map[] && s.tables.unhealthy == {} && s.tables.configs == map[]
  }

  lemma EmptyTick(s: State, now: Time)
    requires Empty(s) && s.clock <= now
    ensures Enabled(s, Tick(now, [], []))
    ensures var u := Next(s, Tick(now, [], [])); Empty(u) && u.clock == now && u.trail == s.trail
    ensures s.tables.lastSeen == map[] ==> Next(s, Tick(now, [], [])).tables.lastSeen == map[]
  {
    assert Prune(s.tables, s.defaults, now) == map[];
    assert s.trail + DropAll([]) == s.trail;
  }

  lemma EmptyOne(tr: seq<State>, ls: seq<Label>, start: Time, d: Settings, cs: Configs, now: Time)
    returns (tr': seq<State>, ls': seq<Label>)
    requires Plain(tr, ls, start, d, cs) && Empty(tr[|ls|]) && tr[|ls|].clock <= now
    ensures Plain(tr', ls', start, d, cs) && TickTimes(ls') == TickTimes(ls) + [now]
    ensures Empty(tr'[|ls'|]) && tr'[|ls'|].trail == tr[|ls|].trail && tr'[|ls'|].clock == now
    ensures tr[|ls|].tables.lastSeen == map[] ==> tr'[|ls'|].tables.lastSeen == map[]
  {
    EmptyTick(tr[|ls|], now);
    tr', ls' := PlainExtend(tr, ls, start, d, cs, Tick(now, [], []));
  }

  lemma {:induction false} EmptyTicks(
      tr: seq<State>, ls: seq<Label>, start: Time, d: Settings, cs: Configs, ts: seq<Time>)
    returns (tr': seq<State>, ls': seq<Label>)
    requires Plain(tr, ls, start, d, cs) && Empty(tr[|ls|]) && Ascending(tr[|ls|].clock, ts)
    ensures Plain(tr', ls', start, d, cs) && TickTimes(ls') == TickTimes(ls) + ts
    ensures Empty(tr'[|ls'|]) && tr'[|ls'|].trail == tr[|ls|].trail
    ensures tr'[|ls'|].clock == if ts == [] then tr[|ls|].clock else ts[|ts| - 1]
    ensures tr[|ls|].tables.lastSeen == map[] ==> tr'[|ls'|].tables.lastSeen == map[]
    decreases |ts|
  {
    if ts == [] {
      tr', ls' := tr, ls;
    } else {
      var front, last := ts[..|ts| - 1], ts[|ts| - 1];
      Glue(TickTimes(ls), front, last, ts);
      AscendingFront(tr[|ls|].clock, ts, front, last);
      tr', ls' := EmptyTicks(tr, ls, start, d, cs, front);
      tr', ls' := EmptyOne(tr', ls', start, d, cs, last);
    }
  }

  // ---- slow events at one moment ----

  ghost predicate AllAt(times: seq<Time>, t: Time) {
    forall i :: 0 <= i < |times| ==> times[i] == t
  }

  lemma {:induction false} AllInWindow(times: seq<Time>, t: Time, cutoff: Time)
    requires AllAt(times, t) && cutoff < t
    ensures After(times, cutoff) == times && NotAfter(times, cutoff) == []
  {
    if times != [] {
      var n := |times| - 1;
      AllInWindow(times[..n], t, cutoff);
      assert times == times[..n] + [times[n]];
    }
  }

  /** Recording one more reading at `t` for a pod whose readings are all at `t` puts it over the limit exactly when
      the readings then outnumber it. */
  lemma OneMoreAt(tables: Tables, k: Key, st: Settings, t: Time)
    requires AllAt(Get(tables.violations, k), t) && st.window > 0
    ensures AllAt(Get(tables.violations, k) + [t], t)
    ensures OverLimit(tables, k, st, t, t) <==> |Get(tables.violations, k)| + 1 > st.limit
  {
    AllInWindow(Get(tables.violations, k) + [t], t, t - st.window);
  }

  function OwnConfig(config: Option<GovernanceConfig>): map<Key, GovernanceConfig> {
    if config.Some? then map[POD := config.value] else map[]
  }

  /** The pod has `m` violations, all at `t`, and is unhealthy once they exceed the limit. */
  ghost predicate Slow(s: State, config: Option<GovernanceConfig>, t: Time, m: nat) {
    && s.phase == Idle && s.tables.configs == OwnConfig(config) && s.clock <= t
    && s.tables.violations.Keys <= {POD} && s.tables.unhealthy <= {POD}
    && |Get(s.tables.violations, POD)| == m
    && AllAt(Get(s.tables.violations, POD), t)
    && (m > 0 ==> POD in s.tables.violations && s.tables.lastSeen == map[POD := t])
    && (m > 0 && m > Resolve(s.defaults, config).limit ==> POD in s.tables.unhealthy)
  }

  lemma SlowJudged(s: State, config: Option<GovernanceConfig>, st: Settings, t: Time, m: nat)
    requires s.phase == Judging(POD, t, st.thresholdUs + 1, st) && st == Resolve(s.defaults, config) && st.window > 0
    requires Slow(s.(phase := Idle), config, t, m) && s.tables.lastSeen == map[POD := t]
    ensures Enabled(s, Finish(t)) && Slow(Next(s, Finish(t)), config, t, m + 1)
  {
    OneMoreAt(s.tables, POD, st, t);
    var u := Next(s, Finish(t));
    assert Get(u.tables.violations, POD) == Get(s.tables.violations, POD) + [t];
  }

  /** A slow event of the pod is taken up, and its settings found: in the cache, or after a fetch that finds none. */
  lemma TakeUp(tr: seq<State>, ls: seq<Label>, start: Time, d: Settings, cs: Configs,
               config: Option<GovernanceConfig>, t: Time, m: nat)
    returns (tr': seq<State>, ls': seq<Label>)
    requires Plain(tr, ls, start, d, cs) && Slow(tr[|ls|], config, t, m) && config in cs
    ensures Plain(tr', ls', start, d, cs) && TickTimes(ls') == TickTimes(ls)
    ensures var s, st := tr[|ls|], Resolve(d, config);
            tr'[|ls'|] ==
              s.(tables := See(s.tables, POD, t), clock := t, phase := Judging(POD, t, st.thresholdUs + 1, st))
  {
    var e := Event(NCCL_ALL_REDUCE, "p", "ns", Resolve(d, config).thresholdUs + 1);
    tr', ls' := PlainExtend(tr, ls, start, d, cs, Begin(e, t));
    if config.None? {
      tr', ls' := PlainExtend(tr', ls', start, d, cs, Fetch(None));
    }
  }

  lemma SlowEvent(tr: seq<State>, ls: seq<Label>, start: Time, d: Settings, cs: Configs,
                  config: Option<GovernanceConfig>, t: Time, m: nat)
    returns (tr': seq<State>, ls': seq<Label>)
    requires Plain(tr, ls, start, d, cs) && Slow(tr[|ls|], config, t, m) && config in cs
    requires Resolve(d, config).window > 0 && (m == 0 ==> tr[|ls|].tables.lastSeen == map[])
    ensures Plain(tr', ls', start, d, cs) && TickTimes(ls') == TickTimes(ls) && Slow(tr'[|ls'|], config, t, m + 1)
  {
    tr', ls' := TakeUp(tr, ls, start, d, cs, config, t, m);
    assert tr'[|ls'|].tables.lastSeen == map[POD := t];
    SlowJudged(tr'[|ls'|], config, Resolve(d, config), t, m);
    tr', ls' := PlainExtend(tr', ls', start, d, cs, Finish(t));
  }

  lemma {:induction false} SlowEvents(tr: seq<State>, ls: seq<Label>, start: Time, d: Settings, cs: Configs,
                                      config: Option<GovernanceConfig>, t: Time, m: nat)
    returns (tr': seq<State>, ls': seq<Label>)
    requires Plain(tr, ls, start, d, cs) && Slow(tr[|ls|], config, t, 0) && config in cs
    requires Resolve(d, config).window > 0 && tr[|ls|].tables.lastSeen == map[]
    ensures Plain(tr', ls', start, d, cs) && TickTimes(ls') == TickTimes(ls) && Slow(tr'[|ls'|], config, t, m)
    ensures m == 0 ==> tr'[|ls'|].tables.lastSeen == map[]
    decreases m
  {
    if m == 0 {
      tr', ls' := tr, ls;
    } else {
      tr', ls' := SlowEvents(tr, ls, start, d, cs, config, t, m - 1);
      tr', ls' := SlowEvent(tr', ls', start, d, cs, config, t, m - 1);
    }
  }

  // ---- ticks that hold an unhealthy pod, and one that lets it go ----

  /** Only the pod is known; it was last seen at `at`, the moment of all its violations. */
  ghost predicate OnlyPod(t: Tables, at: Time) {
    && t.configs.Keys <= {POD} && t.violations.Keys == {POD} && t.lastSeen == map[POD := at] && at > 0
    && t.violations[POD] != [] && AllAt(t.violations[POD], at)
  }

  ghost predicate Sick(s: State, at: Time) {
    s.phase == Idle && OnlyPod(s.tables, at) && s.tables.unhealthy == {POD}
  }

  lemma HoldPrune(t: Tables, d: Settings, at: Time, now: Time)
    requires OnlyPod(t, at) && now - Window(t, d, POD) < at
    ensures Prune(t, d, now) == t.violations && Recoverable(t, d, now) == {}
  {
    AllInWindow(t.violations[POD], at, now - Window(t, d, POD));
    assert Kept(t, d, now, POD) == t.violations[POD];
    assert forall k :: k in t.violations ==> k == POD;
  }

  lemma HoldStale(t: Tables, d: Settings, at: Time, now: Time)
    requires OnlyPod(t, at) && Window(t, d, POD) > 0 && now - Window(t, d, POD) < at
    ensures StaleKeys(t, d, now) == {}
  {
    assert !Stale(t, d, now, POD);
  }

  lemma DropNone(t: Tables)
    ensures t.lastSeen - {} == t.lastSeen && t.unhealthy - {} == t.unhealthy && t.configs - {} == t.configs
  {}

  lemma HoldSweep(t: Tables, d: Settings, at: Time, now: Time)
    requires OnlyPod(t, at) && Window(t, d, POD) > 0 && now - Window(t, d, POD) < at
    ensures Sweep(t, d, now) == t
    ensures StaleKeys(t, d, now) == {} && Recoverable(t, d, now) == {}
  {
    HoldPrune(t, d, at, now);
    HoldStale(t, d, at, now);
    DropNone(t);
  }

  lemma HoldOne(tr: seq<State>, ls: seq<Label>, start: Time, d: Settings, cs: Configs, t: Time, now: Time)
    returns (tr': seq<State>, ls': seq<Label>)
    requires Plain(tr, ls, start, d, cs) && Sick(tr[|ls|], t) && tr[|ls|].clock <= now
    requires Window(tr[|ls|].tables, d, POD) > 0 && now - Window(tr[|ls|].tables, d, POD) < t
    ensures Plain(tr', ls', start, d, cs) && TickTimes(ls') == TickTimes(ls) + [now]
    ensures Sick(tr'[|ls'|], t) && tr'[|ls'|].tables == tr[|ls|].tables && tr'[|ls'|].clock == now
  {
    HoldSweep(tr[|ls|].tables, d, t, now);
    tr', ls' := PlainExtend(tr, ls, start, d, cs, Tick(now, [], []));
  }

  ghost predicate Inside(ts: seq<Time>, w: int, t: Time) {
    forall i :: 0 <= i < |ts| ==> ts[i] - w < t
  }

  lemma InsideFront(ts: seq<Time>, front: seq<Time>, last: Time, w: int, t: Time)
    requires ts == front + [last] && Inside(ts, w, t)
    ensures Inside(front, w, t) && last - w < t
  {
    assert ts[|front|] == last;
    assert forall i :: 0 <= i < |front| ==> front[i] == ts[i];
  }

  lemma {:induction false} HoldTicks(
      tr: seq<State>, ls: seq<Label>, start: Time, d: Settings, cs: Configs, t: Time, ts: seq<Time>)
    returns (tr': seq<State>, ls': seq<Label>)
    requires Plain(tr, ls, start, d, cs) && Sick(tr[|ls|], t) && Ascending(tr[|ls|].clock, ts)
    requires Window(tr[|ls|].tables, d, POD) > 0 && Inside(ts, Window(tr[|ls|].tables, d, POD), t)
    ensures Plain(tr', ls', start, d, cs) && TickTimes(ls') == TickTimes(ls) + ts
    ensures Sick(tr'[|ls'|], t) && tr'[|ls'|].tables == tr[|ls|].tables
    ensures tr'[|ls'|].clock == if ts == [] then tr[|ls|].clock else ts[|ts| - 1]
    decreases |ts|
  {
    if ts == [] {
      tr', ls' := tr, ls;
    } else {
      var front, last := ts[..|ts| - 1], ts[|ts| - 1];
      Glue(TickTimes(ls), front, last, ts);
      AscendingFront(tr[|ls|].clock, ts, front, last);
      InsideFront(ts, front, last, Window(tr[|ls|].tables, d, POD), t);
      tr', ls' := HoldTicks(tr, ls, start, d, cs, t, front);
      tr', ls' := HoldOne(tr', ls', start, d, cs, t, last);
    }
  }

  lemma {:induction false} LatestOfEqual(times: seq<Time>, t: Time)
    requires times != [] && t > 0 && AllAt(times, t)
    ensures Latest(times) == t
  {
    var n := |times| - 1;
    if n > 0 {
      LatestOfEqual(times[..n], t);
    } else {
      assert times[..n] == [];
    }
  }

  lemma CureTick(s: State, t: Time, now: Time, w: int)
    requires Sick(s, t) && s.clock <= now && w == Window(s.tables, s.defaults, POD) > 0
    requires t < now - RECOVERY_MULTIPLIER * w
    ensures Enabled(s, Tick(now, [POD], [POD]))
    ensures var u := Next(s, Tick(now, [POD], [POD]));
            u.phase == Recovering([POD]) && u.clock == now && Empty(u.(phase := Idle))
  {
    var times := s.tables.violations[POD];
    AllOld(times, now - w);
    LatestOfEqual(times, t);
    assert Kept(s.tables, s.defaults, now, POD) == [];
    assert Prune(s.tables, s.defaults, now) == map[];
    assert StaleKeys(s.tables, s.defaults, now) == {POD};
    assert Recoverable(s.tables, s.defaults, now) == {POD};
  }

  lemma Cure(tr: seq<State>, ls: seq<Label>, start: Time, d: Settings, cs: Configs, t: Time, now: Time)
    returns (tr': seq<State>, ls': seq<Label>)
    requires Plain(tr, ls, start, d, cs) && Sick(tr[|ls|], t) && tr[|ls|].clock <= now
    requires Window(tr[|ls|].tables, d, POD) > 0
    requires t < now - RECOVERY_MULTIPLIER * Window(tr[|ls|].tables, d, POD)
    ensures Plain(tr', ls', start, d, cs) && TickTimes(ls') == TickTimes(ls) + [now]
    ensures Empty(tr'[|ls'|]) && tr'[|ls'|].clock == now && MarkedHealthy(POD) in tr'[|ls'|].trail
  {
    CureTick(tr[|ls|], t, now, Window(tr[|ls|].tables, d, POD));
    tr', ls' := PlainExtend(tr, ls, start, d, cs, Tick(now, [POD], [POD]));
    assert '/' !in "ns" && '/' !in "p";
    MarkReachesItsPod("ns", "p");
    var u := tr'[|ls'|];
    assert u.phase.queue[1..] == [];
    tr', ls' := PlainExtend(tr', ls', start, d, cs, Recover);
    var v := tr'[|ls'|];
    assert v.trail[|v.trail| - 1] == MarkedHealthy(POD);
  }

  lemma MakeSick(start: Time, early: seq<Time>, d: Settings, cs: Configs, config: Option<GovernanceConfig>, t: Time)
    returns (tr: seq<State>, ls: seq<Label>)
    requires 0 < start <= t && Ascending(start, early) && WholeSeconds(d.window)
    requires config in cs && Resolve(d, config).window > 0
    requires forall i :: 0 <= i < |early| ==> early[i] <= t
    ensures Plain(tr, ls, start, d, cs) && TickTimes(ls) == early && Sick(tr[|ls|], t) && tr[|ls|].clock <= t
    ensures ConfigOf(tr[|ls|].tables, POD) == config
  {
    var s0 := State(d, Tables(map[], map[], {}, map[]), start, Idle, map[], map[], []);
    tr, ls := [s0], [];
    tr, ls := EmptyTicks(tr, ls, start, d, cs, early);
    if config.Some? {
      tr, ls := SyncOne(tr, ls, start, d, cs, config.value);
    }
    var limit := Resolve(d, config).limit;
    tr, ls := SlowEvents(tr, ls, start, d, cs, config, t, (if limit < 0 then 0 else limit) + 1);
  }

  // ---- a constant window ----

  /** How many of the first `n` ticks come no later than `t`. */
  lemma {:induction false} SplitAt(ts: seq<Time>, n: nat, t: Time) returns (a: nat)
    requires Sorted(ts) && n <= |ts|
    ensures a <= n
    ensures forall i :: 0 <= i < a ==> ts[i] <= t
    ensures forall i :: a <= i < n ==> t <= ts[i]
  {
    a := n;
    while a > 0 && ts[a - 1] > t
      invariant a <= n
      invariant forall i :: a <= i < n ==> t <= ts[i]
    {
      a := a - 1;
    }
    forall i | 0 <= i < a ensures ts[i] <= t {
      if i < a - 1 {
        assert ts[i] <= ts[a - 1];
      }
    }
  }

  /** The moment for the violations: `a` ticks come before it, and those from there to tick `n` find it inside the
      window. */
  lemma ChooseMoment(start: Time, ts: seq<Time>, w: int, n: nat) returns (t: Time, a: nat)
    requires Ascending(start, ts) && w > 0 && Late(start, ts, w, n)
    ensures a <= n && start <= t < ts[n] - RECOVERY_MULTIPLIER * w
    ensures forall i :: 0 <= i < a ==> ts[i] <= t
    ensures forall i :: a <= i < n ==> t <= ts[i] && ts[i] - w < t
  {
    t := if n == 0 || ts[n - 1] - w + 1 < start then start else ts[n - 1] - w + 1;
    a := SplitAt(ts, n, t);
    forall i | a <= i < n ensures ts[i] - w < t {
      assert ts[i] <= ts[n - 1];
    }
  }

  lemma SliceAscending(from: Time, ts: seq<Time>, a: nat, b: nat)
    requires Sorted(ts) && a <= b <= |ts| && (a < b ==> from <= ts[a])
    ensures Ascending(from, ts[a..b])
  {
    var slice := ts[a..b];
    forall i | 0 <= i < |slice| ensures from <= slice[i] {
      assert slice[i] == ts[a + i];
    }
  }

  lemma SliceInside(ts: seq<Time>, a: nat, b: nat, w: int, t: Time)
    requires a <= b <= |ts| && forall i :: a <= i < b ==> ts[i] - w < t
    ensures Inside(ts[a..b], w, t)
  {
    var slice := ts[a..b];
    forall i | 0 <= i < |slice| ensures slice[i] - w < t {
      assert slice[i] == ts[a + i];
    }
  }

  lemma Whole(ts: seq<Time>, a: nat, n: nat)
    requires a <= n < |ts|
    ensures ts[..a] + ts[a..n] == ts[..n] && (ts[..n] + [ts[n]]) + ts[n + 1..] == ts
  {}

  /** The pod falls ill at `t`, after `a` ticks, and the ticks up to tick `n` hold it so. */
  lemma SickUntil(start: Time, ts: seq<Time>, d: Settings, cs: Configs, config: Option<GovernanceConfig>, t: Time,
                  a: nat, n: nat)
    returns (tr: seq<State>, ls: seq<Label>)
    requires 0 < start <= t && Ascending(start, ts) && WholeSeconds(d.window) && a <= n < |ts| && t <= ts[n]
    requires config in cs && Resolve(d, config).window > 0
    requires forall i :: 0 <= i < a ==> ts[i] <= t
    requires forall i :: a <= i < n ==> t <= ts[i] && ts[i] - Resolve(d, config).window < t
    ensures Plain(tr, ls, start, d, cs) && TickTimes(ls) == ts[..n] && Sick(tr[|ls|], t)
    ensures ConfigOf(tr[|ls|].tables, POD) == config && tr[|ls|].clock <= ts[n]
  {
    SliceAscending(start, ts, 0, a);
    tr, ls := MakeSick(start, ts[..a], d, cs, config, t);
    SliceAscending(tr[|ls|].clock, ts, a, n);
    SliceInside(ts, a, n, Resolve(d, config).window, t);
    Whole(ts, a, n);
    tr, ls := HoldTicks(tr, ls, start, d, cs, t, ts[a..n]);
    assert a < n ==> ts[a..n][n - a - 1] == ts[n - 1] <= ts[n];
  }

  /** Tick `n` of the schedule lets the pod go, and the rest of the ticks follow. */
  lemma CureAndRest(tr: seq<State>, ls: seq<Label>, start: Time, d: Settings, cs: Configs, t: Time,
                    ts: seq<Time>, n: nat)
    returns (tr': seq<State>, ls': seq<Label>)
    requires Plain(tr, ls, start, d, cs) && Sick(tr[|ls|], t) && Sorted(ts) && n < |ts|
    requires TickTimes(ls) == ts[..n] && tr[|ls|].clock <= ts[n] && Window(tr[|ls|].tables, d, POD) > 0
    requires t < ts[n] - RECOVERY_MULTIPLIER * Window(tr[|ls|].tables, d, POD)
    ensures Plain(tr', ls', start, d, cs) && TickTimes(ls') == ts
    ensures MarkedHealthy(POD) in tr'[|ls'|].trail
  {
    tr', ls' := Cure(tr, ls, start, d, cs, t, ts[n]);
    SliceAscending(ts[n], ts, n + 1, |ts|);
    Whole(ts, n, n);
    tr', ls' := EmptyTicks(tr', ls', start, d, cs, ts[n + 1..]);
  }

  /** The pod has the same config, or none, whenever violations of it are kept. */
  ghost predicate UnderConfig(tr: seq<State>, k: Key, config: Option<GovernanceConfig>) {
    forall i :: 0 <= i < |tr| && k in tr[i].tables.violations ==> ConfigOf(tr[i].tables, k) == config
  }

  /** A run on schedule `ts` with defaults `d` in which pod `k` is under `config` and is marked healthy. */
  ghost predicate RecoveringRun(tr: seq<State>, ls: seq<Label>, start: Time, ts: seq<Time>, d: Settings,
                                config: Option<GovernanceConfig>, k: Key)
  {
    && IsRun(tr, ls) && tr[0].clock == start && tr[0].defaults == d && TickTimes(ls) == ts
    && UnderConfig(tr, k, config)
    && MarkedHealthy(k) in tr[|ls|].trail
  }

  /** Sufficiency: for every tick schedule with a late tick, all defaults and every config, or none, some run on exactly
      that schedule marks a pod healthy. */
  lemma LateTickRecovers(start: Time, ts: seq<Time>, d: Settings, config: Option<GovernanceConfig>)
    returns (tr: seq<State>, ls: seq<Label>)
    requires start > 0 && Ascending(start, ts) && WholeSeconds(d.window)
    requires Resolve(d, config).window > 0 && CanRecover(start, ts, Resolve(d, config).window)
    ensures RecoveringRun(tr, ls, start, ts, d, config, POD)
  {
    var cs, w := {config}, Resolve(d, config).window;
    var n: nat :| Late(start, ts, w, n);
    var t, a := ChooseMoment(start, ts, w, n);
    tr, ls := SickUntil(start, ts, d, cs, config, t, a, n);
    tr, ls := CureAndRest(tr, ls, start, d, cs, t, ts, n);
  }

  lemma ConfigFixesWindow(tr: seq<State>, ls: seq<Label>, d: Settings, config: Option<GovernanceConfig>, k: Key)
    requires IsRun(tr, ls) && tr[0].defaults == d && UnderConfig(tr, k, config)
    ensures ConstantWindow(tr, ls, k, Resolve(d, config).window)
  {
    forall i: nat | Examines(tr, ls, i, k)
      ensures Window(tr[i].tables, tr[i].defaults, k) == Resolve(d, config).window
    {
      ClockMonotone(tr, ls, 0, i);
    }
  }

  /** The exact law: for all defaults and every config a pod may have, or none, with a positive window, a tick schedule
      allows a run that marks such a pod healthy if and only if it has a late tick for that window. */
  lemma RecoveryReachableIff(start: Time, ts: seq<Time>, d: Settings, config: Option<GovernanceConfig>)
    requires start > 0 && Ascending(start, ts) && WholeSeconds(d.window) && Resolve(d, config).window > 0
    ensures CanRecover(start, ts, Resolve(d, config).window) <==>
            exists tr, ls, k :: RecoveringRun(tr, ls, start, ts, d, config, k)
  {
    if CanRecover(start, ts, Resolve(d, config).window) {
      var tr, ls := LateTickRecovers(start, ts, d, config);
    }
    if tr, ls, k :| RecoveringRun(tr, ls, start, ts, d, config, k) {
      ConfigFixesWindow(tr, ls, d, config, k);
      RecoveryNeedsLateTick(tr, ls, k, Resolve(d, config).window);
    }
  }

  // ---- windows that change ----

  /** Whenever a tick finds violations of the pod its window is at least `lo`. */
  ghost predicate WindowAtLeast(tr: seq<State>, ls: seq<Label>, k: Key, lo: int)
    requires IsRun(tr, ls)
  {
    forall i: nat :: Examines(tr, ls, i, k) ==> lo <= Window(tr[i].tables, tr[i].defaults, k)
  }

  /** A run on schedule `ts` with defaults `d` in which pod `k` has windows of `lo` or more and is marked healthy. */
  ghost predicate AnyWindowRun(tr: seq<State>, ls: seq<Label>, start: Time, ts: seq<Time>, d: Settings, lo: int, k: Key)
  {
    && IsRun(tr, ls) && tr[0].clock == start && tr[0].defaults == d && TickTimes(ls) == ts
    && WindowAtLeast(tr, ls, k, lo)
    && MarkedHealthy(k) in tr[|ls|].trail
  }

  function WindowConfig(seconds: int): GovernanceConfig {
    GovernanceConfig(Thresholds(0, 0, 0, 0), EvalConfig(seconds, 0))
  }

  lemma PlainWindows(tr: seq<State>, ls: seq<Label>, start: Time, d: Settings, small: int, big: int)
    requires small <= big && Plain(tr, ls, start, d, {Some(WindowConfig(big)), Some(WindowConfig(small))})
    ensures WindowAtLeast(tr, ls, POD, small * SECOND)
  {}

  /** More whole seconds than pass from `a` to `b`. */
  lemma WiderThan(a: Time, b: Time) returns (seconds: int)
    ensures seconds * SECOND > b - a
  {
    seconds := (b - a) / SECOND + 1;
  }

  /** On every schedule with a tick more than three small windows after the start, however punctual its ticks, and for
      all defaults, a run in which a sync makes the window small just before that tick marks the pod healthy. */
  lemma ShrinkingWindowRecovers(start: Time, ts: seq<Time>, d: Settings, n: nat, seconds: int)
    returns (tr: seq<State>, ls: seq<Label>)
    requires start > 0 && Ascending(start, ts) && WholeSeconds(d.window) && seconds >= 1
    requires n < |ts| && ts[n] - start > RECOVERY_MULTIPLIER * (seconds * SECOND)
    ensures AnyWindowRun(tr, ls, start, ts, d, seconds * SECOND, POD)
  {
    var big := WiderThan(start, ts[n]);
    var wide, small := WindowConfig(big), WindowConfig(seconds);
    var cs := {Some(wide), Some(small)};
    tr, ls := SickUntil(start, ts, d, cs, Some(wide), start, 0, n);
    tr, ls := SyncOne(tr, ls, start, d, cs, small);
    tr, ls := CureAndRest(tr, ls, start, d, cs, start, ts, n);
    PlainWindows(tr, ls, start, d, seconds, big);
  }

  /** Nothing is recorded with a reading before the start. */
  lemma {:induction false} LogFromStart(tr: seq<State>, ls: seq<Label>, j: nat, k: Key)
    requires IsRun(tr, ls) && j < |tr|
    ensures tr[j].phase.Fetching? || tr[j].phase.Judging? ==> tr[0].clock <= tr[j].phase.now
    ensures forall t :: t in Get(tr[j].log, k) ==> tr[0].clock <= t
  {
    if j > 0 {
      LogFromStart(tr, ls, j - 1, k);
      assert StepAt(tr, ls, j - 1);
      ClockMonotone(tr, ls, 0, j - 1);
      LogStep(tr[j - 1], ls[j - 1], k);
    }
  }

  lemma {:induction false} TickTimesHolds(ls: seq<Label>, i: nat) returns (n: nat)
    requires i < |ls| && ls[i].Tick?
    ensures n < |TickTimes(ls)| && TickTimes(ls)[n] == ls[i].now
  {
    var last := |ls| - 1;
    if i == last {
      n := |TickTimes(ls[..last])|;
    } else {
      n := TickTimesHolds(ls[..last], i);
    }
  }

  ghost predicate FarTick(start: Time, ts: seq<Time>, lo: int, n: nat) {
    n < |ts| && ts[n] - start > RECOVERY_MULTIPLIER * lo
  }

  lemma RecoveryNeedsFarTick(tr: seq<State>, ls: seq<Label>, k: Key, lo: int) returns (n: nat)
    requires IsRun(tr, ls) && WindowAtLeast(tr, ls, k, lo) && MarkedHealthy(k) in tr[|ls|].trail
    ensures FarTick(tr[0].clock, TickTimes(ls), lo, n)
  {
    var j := HealthyMarkStep(tr, ls, |ls|, k);
    assert StepAt(tr, ls, j);
    var i := SafeRecovery(tr, ls, j, k);
    assert Examines(tr, ls, i, k);
    LogFromStart(tr, ls, j, k);
    var v := Get(tr[j].log, k)[0];
    assert v in Get(tr[j].log, k);
    n := TickTimesHolds(ls, i);
  }

  /** When syncs may change the window, down to `seconds` but not below, a schedule allows recovery, for all defaults,
      if and only if it has a tick more than three such windows after the start: how late ticks are does not matter. */
  lemma AnyWindowReachableIff(start: Time, ts: seq<Time>, d: Settings, seconds: int)
    requires start > 0 && Ascending(start, ts) && WholeSeconds(d.window) && seconds >= 1
    ensures (exists n :: FarTick(start, ts, seconds * SECOND, n)) <==>
            exists tr, ls, k :: AnyWindowRun(tr, ls, start, ts, d, seconds * SECOND, k)
  {
    if n :| FarTick(start, ts, seconds * SECOND, n) {
      var tr, ls := ShrinkingWindowRecovers(start, ts, d, n, seconds);
    }
    if tr, ls, k :| AnyWindowRun(tr, ls, start, ts, d, seconds * SECOND, k) {
      var n := RecoveryNeedsFarTick(tr, ls, k, seconds * SECOND);
    }
  }

  /** Ticks on time to the nanosecond, and yet a recovery, for all defaults: PunctualTicksNeverRecover needs a window
      that does not shrink. */
  lemma PunctualTicksCanRecover(d: Settings) returns (tr: seq<State>, ls: seq<Label>)
    requires WholeSeconds(d.window)
    ensures IsRun(tr, ls) && tr[0].defaults == d && Punctual(tr[0].clock, TickTimes(ls), 2 * SECOND)
    ensures WindowAtLeast(tr, ls, POD, SECOND) && MarkedHealthy(POD) in tr[|ls|].trail
  {
    tr, ls := ShrinkingWindowRecovers(SECOND, [3 * SECOND, 5 * SECOND], d, 1, 1);
  }
}
