/** Which settings an event is judged by, over whole runs, in the fields of the pod's config. */
module EvaluatorConfigs {
  import opened ApiTypes
  import opened TimeLists
  import opened EvaluatorTables
  import opened EvaluatorRuns

  /** Step `i` takes up an all-reduce event of the named pod that `s` is evaluating. */
  ghost predicate Started(ls: seq<Label>, i: nat, key: Key, now: Time, durationUs: int)
    requires i < |ls|
  {
    && ls[i].Begin? && ls[i].now == now && ls[i].event.durationUs == durationUs
    && ls[i].event.kind == 0 && ls[i].event.podName != "" && ls[i].event.podName != "unknown"
    && key.text == ls[i].event.podNamespace + "/" + ls[i].event.podName
  }

  lemma {:induction false} FetchingSince(tr: seq<State>, ls: seq<Label>, j: nat) returns (i: nat)
    requires IsRun(tr, ls) && j < |tr| && tr[j].phase.Fetching?
    ensures i < j && Started(ls, i, tr[j].phase.key, tr[j].phase.now, tr[j].phase.durationUs)
    ensures tr[j].phase.key !in tr[i].tables.configs
  {
    assert j > 0;
    i := j - 1;
    assert StepAt(tr, ls, i);
    if !ls[i].Begin? || tr[i].phase.Fetching? {
      i := FetchingSince(tr, ls, i);
    }
  }

  /** The config of `key` cached when step `i` begins the event or, without one, what the fetch at step `m` brought. */
  ghost predicate FirstRead(tr: seq<State>, ls: seq<Label>, i: nat, j: nat, key: Key, c: Option<GovernanceConfig>)
    requires i < j < |tr| == |ls| + 1
  {
    if key in tr[i].tables.configs then c == Some(tr[i].tables.configs[key])
    else exists m :: i < m < j && ls[m] == Fetch(c)
  }

  ghost predicate SettingsOf(st: Settings, d: Settings, c: Option<GovernanceConfig>) {
    && st.thresholdUs == (if c.Some? then c.value.thresholds.maxNcclLatencyUs else d.thresholdUs)
    && st.window == (if c.Some? then c.value.evalConfig.windowSize * 1_000_000_000 else d.window)
    && st.limit == (if c.Some? then c.value.evalConfig.errorCountLimit else d.limit)
  }

  /** Whatever syncs fall in between, an event is judged by the config first read or fetched for it. */
  lemma {:induction false} SettingsOrigin(tr: seq<State>, ls: seq<Label>, j: nat)
    returns (i: nat, c: Option<GovernanceConfig>)
    requires IsRun(tr, ls) && j < |tr| && tr[j].phase.Judging?
    ensures i < j && Started(ls, i, tr[j].phase.key, tr[j].phase.now, tr[j].phase.durationUs)
    ensures FirstRead(tr, ls, i, j, tr[j].phase.key, c) && SettingsOf(tr[j].phase.settings, tr[0].defaults, c)
  {
    assert j > 0;
    var h := j - 1;
    assert StepAt(tr, ls, h);
    ClockMonotone(tr, ls, 0, h);
    if ls[h].Begin? && tr[h].phase.Idle? && Evaluated(ls[h].event) {
      i, c := h, Some(tr[h].tables.configs[tr[j].phase.key]);
    } else if ls[h].Fetch? {
      c := ls[h].fetched;
      i := FetchingSince(tr, ls, h);
      assert ls[h] == Fetch(c);
    } else {
      i, c := SettingsOrigin(tr, ls, h);
    }
  }

  lemma FinishMeans(s: State, recount: Time, k: Key)
    requires Enabled(s, Finish(recount)) && s.phase.key == k
    ensures var st, u := s.phase.settings, FinishEvent(s, recount);
            var slow := s.phase.durationUs > st.thresholdUs;
            var times := Get(s.tables.violations, k) + [s.phase.now];
            && Get(u.log, k) == Get(s.log, k) + (if slow then [s.phase.now] else [])
            && Get(u.tables.violations, k) == (if slow then times else Get(s.tables.violations, k))
            && (k in u.tables.unhealthy <==>
                k in s.tables.unhealthy || (slow && |After(times, recount - st.window)| > st.limit))
  {}

  /** One evaluation in any run, in config fields: a violation at the time the event was taken up is recorded if and
      only if the call took longer than maxNcclLatencyUs, and then the pod is unhealthy if it was or if more violations
      than errorCountLimit are kept from the last windowSize seconds. */
  lemma JudgedAsConfigured(tr: seq<State>, ls: seq<Label>, j: nat, k: Key) returns (i: nat, c: Option<GovernanceConfig>)
    requires IsRun(tr, ls) && j < |ls| && ls[j].Finish? && tr[j].phase.Judging? && tr[j].phase.key == k
    ensures i < j && ls[i].Begin? && Started(ls, i, k, ls[i].now, ls[i].event.durationUs)
    ensures FirstRead(tr, ls, i, j, k, c)
    ensures var d := tr[0].defaults;
            var slow := ls[i].event.durationUs >
                          if c.Some? then c.value.thresholds.maxNcclLatencyUs else d.thresholdUs;
            var window := if c.Some? then c.value.evalConfig.windowSize * 1_000_000_000 else d.window;
            var limit := if c.Some? then c.value.evalConfig.errorCountLimit else d.limit;
            var times := Get(tr[j].tables.violations, k) + [ls[i].now];
            && Get(tr[j + 1].log, k) == Get(tr[j].log, k) + (if slow then [ls[i].now] else [])
            && Get(tr[j + 1].tables.violations, k) == (if slow then times else Get(tr[j].tables.violations, k))
            && (k in tr[j + 1].tables.unhealthy <==>
                k in tr[j].tables.unhealthy || (slow && |After(times, ls[j].recount - window)| > limit))
  {
    assert StepAt(tr, ls, j);
    FinishMeans(tr[j], ls[j].recount, k);
    i, c := SettingsOrigin(tr, ls, j);
  }

  // ---- the steps of one event, as the object performs them ----

  ghost predicate Leads(s: State, ls: seq<Label>, u: State)
    decreases |ls|
  {
    if ls == [] then s == u else Enabled(s, ls[0]) && Leads(Next(s, ls[0]), ls[1..], u)
  }

  lemma LeadsBy(s: State, l: Label, ls: seq<Label>, u: State)
    requires Enabled(s, l) && Leads(Next(s, l), ls, u)
    ensures Leads(s, [l] + ls, u)
  {
    assert ([l] + ls)[1..] == ls;
  }

  function EventLabels(e: Event, now: Time, early: seq<Listed>, hit: bool, fetched: Option<GovernanceConfig>,
                       late: seq<Listed>, recount: Time): seq<Label>
  {
    [Begin(e, now)]
    + ([SyncPods(early)] + ((if hit then [] else [Fetch(fetched)]) + ([SyncPods(late)] + [Finish(recount)])))
  }

  /** Begin, a sync, the fetch if the cache has nothing, a sync and Finish leave the tables that HealthEvaluator's
      ProcessEvent leaves. */
  lemma StepsOfAnEvent(s: State, e: Event, now: Time, early: seq<Listed>, fetched: Option<GovernanceConfig>,
                       late: seq<Listed>, recount: Time)
    returns (u: State)
    requires s.phase == Idle && s.clock <= now <= recount
    requires e.kind == 0 && e.podName != "" && e.podName != "unknown"
    ensures Leads(s, EventLabels(e, now, early, PodKey(e.podNamespace, e.podName) in s.tables.configs, fetched, late,
                                 recount), u)
    ensures var k := PodKey(e.podNamespace, e.podName);
            var hit := k in s.tables.configs;
            var c := if hit then Some(s.tables.configs[k]) else fetched;
            var seen := Synced(See(s.tables, k, now), early);
            var cached := Synced(if hit then seen else Cache(seen, k, fetched), late);
            u.tables == Judge(cached, k, Resolve(s.defaults, c), e.durationUs, now, recount) && u.phase == Idle
  {
    var k := PodKey(e.podNamespace, e.podName);
    var none: seq<Label> := [];
    var s1 := Next(s, Begin(e, now));
    var s2 := Next(s1, SyncPods(early));
    var s3 := if k in s.tables.configs then s2 else Next(s2, Fetch(fetched));
    var s4 := Next(s3, SyncPods(late));
    u := Next(s4, Finish(recount));
    assert Leads(u, none, u);
    LeadsBy(s4, Finish(recount), none, u);
    assert [Finish(recount)] + none == [Finish(recount)];
    LeadsBy(s3, SyncPods(late), [Finish(recount)], u);
    var rest := [SyncPods(late)] + [Finish(recount)];
    if k in s.tables.configs {
      assert none + rest == rest;
    } else {
      LeadsBy(s2, Fetch(fetched), rest, u);
    }
    var tail := (if k in s.tables.configs then none else [Fetch(fetched)]) + rest;
    LeadsBy(s1, SyncPods(early), tail, u);
    LeadsBy(s, Begin(e, now), [SyncPods(early)] + tail, u);
  }
}
