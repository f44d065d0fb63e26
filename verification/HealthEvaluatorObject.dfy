/** The evaluator object: the tables are fields, each locked region is a method that updates them
    in place, and every contract ties the new tables to the closed forms of EvaluatorTables. */
module HealthEvaluatorObject {
  import opened ApiTypes
  import opened TimeLists
  import opened EvaluatorTables

  class HealthEvaluator {
    const defaults: Settings
    var violationTimes: map<Key, seq<Time>>
    var lastSeenTimes: map<Key, Time>
    var unhealthyPods: set<Key>
    var podConfigs: map<Key, GovernanceConfig>

    ghost function Value(): Tables
      reads this
    {
      Tables(violationTimes, lastSeenTimes, unhealthyPods, podConfigs)
    }

    constructor (windowSizeSec: int, errorCountLimit: int, thresholdUs: int)
      ensures defaults == Settings(thresholdUs, windowSizeSec * 1_000_000_000, errorCountLimit)
      ensures Value() == Tables(map[], map[], {}, map[])
    {
      defaults := Settings(thresholdUs, windowSizeSec * SECOND, errorCountLimit);
      violationTimes, lastSeenTimes, unhealthyPods, podConfigs := map[], map[], {}, map[];
    }

    /** First locked region of processEvent. */
    method RecordSeen(k: Key, now: Time) returns (config: Option<GovernanceConfig>)
      modifies this
      ensures Value() == See(old(Value()), k, now)
      ensures config == if k in podConfigs then Some(podConfigs[k]) else None
    {
      lastSeenTimes := lastSeenTimes[k := now];
      config := if k in podConfigs then Some(podConfigs[k]) else None;
    }

    /** `fetched` is what the API server and the JSON decoder delivered. */
    method FetchAndCachePodConfig(k: Key, fetched: Option<GovernanceConfig>) returns (config: Option<GovernanceConfig>)
      modifies this`podConfigs
      ensures Value() == Cache(old(Value()), k, fetched)
      ensures config == fetched
    {
      config := fetched;
      if fetched.Some? {
        podConfigs := podConfigs[k := fetched.value];
      }
    }

    method CountViolationsLocked(k: Key, windowSize: int, now: Time) returns (count: int)
      ensures count == |After(Get(violationTimes, k), now - windowSize)|
    {
      var cutoff := now - windowSize;
      var times := Get(violationTimes, k);
      count := 0;
      for i := 0 to |times|
        invariant count == |After(times[..i], cutoff)|
      {
        assert times[..i + 1][..i] == times[..i];
        if times[i] > cutoff {
          count := count + 1;
        }
      }
      assert times[..|times|] == times;
    }

    /** Second locked region of processEvent; `recount` is the clock reading inside the count. */
    method JudgeDuration(k: Key, st: Settings, durationUs: int, now: Time, recount: Time) returns (marked: bool)
      modifies this`violationTimes, this`unhealthyPods
      ensures Value() == Judge(old(Value()), k, st, durationUs, now, recount)
      ensures marked <==> k !in old(unhealthyPods) && k in unhealthyPods
    {
      marked := false;
      if durationUs > st.thresholdUs {
        violationTimes := violationTimes[k := Get(violationTimes, k) + [now]];
        var violations := CountViolationsLocked(k, st.window, recount);
        if violations > st.limit && k !in unhealthyPods {
          unhealthyPods := unhealthyPods + {k};
          marked := true;
        }
      }
    }

    /** The same with the settings taken from a config, or from the defaults where there is none. */
    method JudgeUnder(k: Key, c: Option<GovernanceConfig>, durationUs: int, now: Time, recount: Time)
      returns (marked: bool)
      modifies this`violationTimes, this`unhealthyPods
      ensures var threshold := if c.Some? then c.value.thresholds.maxNcclLatencyUs else defaults.thresholdUs;
              var window := if c.Some? then c.value.evalConfig.windowSize * 1_000_000_000 else defaults.window;
              var limit := if c.Some? then c.value.evalConfig.errorCountLimit else defaults.limit;
              var times := (if k in old(violationTimes) then old(violationTimes)[k] else []) + [now];
              var over := durationUs > threshold && |After(times, recount - window)| > limit;
              && violationTimes ==
                   (if durationUs > threshold then old(violationTimes)[k := times] else old(violationTimes))
              && unhealthyPods == old(unhealthyPods) + (if over then {k} else {})
              && (marked <==> over && k !in old(unhealthyPods))
    {
      JudgeByConfig(Value(), k, defaults, c, durationUs, now, recount);
      marked := JudgeDuration(k, Resolve(defaults, c), durationUs, now, recount);
    }

    method FindConfig(k: Key, config: Option<GovernanceConfig>, early: seq<Listed>, fetched: Option<GovernanceConfig>,
                      late: seq<Listed>)
      returns (c: Option<GovernanceConfig>)
      modifies this`podConfigs
      ensures c == if config.Some? then config else fetched
      ensures var synced := Sync(old(podConfigs), early);
              podConfigs == Sync(if config.None? && fetched.Some? then synced[k := fetched.value] else synced, late)
    {
      SyncNodePods(early);
      c := config;
      if c.None? {
        c := FetchAndCachePodConfig(k, fetched);
      }
      SyncNodePods(late);
    }

    /** What follows the first locked region of processEvent, with `config` as read there.  `early` and `late` are the
        pods that syncs list before and after the fetch; whatever they bring, the settings are those of the config as
        first read or fetched. */
    method EvaluateKey(k: Key, config: Option<GovernanceConfig>, durationUs: int, now: Time, early: seq<Listed>,
                       fetched: Option<GovernanceConfig>, late: seq<Listed>, recount: Time)
      returns (marked: bool)
      modifies this
      ensures lastSeenTimes == old(lastSeenTimes)
      ensures var synced := Sync(old(podConfigs), early);
              podConfigs == Sync(if config.None? && fetched.Some? then synced[k := fetched.value] else synced, late)
      ensures var c := if config.Some? then config else fetched;
              var threshold := if c.Some? then c.value.thresholds.maxNcclLatencyUs else defaults.thresholdUs;
              var window := if c.Some? then c.value.evalConfig.windowSize * 1_000_000_000 else defaults.window;
              var limit := if c.Some? then c.value.evalConfig.errorCountLimit else defaults.limit;
              var times := (if k in old(violationTimes) then old(violationTimes)[k] else []) + [now];
              var over := durationUs > threshold && |After(times, recount - window)| > limit;
              && violationTimes ==
                   (if durationUs > threshold then old(violationTimes)[k := times] else old(violationTimes))
              && unhealthyPods == old(unhealthyPods) + (if over then {k} else {})
              && (marked <==> over && k !in old(unhealthyPods))
    {
      var c := FindConfig(k, config, early, fetched, late);
      marked := JudgeUnder(k, c, durationUs, now, recount);
    }

    /** processEvent from the first locked region on: the config is the one cached there or, without one, the one
        fetched. */
    method ProcessKey(k: Key, durationUs: int, now: Time, early: seq<Listed>, fetched: Option<GovernanceConfig>,
                      late: seq<Listed>, recount: Time)
      returns (marked: bool)
      modifies this
      ensures var c := if k in old(podConfigs) then Some(old(podConfigs)[k]) else fetched;
              var threshold := if c.Some? then c.value.thresholds.maxNcclLatencyUs else defaults.thresholdUs;
              var window := if c.Some? then c.value.evalConfig.windowSize * 1_000_000_000 else defaults.window;
              var limit := if c.Some? then c.value.evalConfig.errorCountLimit else defaults.limit;
              var times := (if k in old(violationTimes) then old(violationTimes)[k] else []) + [now];
              var over := durationUs > threshold && |After(times, recount - window)| > limit;
              && lastSeenTimes == old(lastSeenTimes)[k := now]
              && violationTimes ==
                   (if durationUs > threshold then old(violationTimes)[k := times] else old(violationTimes))
              && unhealthyPods == old(unhealthyPods) + (if over then {k} else {})
              && (marked <==> over && k !in old(unhealthyPods))
      ensures var synced := Sync(old(podConfigs), early);
              var fetches := k !in old(podConfigs) && fetched.Some?;
              podConfigs == Sync(if fetches then synced[k := fetched.value] else synced, late)
    {
      var config := RecordSeen(k, now);
      marked := EvaluateKey(k, config, durationUs, now, early, fetched, late, recount);
    }

    /** processEvent: only all-reduce events of pods with a name are evaluated. */
    method ProcessEvent(e: Event, now: Time, early: seq<Listed>, fetched: Option<GovernanceConfig>, late: seq<Listed>,
                        recount: Time)
      returns (marked: bool)
      modifies this
      ensures e.kind != 0 || e.podName == "" || e.podName == "unknown" ==> !marked && Value() == old(Value())
      ensures e.kind == 0 && e.podName != "" && e.podName != "unknown" ==>
                var k := Key(e.podNamespace + "/" + e.podName);
                var c := if k in old(podConfigs) then Some(old(podConfigs)[k]) else fetched;
                var threshold := if c.Some? then c.value.thresholds.maxNcclLatencyUs else defaults.thresholdUs;
                var window := if c.Some? then c.value.evalConfig.windowSize * 1_000_000_000 else defaults.window;
                var limit := if c.Some? then c.value.evalConfig.errorCountLimit else defaults.limit;
                var times := (if k in old(violationTimes) then old(violationTimes)[k] else []) + [now];
                var over := e.durationUs > threshold && |After(times, recount - window)| > limit;
                && lastSeenTimes == old(lastSeenTimes)[k := now]
                && violationTimes ==
                     (if e.durationUs > threshold then old(violationTimes)[k := times] else old(violationTimes))
                && unhealthyPods == old(unhealthyPods) + (if over then {k} else {})
                && (marked <==> over && k !in old(unhealthyPods))
      ensures e.kind == 0 && e.podName != "" && e.podName != "unknown" ==>
                var k := Key(e.podNamespace + "/" + e.podName);
                var synced := Sync(old(podConfigs), early);
                var fetches := k !in old(podConfigs) && fetched.Some?;
                podConfigs == Sync(if fetches then synced[k := fetched.value] else synced, late)
    {
      if e.kind != NCCL_ALL_REDUCE {
        return false;
      }
      if e.podName == "" || e.podName == "unknown" {
        return false;
      }
      marked := ProcessKey(PodKey(e.podNamespace, e.podName), e.durationUs, now, early, fetched, late, recount);
    }

    /** The inner loop of the tick: what survives the cutoff, and the latest reading. */
    static method SplitTimes(times: seq<Time>, cutoff: Time) returns (valid: seq<Time>, latest: Time)
      ensures valid == After(times, cutoff)
      ensures latest == Latest(times)
    {
      valid, latest := [], 0;
      for i := 0 to |times|
        invariant valid == After(times[..i], cutoff)
        invariant latest == Latest(times[..i])
      {
        assert times[..i + 1][..i] == times[..i];
        if times[i] > cutoff {
          valid := valid + [times[i]];
        }
        if times[i] > latest {
          latest := times[i];
        }
      }
      assert times[..|times|] == times;
    }

    /** Body of the first map loop. */
    method PruneEntry(k: Key, now: Time) returns (recovers: bool)
      requires k in violationTimes
      modifies this`violationTimes
      ensures var kept := Kept(old(Value()), defaults, now, k);
              violationTimes == if kept == [] then old(violationTimes) - {k} else old(violationTimes)[k := kept]
      ensures recovers <==> Recovers(old(Value()), defaults, now, k)
    {
      var windowSize := if k in podConfigs then podConfigs[k].evalConfig.windowSize * SECOND else defaults.window;
      var recoveryCutoff := now - windowSize * RECOVERY_MULTIPLIER;
      var valid, latest := SplitTimes(violationTimes[k], now - windowSize);
      recovers := false;
      if valid == [] {
        violationTimes := violationTimes - {k};
        recovers := k in unhealthyPods && (latest == 0 || latest < recoveryCutoff);
      } else {
        violationTimes := violationTimes[k := valid];
      }
    }

    /** Go ranges over a map in no fixed order; `k :| k in todo` leaves the order open. */
    method PruneViolations(now: Time) returns (podsToRecover: seq<Key>)
      modifies this`violationTimes
      ensures violationTimes == Prune(old(Value()), defaults, now)
      ensures IsListing(podsToRecover, Recoverable(old(Value()), defaults, now))
    {
      podsToRecover := [];
      ghost var t := Value();
      var todo := violationTimes.Keys;
      while todo != {}
        invariant todo <= t.violations.Keys
        invariant violationTimes == PrunedBut(t, defaults, now, todo)
        invariant IsListing(podsToRecover, RecoverableBut(t, defaults, now, todo))
      {
        var k :| k in todo;
        PruneStep(t, defaults, now, todo, k, Value());
        var recovers := PruneEntry(k, now);
        if recovers {
          podsToRecover := podsToRecover + [k];
        }
        todo := todo - {k};
      }
    }

    method DropStale(now: Time)
      modifies this`lastSeenTimes, this`unhealthyPods, this`podConfigs
      ensures var stale := StaleKeys(old(Value()), defaults, now);
              && lastSeenTimes == old(lastSeenTimes) - stale
              && unhealthyPods == old(unhealthyPods) - stale
              && podConfigs == old(podConfigs) - stale
    {
      ghost var t := Value();
      ghost var gone: set<Key> := {};
      var todo := lastSeenTimes.Keys;
      while todo != {}
        invariant todo <= t.lastSeen.Keys && gone !! todo
        invariant gone == set k | k in t.lastSeen && k !in todo && Stale(t, defaults, now, k)
        invariant lastSeenTimes == t.lastSeen - gone
        invariant unhealthyPods == t.unhealthy - gone
        invariant podConfigs == t.configs - gone
      {
        var k :| k in todo;
        var windowSize := if k in podConfigs then podConfigs[k].evalConfig.windowSize * SECOND else defaults.window;
        if lastSeenTimes[k] < now - windowSize * RECOVERY_MULTIPLIER {
          lastSeenTimes := lastSeenTimes - {k};
          unhealthyPods := unhealthyPods - {k};
          podConfigs := podConfigs - {k};
          gone := gone + {k};
        }
        todo := todo - {k};
      }
    }

    /** Locked part of checkRecoveryAndCleanup. */
    method SweepLocked(now: Time) returns (podsToRecover: seq<Key>)
      modifies this
      ensures Value() == Sweep(old(Value()), defaults, now)
      ensures IsListing(podsToRecover, Recoverable(old(Value()), defaults, now))
    {
      podsToRecover := PruneViolations(now);
      ghost var t := Value();
      assert StaleKeys(t, defaults, now) == StaleKeys(old(Value()), defaults, now);
      DropStale(now);
    }

    /** Last loop of checkRecoveryAndCleanup: mark, then forget, each recovering pod whose key splits in two. */
    method RecoverPods(podsToRecover: seq<Key>) returns (marked: seq<Key>)
      modifies this`unhealthyPods
      ensures forall k :: k in unhealthyPods <==> k in old(unhealthyPods) && !(k in podsToRecover && Markable(k))
      ensures forall k :: k in marked <==> k in podsToRecover && Markable(k)
    {
      marked := [];
      for i := 0 to |podsToRecover|
        invariant forall k :: k in unhealthyPods <==>
                                k in old(unhealthyPods) && !(k in podsToRecover[..i] && Markable(k))
        invariant forall k :: k in marked <==> k in podsToRecover[..i] && Markable(k)
      {
        var k := podsToRecover[i];
        assert podsToRecover[..i + 1] == podsToRecover[..i] + [k];
        if |Split(k.text)| == 2 {
          marked := marked + [k];
          unhealthyPods := unhealthyPods - {k};
        }
      }
      assert podsToRecover[..|podsToRecover|] == podsToRecover;
    }

    method SyncNodePods(pods: seq<Listed>)
      modifies this`podConfigs
      ensures podConfigs == Sync(old(podConfigs), pods)
    {
      for i := 0 to |pods|
        invariant podConfigs == Sync(old(podConfigs), pods[..i])
      {
        assert pods[..i + 1][..i] == pods[..i];
        if pods[i].config.Some? {
          podConfigs := podConfigs[PodKey(pods[i].podNamespace, pods[i].podName) := pods[i].config.value];
        }
      }
      assert pods[..|pods|] == pods;
    }
  }
}
