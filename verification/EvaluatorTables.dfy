/** The four tables of the agent's health evaluator and what each locked region does to them,
    as functions of their values (agent/collector/evaluator.go). */
module EvaluatorTables {
  import opened ApiTypes
  import opened TimeLists

  const SECOND: int := 1_000_000_000
  const RECOVERY_MULTIPLIER: int := 3
  const NCCL_ALL_REDUCE: int := 0

  /** "namespace/name", wrapped: the tables only compare keys. */
  datatype Key = Key(text: string)

  datatype Event = Event(kind: int, podName: string, podNamespace: string, durationUs: int)

  /** Threshold, window (nanoseconds) and limit that apply to one evaluation. */
  datatype Settings = Settings(thresholdUs: int, window: int, limit: int)

  /** `unhealthy` holds the keys mapped to true: the code stores no other value in that map. */
  datatype Tables = Tables(
    violations: map<Key, seq<Time>>,
    lastSeen: map<Key, Time>,
    unhealthy: set<Key>,
    configs: map<Key, GovernanceConfig>)

  /** One listed pod of this node: namespace, name and the config annotation, if it parses. */
  datatype Listed = Listed(podNamespace: string, podName: string, config: Option<GovernanceConfig>)

  function PodKey(podNamespace: string, podName: string): Key {
    Key(podNamespace + "/" + podName)
  }

  predicate Evaluated(e: Event) {
    e.kind == NCCL_ALL_REDUCE && e.podName != "" && e.podName != "unknown"
  }

  function Get(m: map<Key, seq<Time>>, k: Key): seq<Time> {
    if k in m then m[k] else []
  }

  function Resolve(defaults: Settings, config: Option<GovernanceConfig>): Settings {
    match config
    case None => defaults
    case Some(c) =>
      Settings(c.thresholds.maxNcclLatencyUs, c.evalConfig.windowSize * SECOND, c.evalConfig.errorCountLimit)
  }

  /** The window a tick uses for pod `k`. */
  function Window(t: Tables, defaults: Settings, k: Key): int {
    if k in t.configs then t.configs[k].evalConfig.windowSize * SECOND else defaults.window
  }

  function ConfigOf(t: Tables, k: Key): Option<GovernanceConfig> {
    if k in t.configs then Some(t.configs[k]) else None
  }

  function See(t: Tables, k: Key, now: Time): Tables {
    t.(lastSeen := t.lastSeen[k := now])
  }

  function Cache(t: Tables, k: Key, config: Option<GovernanceConfig>): Tables {
    if config.Some? then t.(configs := t.configs[k := config.value]) else t
  }

  /** Does the list kept for `k`, with the violation at `now` added, exceed the limit at `recount`? */
  predicate OverLimit(t: Tables, k: Key, st: Settings, now: Time, recount: Time) {
    |After(Get(t.violations, k) + [now], recount - st.window)| > st.limit
  }

  function Judge(t: Tables, k: Key, st: Settings, durationUs: int, now: Time, recount: Time): Tables {
    if durationUs <= st.thresholdUs then t
    else
      t.(violations := t.violations[k := Get(t.violations, k) + [now]],
         unhealthy := if OverLimit(t, k, st, now, recount) then t.unhealthy + {k} else t.unhealthy)
  }

  /** The second locked region in the terms of the config as first read or fetched: a call longer than the pod's
      maxNcclLatencyUs is a violation, and the pod is unhealthy when more of them than errorCountLimit lie in the last
      windowSize seconds; the agent's three defaults apply to a pod without a config. */
  lemma JudgeByConfig(
      t: Tables, k: Key, d: Settings, config: Option<GovernanceConfig>, durationUs: int, now: Time, recount: Time)
    ensures var u := Judge(t, k, Resolve(d, config), durationUs, now, recount);
            var threshold := if config.Some? then config.value.thresholds.maxNcclLatencyUs else d.thresholdUs;
            var window := if config.Some? then config.value.evalConfig.windowSize * 1_000_000_000 else d.window;
            var limit := if config.Some? then config.value.evalConfig.errorCountLimit else d.limit;
            var times := (if k in t.violations then t.violations[k] else []) + [now];
            var over := durationUs > threshold && |After(times, recount - window)| > limit;
            && u.lastSeen == t.lastSeen && u.configs == t.configs
            && u.violations == (if durationUs > threshold then t.violations[k := times] else t.violations)
            && u.unhealthy == t.unhealthy + (if over then {k} else {})
  {}

  // ---- one tick: the closed form of the two map loops ----

  function Kept(t: Tables, defaults: Settings, now: Time, k: Key): seq<Time> {
    After(Get(t.violations, k), now - Window(t, defaults, k))
  }

  function Pruned(t: Tables, defaults: Settings, now: Time, k: Key): seq<Time> {
    NotAfter(Get(t.violations, k), now - Window(t, defaults, k))
  }

  predicate Quiet(t: Tables, defaults: Settings, now: Time, k: Key) {
    var latest := Latest(Get(t.violations, k));
    latest == 0 || latest < now - Window(t, defaults, k) * RECOVERY_MULTIPLIER
  }

  predicate Recovers(t: Tables, defaults: Settings, now: Time, k: Key) {
    k in t.violations && Kept(t, defaults, now, k) == [] && k in t.unhealthy && Quiet(t, defaults, now, k)
  }

  predicate Stale(t: Tables, defaults: Settings, now: Time, k: Key) {
    k in t.lastSeen && t.lastSeen[k] < now - Window(t, defaults, k) * RECOVERY_MULTIPLIER
  }

  function Recoverable(t: Tables, defaults: Settings, now: Time): set<Key> {
    set k | k in t.violations && Recovers(t, defaults, now, k)
  }

  function StaleKeys(t: Tables, defaults: Settings, now: Time): set<Key> {
    set k | k in t.lastSeen && Stale(t, defaults, now, k)
  }

  function Prune(t: Tables, defaults: Settings, now: Time): map<Key, seq<Time>> {
    map k | k in t.violations && Kept(t, defaults, now, k) != [] :: Kept(t, defaults, now, k)
  }

  function Sweep(t: Tables, defaults: Settings, now: Time): Tables {
    var stale := StaleKeys(t, defaults, now);
    Tables(Prune(t, defaults, now), t.lastSeen - stale, t.unhealthy - stale, t.configs - stale)
  }

  /** What a tick does, key by key, in the terms of the configs: with the pod's own window in seconds or the default
      one, readings inside the window stay; a pod last seen more than three windows ago leaves the other three tables;
      and a pod recovers that is unhealthy and has nothing left inside and nothing inside three windows either. */
  lemma SweepMeans(t: Tables, defaults: Settings, now: Time, k: Key)
    ensures var w := if k in t.configs then t.configs[k].evalConfig.windowSize * 1_000_000_000 else defaults.window;
            var u := Sweep(t, defaults, now);
            var gone := k in t.lastSeen && t.lastSeen[k] < now - 3 * w;
            && (k in u.violations <==> k in t.violations && exists v :: v in t.violations[k] && v > now - w)
            && (k in u.violations ==> u.violations[k] == After(t.violations[k], now - w))
            && (k in u.lastSeen <==> k in t.lastSeen && !gone)
            && (k in u.lastSeen ==> u.lastSeen[k] == t.lastSeen[k])
            && (k in u.unhealthy <==> k in t.unhealthy && !gone)
            && (k in u.configs <==> k in t.configs && !gone)
            && (k in u.configs ==> u.configs[k] == t.configs[k])
    ensures var w := if k in t.configs then t.configs[k].evalConfig.windowSize * 1_000_000_000 else defaults.window;
            k in Recoverable(t, defaults, now) <==>
              && k in t.violations && k in t.unhealthy
              && (forall v :: v in t.violations[k] ==> v <= now - w)
              && (Latest(t.violations[k]) == 0 || Latest(t.violations[k]) < now - 3 * w)
  {
    var w := Window(t, defaults, k);
    if k in t.violations {
      AfterMembers(t.violations[k], now - w);
      NoneIff(After(t.violations[k], now - w));
    }
  }

  lemma NoneIff(times: seq<Time>)
    ensures times != [] <==> exists v :: v in times
  {
    if times != [] {
      var v := times[0];
      assert v in times;
    }
  }

  /** The violation table when the keys in `todo` have not been visited yet. */
  function PrunedBut(t: Tables, defaults: Settings, now: Time, todo: set<Key>): map<Key, seq<Time>> {
    map k | k in t.violations && (k in todo || Kept(t, defaults, now, k) != [])
      :: if k in todo then t.violations[k] else Kept(t, defaults, now, k)
  }

  function RecoverableBut(t: Tables, defaults: Settings, now: Time, todo: set<Key>): set<Key> {
    Recoverable(t, defaults, now) - todo
  }

  /** Visiting one more key moves the partial sweep on, whichever key it is. */
  lemma PruneStep(t: Tables, defaults: Settings, now: Time, todo: set<Key>, k: Key, u: Tables)
    requires k in todo && todo <= t.violations.Keys
    requires u == t.(violations := PrunedBut(t, defaults, now, todo))
    ensures Recovers(u, defaults, now, k) <==> Recovers(t, defaults, now, k)
    ensures var kept := Kept(u, defaults, now, k);
            PrunedBut(t, defaults, now, todo - {k}) ==
              if kept == [] then u.violations - {k} else u.violations[k := kept]
    ensures RecoverableBut(t, defaults, now, todo - {k}) ==
              RecoverableBut(t, defaults, now, todo) + (if Recovers(t, defaults, now, k) then {k} else {})
  {
    assert u.violations[k] == t.violations[k];
    assert Kept(u, defaults, now, k) == Kept(t, defaults, now, k);
  }

  /** `ks` lists the set without repetition, in some order. */
  ghost predicate IsListing(ks: seq<Key>, keys: set<Key>) {
    && (forall k :: k in ks <==> k in keys)
    && (forall i, j :: 0 <= i < j < |ks| ==> ks[i] != ks[j])
  }

  // ---- recovery marks and config sync ----

  /** strings.Split(k, "/") */
  function Split(k: string): (parts: seq<string>)
    ensures |parts| > 0
  {
    if k == "" then [""]
    else
      var rest := Split(k[1..]);
      if k[0] == '/' then [""] + rest else [[k[0]] + rest[0]] + rest[1..]
  }

  /** A key is marked healthy only when it splits into exactly two parts. */
  predicate Markable(k: Key) {
    |Split(k.text)| == 2
  }

  function Unmark(t: Tables, k: Key): Tables {
    if Markable(k) then t.(unhealthy := t.unhealthy - {k}) else t
  }

  function Sync(configs: map<Key, GovernanceConfig>, pods: seq<Listed>): map<Key, GovernanceConfig> {
    if pods == [] then configs
    else
      var n := |pods| - 1;
      var before := Sync(configs, pods[..n]);
      if pods[n].config.Some? then before[PodKey(pods[n].podNamespace, pods[n].podName) := pods[n].config.value]
      else before
  }

  /** The listed pod has key `k` and a config. */
  predicate Carries(pod: Listed, k: Key) {
    pod.podNamespace + "/" + pod.podName == k.text && pod.config.Some?
  }

  lemma SyncStep(configs: map<Key, GovernanceConfig>, pods: seq<Listed>, k: Key)
    requires pods != []
    ensures var n := |pods| - 1;
            && (Carries(pods[n], k) ==> k in Sync(configs, pods) && Sync(configs, pods)[k] == pods[n].config.value)
            && (!Carries(pods[n], k) ==> SameAt(Sync(configs, pods), Sync(configs, pods[..n]), k))
  {
    var last := pods[|pods| - 1];
    assert last.podNamespace + "/" + last.podName == k.text <==> PodKey(last.podNamespace, last.podName) == k;
  }

  /** Both maps say the same about `k`. */
  ghost predicate SameAt(a: map<Key, GovernanceConfig>, b: map<Key, GovernanceConfig>, k: Key) {
    (k in a <==> k in b) && (k in a ==> a[k] == b[k])
  }

  /** A sync whose list has no pod with key `k` and a config changes nothing for `k`. */
  lemma {:induction false} SyncPasses(configs: map<Key, GovernanceConfig>, pods: seq<Listed>, k: Key)
    requires forall i :: 0 <= i < |pods| ==> !Carries(pods[i], k)
    ensures (k in Sync(configs, pods) <==> k in configs) && (k in configs ==> Sync(configs, pods)[k] == configs[k])
  {
    if pods != [] {
      SyncStep(configs, pods, k);
      SyncPasses(configs, pods[..|pods| - 1], k);
    }
  }

  /** Otherwise the cache holds the config of the last such pod in the list, wherever it stands and whatever was cached
      before. */
  lemma {:induction false} SyncTakesLast(configs: map<Key, GovernanceConfig>, pods: seq<Listed>, k: Key, i: nat)
    requires i < |pods| && Carries(pods[i], k) && forall j :: i < j < |pods| ==> !Carries(pods[j], k)
    ensures k in Sync(configs, pods) && Sync(configs, pods)[k] == pods[i].config.value
  {
    var n := |pods| - 1;
    SyncStep(configs, pods, k);
    if i < n {
      SyncTakesLast(configs, pods[..n], k, i);
    }
  }

  function Synced(t: Tables, pods: seq<Listed>): Tables {
    t.(configs := Sync(t.configs, pods))
  }

  lemma {:induction false} SplitNoSlash(s: string)
    requires '/' !in s
    ensures Split(s) == [s]
  {
    if s != "" {
      SplitNoSlash(s[1..]);
      assert [s[0]] + s[1..] == s;
    }
  }

  lemma {:induction false} SplitKey(podNamespace: string, podName: string)
    ensures |Split(PodKey(podNamespace, podName).text)| == |Split(podNamespace)| + |Split(podName)|
    ensures '/' !in podNamespace ==> Split(PodKey(podNamespace, podName).text) == [podNamespace] + Split(podName)
  {
    var k := PodKey(podNamespace, podName).text;
    if podNamespace == "" {
      assert k[1..] == podName;
    } else {
      SplitKey(podNamespace[1..], podName);
      assert k[1..] == PodKey(podNamespace[1..], podName).text;
      assert [podNamespace[0]] + podNamespace[1..] == podNamespace;
    }
  }

  lemma {:induction false} SplitOne(s: string)
    ensures |Split(s)| == 1 <==> '/' !in s
  {
    if s != "" {
      SplitOne(s[1..]);
      assert s == [s[0]] + s[1..];
    }
  }

  /** The recovery mark reaches the pod the key was built from exactly when neither part holds a slash;
      any other key is skipped, so its pod is never marked healthy. */
  lemma MarkReachesItsPod(podNamespace: string, podName: string)
    ensures Markable(PodKey(podNamespace, podName)) <==> '/' !in podNamespace && '/' !in podName
    ensures Markable(PodKey(podNamespace, podName)) ==>
              Split(PodKey(podNamespace, podName).text) == [podNamespace, podName]
  {
    SplitKey(podNamespace, podName);
    SplitOne(podNamespace);
    SplitOne(podName);
    if '/' !in podName {
      SplitNoSlash(podName);
    }
  }
}
