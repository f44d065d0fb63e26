/** What repeated admission does: the webhook is registered for creates and updates, and it does not check
    whether a pod was injected before. */
module PodMutatorLaws {
  import opened ApiTypes
  import opened Policies
  import opened PodMutator
  import opened EvaluatorTables

  function Repeat<T>(s: seq<T>, k: nat): seq<T> {
    if k == 0 then [] else Repeat(s, k - 1) + s
  }

  function AdmitTimes(pod: PodValue, policies: seq<Policy>, k: nat): PodValue {
    if k == 0 then pod else Admit(AdmitTimes(pod, policies, k - 1), policies)
  }

  lemma KeysDiffer()
    ensures INJECT != INJECTED && INJECT != GOVERNANCE && INJECTED != GOVERNANCE
  {
    assert |INJECT| != |INJECTED| && |INJECT| != |GOVERNANCE| && |INJECTED| != |GOVERNANCE|;
  }

  /** Mutation changes neither the policy that governs the pod nor the decision to inject. */
  lemma DecisionStable(pod: PodValue, policies: seq<Policy>)
    ensures FirstMatch(policies, Admit(pod, policies).labels) == FirstMatch(policies, pod.labels)
    ensures ShouldInject(Admit(pod, policies), policies) == ShouldInject(pod, policies)
  {
    KeysDiffer();
  }

  /** The list with `n` prefixes on entry `j`. */
  function Prefixed(base: seq<EnvVar>, j: nat, prefix: string, n: nat): seq<EnvVar>
    requires j < |base|
  {
    base[j := base[j].(value := Repeat(prefix, n) + base[j].value)]
  }

  /** The environment after `k` admissions: `k` library prefixes on the first LD_PRELOAD, or, where there was none,
      a new one with the library and `k - 1` prefixes; then the identity variables `k` times. */
  function EnvAfter(env: seq<EnvVar>, prefix: string, library: string, identity: seq<EnvVar>, k: nat): seq<EnvVar> {
    var j := FirstPreload(env);
    if k == 0 then env
    else if j < |env| then Prefixed(env, j, prefix, k) + Repeat(identity, k)
    else Prefixed(env + [EnvVar(LD_PRELOAD, library, None)], j, prefix, k - 1) + Repeat(identity, k)
  }

  lemma FirstPreloadUnique(env: seq<EnvVar>, j: nat)
    requires j < |env| && env[j].name == LD_PRELOAD && forall i :: 0 <= i < j ==> env[i].name != LD_PRELOAD
    ensures FirstPreload(env) == j
  {
    var f := FirstPreload(env);
    assert f <= j;
  }

  lemma {:induction false} RepeatFront<T>(s: seq<T>, k: nat)
    ensures Repeat(s, k + 1) == s + Repeat(s, k)
  {
    if k == 0 {
      assert Repeat(s, 0) + s == s + Repeat(s, 0);
    } else {
      RepeatFront(s, k - 1);
      assert Repeat(s, k + 1) == (s + Repeat(s, k - 1)) + s == s + (Repeat(s, k - 1) + s);
    }
  }

  /** One more admission puts one more prefix on the same entry. */
  lemma PrefixOnce(base: seq<EnvVar>, j: nat, tail: seq<EnvVar>, prefix: string, library: string, n: nat, m: nat)
    requires j < |base| && base[j].name == LD_PRELOAD && m == n + 1
    requires forall i :: 0 <= i < j ==> base[i].name != LD_PRELOAD
    ensures PreloadWith(Prefixed(base, j, prefix, n) + tail, prefix, library) == Prefixed(base, j, prefix, m) + tail
  {
    var head := Prefixed(base, j, prefix, n);
    FirstPreloadUnique(head + tail, j);
    RepeatFront(prefix, n);
    assert prefix + (Repeat(prefix, n) + base[j].value) == Repeat(prefix, m) + base[j].value;
  }

  lemma RepeatOnce<T>(s: seq<T>)
    ensures Repeat(s, 1) == s && Repeat(s, 0) + s == s
  {
    assert Repeat(s, 0) + s == s;
  }

  lemma EnvFirst(env: seq<EnvVar>, prefix: string, library: string, identity: seq<EnvVar>)
    ensures EnvAfter(env, prefix, library, identity, 1) == PreloadWith(env, prefix, library) + identity
  {
    RepeatOnce(identity);
    RepeatOnce(prefix);
    assert Repeat(prefix, 0) + library == library;
  }

  lemma TailStep<T>(head: seq<T>, tail: seq<T>, k: nat)
    ensures head + Repeat(tail, k) + tail == head + Repeat(tail, k + 1)
  {
    assert head + Repeat(tail, k) + tail == head + (Repeat(tail, k) + tail);
  }

  /** The step where entry `j` of `base` already is the first LD_PRELOAD. */
  lemma PrefixedStep(base: seq<EnvVar>, j: nat, prefix: string, library: string, identity: seq<EnvVar>, n: nat, k: nat)
    requires j < |base| && base[j].name == LD_PRELOAD
    requires forall i :: 0 <= i < j ==> base[i].name != LD_PRELOAD
    ensures Prefixed(base, j, prefix, n + 1) + Repeat(identity, k + 1) ==
              PreloadWith(Prefixed(base, j, prefix, n) + Repeat(identity, k), prefix, library) + identity
  {
    PrefixOnce(base, j, Repeat(identity, k), prefix, library, n, n + 1);
    TailStep(Prefixed(base, j, prefix, n + 1), identity, k);
  }

  lemma EnvStep(env: seq<EnvVar>, prefix: string, library: string, identity: seq<EnvVar>, k: nat)
    ensures EnvAfter(env, prefix, library, identity, k + 1) ==
              PreloadWith(EnvAfter(env, prefix, library, identity, k), prefix, library) + identity
  {
    var j := FirstPreload(env);
    if k == 0 {
      EnvFirst(env, prefix, library, identity);
    } else if j < |env| {
      PrefixedStep(env, j, prefix, library, identity, k, k);
    } else {
      PrefixedStep(env + [EnvVar(LD_PRELOAD, library, None)], j, prefix, library, identity, k - 1, k);
    }
  }

  function ContainerAfter(c: Container, k: nat): Container {
    c.(env := EnvAfter(c.env, PREFIX, LIBRARY, IDENTITY, k), mounts := c.mounts + Repeat(MOUNTS, k))
  }

  lemma ContainerStep(c: Container, k: nat)
    ensures ContainerAfter(c, k + 1) == InjectContainer(ContainerAfter(c, k))
  {
    EnvStep(c.env, PREFIX, LIBRARY, IDENTITY, k);
    TailStep(c.mounts, MOUNTS, k);
  }

  lemma AnnotateTwice(annotations: map<string, Annotation>, policy: Option<Policy>)
    ensures Annotate(Annotate(annotations, policy), policy) == Annotate(annotations, policy)
  {
    KeysDiffer();
  }

  function ContainersAfter(cs: seq<Container>, k: nat): seq<Container> {
    seq(|cs|, i requires 0 <= i < |cs| => ContainerAfter(cs[i], k))
  }

  lemma ContainersStep(cs: seq<Container>, k: nat)
    ensures ContainersAfter(cs, k + 1) == InjectAll(ContainersAfter(cs, k))
  {
    forall i | 0 <= i < |cs| ensures ContainersAfter(cs, k + 1)[i] == InjectContainer(ContainersAfter(cs, k)[i]) {
      ContainerStep(cs[i], k);
    }
  }

  /** `k` prefixes, `k` sets of variables and mounts, `k` precheck containers and `3k` volumes on top of the
      original entries, which stay in place and in order. */
  function PodAfter(pod: PodValue, policy: Option<Policy>, k: nat): PodValue {
    PodValue(pod.labels,
             if k == 0 then pod.annotations else Annotate(pod.annotations, policy),
             ContainersAfter(pod.containers, k),
             pod.initContainers + Repeat([Precheck(policy)], k),
             pod.volumes + Repeat(VOLUMES, k))
  }

  lemma PodStep(pod: PodValue, policies: seq<Policy>, before: PodValue, k: nat, m: nat)
    requires ShouldInject(pod, policies) && m == k + 1 && before == PodAfter(pod, FirstMatch(policies, pod.labels), k)
    ensures Admit(before, policies) == PodAfter(pod, FirstMatch(policies, pod.labels), m)
  {
    var policy := FirstMatch(policies, pod.labels);
    KeysDiffer();
    ContainersStep(pod.containers, k);
    AnnotateTwice(pod.annotations, policy);
    TailStep(pod.initContainers, [Precheck(policy)], k);
    TailStep(pod.volumes, VOLUMES, k);
  }

  lemma NoAdmission(pod: PodValue, policy: Option<Policy>)
    ensures PodAfter(pod, policy, 0) == pod
  {
    forall i | 0 <= i < |pod.containers| ensures ContainerAfter(pod.containers[i], 0) == pod.containers[i] {
      assert pod.containers[i].mounts + [] == pod.containers[i].mounts;
    }
    assert ContainersAfter(pod.containers, 0) == pod.containers;
    assert pod.initContainers + [] == pod.initContainers && pod.volumes + [] == pod.volumes;
  }

  lemma AdmitOnceMore(pod: PodValue, policies: seq<Policy>, k: nat, m: nat)
    requires m == k + 1
    ensures AdmitTimes(pod, policies, m) == Admit(AdmitTimes(pod, policies, k), policies)
  {}

  /** The repeated admission law. */
  lemma {:induction false} RepeatedAdmission(pod: PodValue, policies: seq<Policy>, k: nat)
    requires ShouldInject(pod, policies)
    ensures AdmitTimes(pod, policies, k) == PodAfter(pod, FirstMatch(policies, pod.labels), k)
  {
    if k == 0 {
      NoAdmission(pod, FirstMatch(policies, pod.labels));
    } else {
      var j := k - 1;
      RepeatedAdmission(pod, policies, j);
      AdmitOnceMore(pod, policies, j, k);
      PodStep(pod, policies, AdmitTimes(pod, policies, j), j, k);
    }
  }

  /** Admission is idempotent exactly for the pods it does not touch. */
  lemma IdempotentIffNotInjected(pod: PodValue, policies: seq<Policy>)
    ensures Admit(Admit(pod, policies), policies) == Admit(pod, policies) <==> !ShouldInject(pod, policies)
  {
    DecisionStable(pod, policies);
    if ShouldInject(pod, policies) {
      var once := Admit(pod, policies);
      assert |Admit(once, policies).volumes| == |once.volumes| + 3;
    }
  }

  ghost predicate NamesVolume(m: Mount, volumes: seq<Volume>) {
    exists i :: 0 <= i < |volumes| && volumes[i].name == m.name
  }

  ghost predicate Mounted(cs: seq<Container>, volumes: seq<Volume>) {
    forall i, j :: 0 <= i < |cs| && 0 <= j < |cs[i].mounts| ==> NamesVolume(cs[i].mounts[j], volumes)
  }

  ghost predicate MountsResolve(pod: PodValue) {
    Mounted(pod.containers, pod.volumes) && Mounted(pod.initContainers, pod.volumes)
  }

  lemma NamesMore(m: Mount, volumes: seq<Volume>, more: seq<Volume>)
    requires NamesVolume(m, volumes) || NamesVolume(m, more)
    ensures NamesVolume(m, volumes + more)
  {
    if NamesVolume(m, volumes) {
      var i :| 0 <= i < |volumes| && volumes[i].name == m.name;
      assert (volumes + more)[i].name == m.name;
    } else {
      var i :| 0 <= i < |more| && more[i].name == m.name;
      assert (volumes + more)[|volumes| + i].name == m.name;
    }
  }

  lemma OurMountsResolve(policy: Option<Policy>)
    ensures NamesVolume(MOUNTS[0], VOLUMES) && NamesVolume(MOUNTS[1], VOLUMES)
    ensures NamesVolume(Precheck(policy).mounts[0], VOLUMES)
  {
    assert VOLUMES[0].name == MOUNTS[0].name && VOLUMES[1].name == MOUNTS[1].name;
    assert VOLUMES[2].name == Precheck(policy).mounts[0].name;
  }

  /** Every mount still names a volume of the pod. */
  lemma AdmissionKeepsMounts(pod: PodValue, policies: seq<Policy>)
    requires MountsResolve(pod)
    ensures MountsResolve(Admit(pod, policies))
  {
    if ShouldInject(pod, policies) {
      var policy := FirstMatch(policies, pod.labels);
      var r := Admit(pod, policies);
      OurMountsResolve(policy);
      forall i, j | 0 <= i < |r.containers| && 0 <= j < |r.containers[i].mounts|
        ensures NamesVolume(r.containers[i].mounts[j], r.volumes)
      {
        var mounts := pod.containers[i].mounts;
        assert r.containers[i].mounts == mounts + MOUNTS;
        NamesMore(r.containers[i].mounts[j], pod.volumes, VOLUMES);
      }
      forall i, j | 0 <= i < |r.initContainers| && 0 <= j < |r.initContainers[i].mounts|
        ensures NamesVolume(r.initContainers[i].mounts[j], r.volumes)
      {
        NamesMore(r.initContainers[i].mounts[j], pod.volumes, VOLUMES);
      }
    }
  }

  // ---- what one injection writes, in full ----

  /** The first LD_PRELOAD is prefixed, or one is added; three variables that tell the spy who it is and two mounts
      follow; nothing else of the container changes. */
  lemma InjectedContainer(c: Container)
    ensures var r, j := InjectContainer(c), FirstPreload(c.env);
            var preloaded :=
              if j < |c.env|
              then c.env[j := c.env[j].(value := "/opt/compute-sentry/lib/libcompute-sentry-spy.so:" + c.env[j].value)]
              else c.env + [EnvVar("LD_PRELOAD", "/opt/compute-sentry/lib/libcompute-sentry-spy.so", None)];
            && r == c.(env := r.env, mounts := r.mounts)
            && r.env == preloaded + [EnvVar("COMPUTE_SENTRY_UDS_PATH", "/var/run/compute-sentry/spy.sock", None),
                                     EnvVar("COMPUTE_SENTRY_POD_NAME", "", Some("metadata.name")),
                                     EnvVar("COMPUTE_SENTRY_POD_NAMESPACE", "", Some("metadata.namespace"))]
            && r.mounts == c.mounts + [Mount("compute-sentry-uds", "/var/run/compute-sentry", false),
                                       Mount("compute-sentry-lib", "/opt/compute-sentry/lib", true)]
  {}

  /** An injected pod keeps its labels and its other annotations, gains three volumes and one init container, and each
      container is injected. */
  lemma InjectedPod(pod: PodValue, policies: seq<Policy>)
    requires ShouldInject(pod, policies)
    ensures var r := Admit(pod, policies);
            && r.labels == pod.labels
            && |r.containers| == |pod.containers|
            && (forall i :: 0 <= i < |pod.containers| ==> r.containers[i] == InjectContainer(pod.containers[i]))
            && r.volumes == pod.volumes + [Volume("compute-sentry-uds", Some("/var/run/compute-sentry")),
                                           Volume("compute-sentry-lib", Some("/opt/compute-sentry/lib")),
                                           Volume("compute-sentry-bin", Some("/opt/compute-sentry/bin"))]
            && |r.initContainers| == |pod.initContainers| + 1 && pod.initContainers <= r.initContainers
  {}

  lemma InjectedAnnotations(pod: PodValue, policies: seq<Policy>, key: string)
    requires ShouldInject(pod, policies)
    ensures var r, policy := Admit(pod, policies).annotations, FirstMatch(policies, pod.labels);
            && "compute-sentry.aiguard.io/injected" in r && r["compute-sentry.aiguard.io/injected"] == Raw("true")
            && (key != "compute-sentry.aiguard.io/injected"
                && (key != "compute-sentry.aiguard.io/governance-config" || policy.None?) ==>
                  (key in r <==> key in pod.annotations) && (key in r ==> r[key] == pod.annotations[key]))
  {
    KeysDiffer();
  }

  /** The precheck container, with one variable for each bandwidth threshold that is not 0. */
  lemma InjectedPrecheck(pod: PodValue, policies: seq<Policy>)
    requires ShouldInject(pod, policies)
    ensures var r, policy := Admit(pod, policies), FirstMatch(policies, pod.labels);
            var p2p := if policy.Some? then policy.value.thresholds.minP2PBandwidthGbps else 0;
            var hbm := if policy.Some? then policy.value.thresholds.minHbmBandwidthGbps else 0;
            r.initContainers[|pod.initContainers|] ==
              Container("compute-sentry-precheck", "m.daocloud.io/docker.io/nvidia/cuda:12.0.0-base-ubuntu22.04",
                        ["sh", "-c", "/opt/compute-sentry/bin/precheck.sh"], map["nvidia.com/gpu" := "1"],
                        (if p2p == 0 then [] else [EnvVar("PRECHECK_MIN_P2P_GBPS", Decimal(p2p), None)])
                        + (if hbm == 0 then [] else [EnvVar("PRECHECK_MIN_HBM_GBPS", Decimal(hbm), None)]),
                        [Mount("compute-sentry-bin", "/opt/compute-sentry/bin", true)])
  {}

  /** From policy to agent: the config the webhook writes makes the agent judge the pod by the matched policy's latency
      threshold, window and limit, whatever the agent's defaults. */
  lemma PolicyReachesAgent(pod: PodValue, policies: seq<Policy>, policy: Policy, d: Settings)
    requires ShouldInject(pod, policies) && FirstMatch(policies, pod.labels) == Some(policy)
    ensures var r := Admit(pod, policies).annotations;
            && "compute-sentry.aiguard.io/governance-config" in r
            && r["compute-sentry.aiguard.io/governance-config"] ==
                 Governance(GovernanceConfig(policy.thresholds, policy.evalConfig))
            && Resolve(d, Some(r["compute-sentry.aiguard.io/governance-config"].config)) ==
                 Settings(policy.thresholds.maxNcclLatencyUs, policy.evalConfig.windowSize * 1_000_000_000,
                          policy.evalConfig.errorCountLimit)
  {
    KeysDiffer();
  }

  // ---- numbers in variables ----

  /** The number a string of digits stands for. */
  ghost function NatOf(digits: string): int {
    if digits == "" then 0
    else
      var n := |digits| - 1;
      10 * NatOf(digits[..n]) + (digits[n] as int - '0' as int)
  }

  ghost function IntOf(s: string): int {
    if s != "" && s[0] == '-' then -NatOf(s[1..]) else NatOf(s)
  }

  lemma DigitValue(n: int)
    requires 0 <= n < 10
    ensures "0123456789"[n] as int == '0' as int + n
  {}

  lemma {:induction false} DecimalOfNat(n: nat)
    ensures Decimal(n) != "" && NatOf(Decimal(n)) == n
    ensures forall i :: 0 <= i < |Decimal(n)| ==> '0' <= Decimal(n)[i] <= '9'
    ensures Decimal(n)[0] == '0' ==> n == 0
  {
    if n < 10 {
      DigitValue(n);
      assert Decimal(n)[..0] == "";
    } else {
      DecimalOfNat(n / 10);
      DigitValue(n % 10);
      var front := Decimal(n / 10);
      assert Decimal(n)[..|front|] == front;
    }
  }

  /** A threshold written into a variable is read back as the same number, and has no leading zeros. */
  lemma DecimalReadsBack(n: int)
    ensures IntOf(Decimal(n)) == n
    ensures n > 0 ==> Decimal(n)[0] != '0'
  {
    if n < 0 {
      DecimalOfNat(-n);
      assert Decimal(n)[1..] == Decimal(-n);
    } else {
      DecimalOfNat(n);
    }
  }
}
