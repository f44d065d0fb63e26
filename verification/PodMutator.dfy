/** The admission webhook that injects the spy into a pod (operator/internal/webhook/v1/pod_mutator.go). */
module PodMutator {
  import opened ApiTypes
  import opened Policies

  const INJECT: string := "compute-sentry.aiguard.io/inject"
  const INJECTED: string := "compute-sentry.aiguard.io/injected"
  const GOVERNANCE: string := "compute-sentry.aiguard.io/governance-config"
  const LD_PRELOAD: string := "LD_PRELOAD"
  const LIBRARY: string := "/opt/compute-sentry/lib/libcompute-sentry-spy.so"
  const PREFIX: string := "/opt/compute-sentry/lib/libcompute-sentry-spy.so:"

  /** `fieldPath` is set when the value comes from the downward API. */
  datatype EnvVar = EnvVar(name: string, value: string, fieldPath: Option<string>)

  datatype Mount = Mount(name: string, path: string, readOnly: bool)

  datatype Container = Container(name: string, image: string, command: seq<string>, limits: map<string, string>,
                                 env: seq<EnvVar>, mounts: seq<Mount>)

  datatype Volume = Volume(name: string, hostPath: Option<string>)

  /** The governance annotation is kept as the config it encodes. */
  datatype Annotation = Raw(text: string) | Governance(config: GovernanceConfig)

  datatype PodValue = PodValue(labels: Labels, annotations: map<string, Annotation>, containers: seq<Container>,
                               initContainers: seq<Container>, volumes: seq<Volume>)

  const IDENTITY: seq<EnvVar> := [
    EnvVar("COMPUTE_SENTRY_UDS_PATH", "/var/run/compute-sentry/spy.sock", None),
    EnvVar("COMPUTE_SENTRY_POD_NAME", "", Some("metadata.name")),
    EnvVar("COMPUTE_SENTRY_POD_NAMESPACE", "", Some("metadata.namespace"))]

  const MOUNTS: seq<Mount> := [
    Mount("compute-sentry-uds", "/var/run/compute-sentry", false),
    Mount("compute-sentry-lib", "/opt/compute-sentry/lib", true)]

  const VOLUMES: seq<Volume> := [
    Volume("compute-sentry-uds", Some("/var/run/compute-sentry")),
    Volume("compute-sentry-lib", Some("/opt/compute-sentry/lib")),
    Volume("compute-sentry-bin", Some("/opt/compute-sentry/bin"))]

  /** fmt.Sprintf("%d", n) */
  function Decimal(n: int): string
    decreases n < 0, if n < 0 then -n else n
  {
    if n < 0 then "-" + Decimal(-n)
    else if n < 10 then ["0123456789"[n]]
    else Decimal(n / 10) + ["0123456789"[n % 10]]
  }

  function PrecheckEnv(policy: Option<Policy>): seq<EnvVar> {
    if policy.None? then []
    else
      var p2p, hbm := policy.value.thresholds.minP2PBandwidthGbps, policy.value.thresholds.minHbmBandwidthGbps;
      (if p2p != 0 then [EnvVar("PRECHECK_MIN_P2P_GBPS", Decimal(p2p), None)] else [])
      + (if hbm != 0 then [EnvVar("PRECHECK_MIN_HBM_GBPS", Decimal(hbm), None)] else [])
  }

  function Precheck(policy: Option<Policy>): Container {
    Container("compute-sentry-precheck", "m.daocloud.io/docker.io/nvidia/cuda:12.0.0-base-ubuntu22.04",
              ["sh", "-c", "/opt/compute-sentry/bin/precheck.sh"], map["nvidia.com/gpu" := "1"], PrecheckEnv(policy),
              [Mount("compute-sentry-bin", "/opt/compute-sentry/bin", true)])
  }

  /** The annotation decides when present; otherwise the matched policy; otherwise no. */
  predicate ShouldInject(pod: PodValue, policies: seq<Policy>) {
    if INJECT in pod.annotations then pod.annotations[INJECT] == Raw("true")
    else
      var policy := FirstMatch(policies, pod.labels);
      policy.Some? && policy.value.spyEnabled
  }

  ghost predicate Selected(p: Policy, labels: Labels) {
    ValidSelector(p.selector) && Selects(p.selector, labels)
  }

  lemma DecisionMeans(pod: PodValue, policies: seq<Policy>)
    ensures "compute-sentry.aiguard.io/inject" in pod.annotations ==>
              (ShouldInject(pod, policies) <==> pod.annotations["compute-sentry.aiguard.io/inject"] == Raw("true"))
    ensures "compute-sentry.aiguard.io/inject" !in pod.annotations ==>
              (ShouldInject(pod, policies) <==>
               exists i :: 0 <= i < |policies| && policies[i].spyEnabled && Selected(policies[i], pod.labels)
                           && forall j :: 0 <= j < i ==> !Selected(policies[j], pod.labels))
  {
    FirstMatchIsFirst(policies, pod.labels);
    if i :| 0 <= i < |policies| && policies[i].spyEnabled && Selected(policies[i], pod.labels)
            && forall j :: 0 <= j < i ==> !Selected(policies[j], pod.labels)
    {
      assert forall j :: 0 <= j < i ==> !Chosen(policies[j], pod.labels) by {
        forall j | 0 <= j < i ensures !Chosen(policies[j], pod.labels) {
          assert !Selected(policies[j], pod.labels);
        }
      }
      FirstMatchFound(policies, pod.labels, i);
    }
    if policy :| FirstMatch(policies, pod.labels) == Some(policy) && policy.spyEnabled {
      var i :| 0 <= i < |policies| && policy == policies[i] && Chosen(policies[i], pod.labels)
               && forall j :: 0 <= j < i ==> !Chosen(policies[j], pod.labels);
      assert Selected(policies[i], pod.labels);
    }
  }

  /** The position of the first LD_PRELOAD, or the length of the list. */
  function FirstPreload(env: seq<EnvVar>): (j: nat)
    ensures j <= |env|
    ensures forall i :: 0 <= i < j ==> env[i].name != LD_PRELOAD
    ensures j < |env| ==> env[j].name == LD_PRELOAD
  {
    if env == [] then 0
    else if env[0].name == LD_PRELOAD then 0
    else 1 + FirstPreload(env[1..])
  }

  function PreloadWith(env: seq<EnvVar>, prefix: string, library: string): seq<EnvVar> {
    var j := FirstPreload(env);
    if j < |env| then env[j := env[j].(value := prefix + env[j].value)]
    else env + [EnvVar(LD_PRELOAD, library, None)]
  }

  function Preload(env: seq<EnvVar>): seq<EnvVar> {
    PreloadWith(env, PREFIX, LIBRARY)
  }

  function InjectContainer(c: Container): Container {
    c.(env := Preload(c.env) + IDENTITY, mounts := c.mounts + MOUNTS)
  }

  function InjectAll(cs: seq<Container>): seq<Container> {
    seq(|cs|, i requires 0 <= i < |cs| => InjectContainer(cs[i]))
  }

  function Annotate(annotations: map<string, Annotation>, policy: Option<Policy>): map<string, Annotation> {
    var marked := annotations[INJECTED := Raw("true")];
    if policy.Some?
    then marked[GOVERNANCE := Governance(GovernanceConfig(policy.value.thresholds, policy.value.evalConfig))]
    else marked
  }

  /** The pod as admitted. */
  function Admit(pod: PodValue, policies: seq<Policy>): PodValue {
    if !ShouldInject(pod, policies) then pod
    else
      var policy := FirstMatch(policies, pod.labels);
      pod.(annotations := Annotate(pod.annotations, policy),
           containers := InjectAll(pod.containers),
           initContainers := pod.initContainers + [Precheck(policy)],
           volumes := pod.volumes + VOLUMES)
  }

  class PodObject {
    var labels: Labels
    var annotations: map<string, Annotation>
    var containers: seq<Container>
    var initContainers: seq<Container>
    var volumes: seq<Volume>

    ghost function Value(): PodValue
      reads this
    {
      PodValue(labels, annotations, containers, initContainers, volumes)
    }

    /** The webhook's own search for a policy. */
    method MatchPolicy(policies: seq<Policy>) returns (matched: Option<Policy>)
      ensures matched == FirstMatch(policies, labels)
    {
      matched := None;
      for i := 0 to |policies|
        invariant matched == None
        invariant forall j :: 0 <= j < i ==> !Chosen(policies[j], labels)
      {
        if !ValidSelector(policies[i].selector) {
          continue;
        }
        if Selects(policies[i].selector, labels) {
          matched := Some(policies[i]);
          FirstMatchFound(policies, labels, i);
          return;
        }
      }
      FirstMatchIsFirst(policies, labels);
    }

    /** Rewrites container `i` in place. */
    method InjectOne(i: nat)
      requires i < |containers|
      modifies this`containers
      ensures containers == old(containers)[i := InjectContainer(old(containers)[i])]
    {
      var env := containers[i].env;
      var injected := false;
      var j := 0;
      while j < |env|
        invariant j <= |env| && !injected && env == containers[i].env && containers == old(containers)
        invariant j <= FirstPreload(env)
      {
        if env[j].name == LD_PRELOAD {
          env := env[j := env[j].(value := PREFIX + env[j].value)];
          injected := true;
          break;
        }
        j := j + 1;
      }
      if !injected {
        env := env + [EnvVar(LD_PRELOAD, LIBRARY, None)];
      }
      assert env == Preload(containers[i].env);
      env := env + [IDENTITY[0]];
      env := env + [IDENTITY[1]];
      env := env + [IDENTITY[2]];
      var mounts := containers[i].mounts + [MOUNTS[0]];
      mounts := mounts + [MOUNTS[1]];
      assert env == Preload(containers[i].env) + IDENTITY && mounts == containers[i].mounts + MOUNTS;
      containers := containers[i := containers[i].(env := env, mounts := mounts)];
    }

    method InjectContainers()
      modifies this`containers
      ensures containers == InjectAll(old(containers))
    {
      for i := 0 to |containers|
        invariant |containers| == |old(containers)|
        invariant forall j :: 0 <= j < |containers| ==>
                                containers[j] ==
                                  if j < i then InjectContainer(old(containers)[j]) else old(containers)[j]
      {
        InjectOne(i);
      }
    }

    method AddVolumes(matched: Option<Policy>)
      modifies this`volumes, this`initContainers
      ensures volumes == old(volumes) + VOLUMES
      ensures initContainers == old(initContainers) + [Precheck(matched)]
    {
      volumes := volumes + [VOLUMES[0]];
      volumes := volumes + [VOLUMES[1]];
      initContainers := initContainers + [Precheck(matched)];
      volumes := volumes + [VOLUMES[2]];
      assert volumes == old(volumes) + VOLUMES;
    }

    /** An explicit annotation decides whatever the policies say; without one the first policy whose selector parses and
        matches does; without that the answer is no. */
    method DecideInjection(policies: seq<Policy>, matched: Option<Policy>) returns (injected: bool)
      requires matched == FirstMatch(policies, labels)
      ensures "compute-sentry.aiguard.io/inject" in annotations ==>
                (injected <==> annotations["compute-sentry.aiguard.io/inject"] == Raw("true"))
      ensures "compute-sentry.aiguard.io/inject" !in annotations ==>
                (injected <==> exists i :: 0 <= i < |policies| && policies[i].spyEnabled
                                           && Selected(policies[i], labels)
                                           && forall j :: 0 <= j < i ==> !Selected(policies[j], labels))
      ensures injected == ShouldInject(Value(), policies)
    {
      DecisionMeans(Value(), policies);
      if INJECT in annotations {
        injected := annotations[INJECT] == Raw("true");
      } else if matched.Some? {
        injected := matched.value.spyEnabled;
      } else {
        injected := false;
      }
    }

    /** A pod that is not to be injected stays as it was; one that is gets rewritten in place. */
    method Handle(policies: seq<Policy>) returns (injected: bool)
      modifies this
      ensures "compute-sentry.aiguard.io/inject" in old(annotations) ==>
                (injected <==> old(annotations)["compute-sentry.aiguard.io/inject"] == Raw("true"))
      ensures "compute-sentry.aiguard.io/inject" !in old(annotations) ==>
                (injected <==> exists i :: 0 <= i < |policies| && policies[i].spyEnabled
                                           && Selected(policies[i], old(labels))
                                           && forall j :: 0 <= j < i ==> !Selected(policies[j], old(labels)))
      ensures !injected ==> Value() == old(Value())
      ensures injected == ShouldInject(old(Value()), policies) && Value() == Admit(old(Value()), policies)
    {
      var matched := MatchPolicy(policies);
      injected := DecideInjection(policies, matched);
      if !injected {
        return;
      }
      InjectContainers();
      AddVolumes(matched);
      annotations := annotations[INJECTED := Raw("true")];
      if matched.Some? {
        var config := GovernanceConfig(matched.value.thresholds, matched.value.evalConfig);
        annotations := annotations[GOVERNANCE := Governance(config)];
      }
    }
  }
}
