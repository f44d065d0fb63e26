/** The operator's health controller: what one reconcile does to an abstract cluster, as functions
    (operator/internal/controller/health_controller.go).  Reads within one reconcile are consistent, API
    calls other than reading a missing object succeed, and ratios are exact rationals. */
module HealthController {
  import opened ApiTypes
  import opened Policies
  import opened NodeTaints

  const HEALTH_ANNOTATION: string := "compute-sentry.aiguard.io/health"

  datatype Request = Request(podNamespace: string, podName: string)

  datatype Pod = Pod(id: Request, labels: Labels, annotations: map<string, string>, nodeName: string)

  datatype Cluster = Cluster(pods: seq<Pod>, policies: seq<Policy>, nodes: map<string, WholeNode>)

  datatype Outcome = Ignored | Failed | Done | Throttled | Evicted(pod: Pod)

  predicate IsUnhealthy(p: Pod) {
    HEALTH_ANNOTATION in p.annotations && p.annotations[HEALTH_ANNOTATION] == "unhealthy"
  }

  // ---- listing and counting ----

  datatype Filter = ByNode(node: string) | BySelector(selector: LabelSelector) | Everything

  predicate Admits(f: Filter, p: Pod) {
    match f
    case ByNode(node) => p.nodeName == node
    case BySelector(s) => Selects(s, p.labels)
    case Everything => true
  }

  function List(pods: seq<Pod>, f: Filter): seq<Pod> {
    if pods == [] then []
    else
      var n := |pods| - 1;
      List(pods[..n], f) + (if Admits(f, pods[n]) then [pods[n]] else [])
  }

  function Unhealthy(pods: seq<Pod>): nat {
    if pods == [] then 0
    else
      var n := |pods| - 1;
      Unhealthy(pods[..n]) + (if IsUnhealthy(pods[n]) then 1 else 0)
  }

  /** A selector that does not parse is passed on as no selector at all. */
  function ThrottleFilter(p: Policy): Filter {
    if ValidSelector(p.selector) then BySelector(p.selector) else Everything
  }

  /** More than 5% of the listed pods, and at least two, are unhealthy. */
  predicate TooMany(listed: seq<Pod>) {
    listed != [] && 20 * Unhealthy(listed) > |listed| && Unhealthy(listed) > 1
  }

  // ---- the taint decision ----

  /** Is the node's health bad enough, by count or percentage, or by any unhealthy pod when no threshold is set? */
  predicate Wanted(threshold: Option<NodeTaintThreshold>, unhealthy: nat, total: nat) {
    match threshold
    case None => unhealthy > 0
    case Some(th) =>
      || (th.minCount.Some? && unhealthy >= th.minCount.value)
      || (th.minPercentage.Some? && total > 0 && 100 * unhealthy >= th.minPercentage.value * total)
  }

  datatype Decision = AddTaint | RemoveTaint | Keep

  function Decide(threshold: Option<NodeTaintThreshold>, tainted: bool, unhealthy: nat, total: nat): Decision {
    var wanted := Wanted(threshold, unhealthy, total);
    if wanted && !tainted then AddTaint
    else if !wanted && tainted then RemoveTaint
    else Keep
  }

  // ---- one reconcile ----

  function Find(pods: seq<Pod>, id: Request): Option<Pod> {
    if pods == [] then None
    else if pods[0].id == id then Some(pods[0])
    else Find(pods[1..], id)
  }

  function Remove(pods: seq<Pod>, id: Request): seq<Pod> {
    if pods == [] then []
    else if pods[0].id == id then pods[1..]
    else [pods[0]] + Remove(pods[1..], id)
  }

  function SetTaints(c: Cluster, node: string, ts: seq<Taint>): Cluster
    requires node in c.nodes
  {
    c.(nodes := c.nodes[node := WithTaints(c.nodes[node], ts)])
  }

  function TaintNode(c: Cluster, node: string): Cluster
    requires node in c.nodes
  {
    SetTaints(c, node, TaintResult(c.nodes[node].taints, c.nodes[node].taints))
  }

  function UntaintNode(c: Cluster, node: string): Cluster
    requires node in c.nodes
  {
    SetTaints(c, node, UntaintResult(c.nodes[node].taints, c.nodes[node].taints))
  }

  function NodeAction(c: Cluster, node: string, threshold: Option<NodeTaintThreshold>): Cluster
    requires node in c.nodes
  {
    var listed := List(c.pods, ByNode(node));
    match Decide(threshold, HasOurs(c.nodes[node].taints), Unhealthy(listed), |listed|)
    case AddTaint => TaintNode(c, node)
    case RemoveTaint => UntaintNode(c, node)
    case Keep => c
  }

  function PodAction(c: Cluster, pod: Pod, policy: Policy): (Cluster, Outcome) {
    if !IsUnhealthy(pod) || !policy.actions.enableEvict then (c, Done)
    else if TooMany(List(c.pods, ThrottleFilter(policy))) then (c, Throttled)
    else (c.(pods := Remove(c.pods, pod.id)), Evicted(pod))
  }

  function Reconcile(c: Cluster, id: Request): (Cluster, Outcome) {
    var found := Find(c.pods, id);
    if found.None? then (c, Ignored)
    else
      var pod := found.value;
      var policy := FirstMatch(c.policies, pod.labels);
      if pod.nodeName == "" then (c, Ignored)
      else if policy.None? || !policy.value.actions.enableTaint then
        var ours := pod.nodeName in c.nodes && HasOurs(c.nodes[pod.nodeName].taints);
        (if ours then UntaintNode(c, pod.nodeName) else c, Done)
      else if pod.nodeName !in c.nodes then (c, Failed)
      else PodAction(NodeAction(c, pod.nodeName, policy.value.actions.threshold), pod, policy.value)
  }

  function Step(c: Cluster, id: Request): Cluster {
    Reconcile(c, id).0
  }

  /** The cluster after reconciling `ids` in order, with no change from outside. */
  function Run(c: Cluster, ids: seq<Request>): Cluster {
    if ids == [] then c
    else Step(Run(c, ids[..|ids| - 1]), ids[|ids| - 1])
  }

  /** The pods that run evicts, in order. */
  function Evictions(c: Cluster, ids: seq<Request>): seq<Pod> {
    if ids == [] then []
    else
      var n := |ids| - 1;
      var outcome := Reconcile(Run(c, ids[..n]), ids[n]).1;
      Evictions(c, ids[..n]) + (if outcome.Evicted? then [outcome.pod] else [])
  }
}
