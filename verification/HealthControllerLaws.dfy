/** What any sequence of reconciles does to taints and pods. */
module HealthControllerLaws {
  import opened ApiTypes
  import opened Policies
  import opened NodeTaints
  import opened HealthController

  // ---- counting ----

  lemma {:induction false} ListConcat(a: seq<Pod>, b: seq<Pod>, f: Filter)
    ensures List(a + b, f) == List(a, f) + List(b, f)
  {
    if b == [] {
      assert a + b == a;
    } else {
      var n := |b| - 1;
      ListConcat(a, b[..n], f);
      assert (a + b)[..|a| + n] == a + b[..n] && (a + b)[|a| + n] == b[n];
      var last := if Admits(f, b[n]) then [b[n]] else [];
      assert List(a + b, f) == (List(a, f) + List(b[..n], f)) + last;
    }
  }

  lemma {:induction false} UnhealthyConcat(a: seq<Pod>, b: seq<Pod>)
    ensures Unhealthy(a + b) == Unhealthy(a) + Unhealthy(b)
  {
    if b == [] {
      assert a + b == a;
    } else {
      var n := |b| - 1;
      UnhealthyConcat(a, b[..n]);
      assert (a + b)[..|a| + n] == a + b[..n];
    }
  }

  lemma {:induction false} UnhealthyBound(pods: seq<Pod>)
    ensures Unhealthy(pods) <= |pods|
  {
    if pods != [] {
      UnhealthyBound(pods[..|pods| - 1]);
    }
  }

  lemma One(p: Pod, f: Filter)
    ensures List([p], f) == if Admits(f, p) then [p] else []
    ensures Unhealthy([p]) == if IsUnhealthy(p) then 1 else 0
  {
    assert [p][..0] == [];
  }

  lemma FrontCounts(p: Pod, rest: seq<Pod>, f: Filter)
    ensures List([p] + rest, f) == (if Admits(f, p) then [p] else []) + List(rest, f)
    ensures |List([p] + rest, f)| == (if Admits(f, p) then 1 else 0) + |List(rest, f)|
    ensures Unhealthy(List([p] + rest, f)) ==
              (if Admits(f, p) && IsUnhealthy(p) then 1 else 0) + Unhealthy(List(rest, f))
  {
    ListConcat([p], rest, f);
    One(p, f);
    UnhealthyConcat(List([p], f), List(rest, f));
  }

  lemma {:induction false} FindIsMember(pods: seq<Pod>, id: Request)
    ensures Find(pods, id).Some? ==> Find(pods, id).value in pods && Find(pods, id).value.id == id
    ensures Find(pods, id).None? ==> forall p :: p in pods ==> p.id != id
  {
    if pods != [] && pods[0].id != id {
      FindIsMember(pods[1..], id);
    }
  }

  /** Removing the pod found under `id` takes exactly that pod out of every listing. */
  lemma {:induction false} RemoveCounts(pods: seq<Pod>, id: Request, f: Filter)
    requires Find(pods, id).Some?
    ensures var p := Find(pods, id).value;
            && |List(Remove(pods, id), f)| == |List(pods, f)| - (if Admits(f, p) then 1 else 0)
            && Unhealthy(List(Remove(pods, id), f)) ==
                 Unhealthy(List(pods, f)) - (if Admits(f, p) && IsUnhealthy(p) then 1 else 0)
            && (!Admits(f, p) ==> List(Remove(pods, id), f) == List(pods, f))
  {
    var first, rest := pods[0], pods[1..];
    assert pods == [first] + rest;
    FrontCounts(first, rest, f);
    if first.id != id {
      RemoveCounts(rest, id, f);
      FrontCounts(first, Remove(rest, id), f);
    }
  }

  lemma {:induction false} RemoveMembers(pods: seq<Pod>, id: Request)
    ensures forall p :: p in Remove(pods, id) ==> p in pods
  {
    if pods != [] && pods[0].id != id {
      RemoveMembers(pods[1..], id);
    }
  }

  /** A pod found in the cluster is counted in every listing that admits it. */
  lemma FoundIsListed(pods: seq<Pod>, id: Request, f: Filter)
    requires Find(pods, id).Some? && Admits(f, Find(pods, id).value)
    ensures List(pods, f) != []
    ensures IsUnhealthy(Find(pods, id).value) ==> Unhealthy(List(pods, f)) > 0
  {
    RemoveCounts(pods, id, f);
  }

  // ---- the numbers in the terms of the pods ----

  /** What both counting loops look for. */
  ghost predicate Sick(p: Pod) {
    && "compute-sentry.aiguard.io/health" in p.annotations
    && p.annotations["compute-sentry.aiguard.io/health"] == "unhealthy"
  }

  ghost function Positions(pods: seq<Pod>, f: Filter): set<int> {
    set i | 0 <= i < |pods| && Admits(f, pods[i])
  }

  ghost function SickPositions(pods: seq<Pod>, f: Filter): set<int> {
    set i | 0 <= i < |pods| && Admits(f, pods[i]) && Sick(pods[i])
  }

  lemma PositionsStep(pods: seq<Pod>, n: nat, f: Filter)
    requires |pods| == n + 1
    ensures n !in Positions(pods[..n], f)
    ensures Positions(pods, f) == Positions(pods[..n], f) + (if Admits(f, pods[n]) then {n} else {})
  {}

  lemma SickPositionsStep(pods: seq<Pod>, n: nat, f: Filter)
    requires |pods| == n + 1
    ensures n !in SickPositions(pods[..n], f)
    ensures SickPositions(pods, f) ==
              SickPositions(pods[..n], f) + (if Admits(f, pods[n]) && Sick(pods[n]) then {n} else {})
  {}

  /** A listing has one entry for each position with a pod that passes the filter, and the unhealthy among them are
      those whose health annotation says so. */
  lemma {:induction false} ListCounts(pods: seq<Pod>, f: Filter)
    ensures |List(pods, f)| == |Positions(pods, f)|
    ensures Unhealthy(List(pods, f)) == |SickPositions(pods, f)|
  {
    if pods != [] {
      var n := |pods| - 1;
      ListCounts(pods[..n], f);
      UnhealthyListStep(pods, f);
      PositionsStep(pods, n, f);
      SickPositionsStep(pods, n, f);
    }
  }

  /** The pods the throttle counts are those the policy's selector matches, or all if it does not parse; those the taint
      decision counts are the node's. */
  lemma FiltersMean(policy: Policy, node: string, p: Pod)
    ensures ValidSelector(policy.selector) ==>
              (Admits(ThrottleFilter(policy), p) <==> Selects(policy.selector, p.labels))
    ensures !ValidSelector(policy.selector) ==> Admits(ThrottleFilter(policy), p)
    ensures Admits(ByNode(node), p) <==> p.nodeName == node
  {}

  /** Are the node's pods bad enough?  Any unhealthy one counts when no threshold is set; otherwise at least the count,
      or at least the percentage of the node's pods, must be unhealthy. */
  ghost predicate Met(threshold: Option<NodeTaintThreshold>, unhealthy: nat, total: nat) {
    && (threshold.None? ==> unhealthy >= 1)
    && (threshold.Some? ==>
          var NodeTaintThreshold(count, percentage) := threshold.value;
          || (count.Some? && count.value <= unhealthy)
          || (percentage.Some? && total >= 1 && percentage.value * total <= unhealthy * 100))
  }

  /** The decision in numbers: taint exactly an untainted node whose threshold is met, untaint exactly a tainted one
      whose threshold is not. */
  lemma DecideExactly(threshold: Option<NodeTaintThreshold>, tainted: bool, unhealthy: nat, total: nat)
    ensures Decide(threshold, tainted, unhealthy, total) == AddTaint <==> !tainted && Met(threshold, unhealthy, total)
    ensures Decide(threshold, tainted, unhealthy, total) == RemoveTaint <==>
            tainted && !Met(threshold, unhealthy, total)
  {}

  // ---- one reconcile ----

  lemma NodeActionKeeps(c: Cluster, node: string, threshold: Option<NodeTaintThreshold>)
    requires node in c.nodes
    ensures var u := NodeAction(c, node, threshold);
            && u.pods == c.pods && u.policies == c.policies && u.nodes.Keys == c.nodes.Keys
            && (forall n :: n in c.nodes && n != node ==> u.nodes[n] == c.nodes[n])
  {}

  lemma TaintNodeTaints(c: Cluster, node: string)
    requires node in c.nodes
    ensures HasOurs(TaintNode(c, node).nodes[node].taints)
  {
    TaintFresh(c.nodes[node].taints);
  }

  /** As written, untaintNode leaves the whole cluster as it was. */
  lemma UntaintNodeDoesNothing(c: Cluster, node: string)
    requires node in c.nodes
    ensures UntaintNode(c, node) == c
  {
    UntaintFresh(c.nodes[node].taints);
    assert c.nodes[node := c.nodes[node]] == c.nodes;
  }

  /** The node carries our taint after the decision exactly when it did before or the decision wants it: a taint
      once set is never taken off again. */
  lemma NodeActionTaint(c: Cluster, node: string, threshold: Option<NodeTaintThreshold>)
    requires node in c.nodes
    ensures var listed := List(c.pods, ByNode(node));
            HasOurs(NodeAction(c, node, threshold).nodes[node].taints) <==>
            HasOurs(c.nodes[node].taints) || Met(threshold, Unhealthy(listed), |listed|)
  {
    TaintNodeTaints(c, node);
    UntaintNodeDoesNothing(c, node);
  }

  /** One reconcile in full, in the terms of the API objects.  `tainted` adds our taint to the node's list when its
      threshold is newly met; nothing else of any node ever changes. */
  lemma ReconcileExactly(c: Cluster, id: Request, pod: Pod, policy: Policy)
    requires Find(c.pods, id) == Some(pod) && FirstMatch(c.policies, pod.labels) == Some(policy)
    requires pod.nodeName != "" && policy.actions.enableTaint && pod.nodeName in c.nodes
    ensures var node, here, listed :=
              c.nodes[pod.nodeName], List(c.pods, ByNode(pod.nodeName)), List(c.pods, ThrottleFilter(policy));
            var add := !HasOurs(node.taints) && Met(policy.actions.threshold, Unhealthy(here), |here|);
            var goes := Sick(pod) && policy.actions.enableEvict;
            var within := Unhealthy(listed) <= 1 || 20 * Unhealthy(listed) <= |listed|;
            var (u, outcome) := Reconcile(c, id);
            && u.policies == c.policies
            && u.nodes == (if add then c.nodes[pod.nodeName := TaintedByUs(node)] else c.nodes)
            && u.pods == (if goes && within then Remove(c.pods, pod.id) else c.pods)
            && outcome == (if !goes then Done else if within then Evicted(pod) else Throttled)
  {
    NodeActionExactly(c, pod.nodeName, policy.actions.threshold);
  }

  lemma NodeActionExactly(c: Cluster, node: string, threshold: Option<NodeTaintThreshold>)
    requires node in c.nodes
    ensures var here := List(c.pods, ByNode(node));
            var add := !HasOurs(c.nodes[node].taints) && Met(threshold, Unhealthy(here), |here|);
            NodeAction(c, node, threshold) ==
              c.(nodes := if add then c.nodes[node := TaintedByUs(c.nodes[node])] else c.nodes)
  {
    var here, ours := List(c.pods, ByNode(node)), HasOurs(c.nodes[node].taints);
    UntaintNodeDoesNothing(c, node);
    DecideExactly(threshold, ours, Unhealthy(here), |here|);
    if !ours {
      TaintFresh(c.nodes[node].taints);
    }
  }

  ghost function TaintedByUs(n: WholeNode): WholeNode {
    n.(taints := n.taints + [Taint("compute-sentry.aiguard.io/unhealthy", "true", "NoSchedule")])
  }

  /** And the reconciles that change nothing. */
  lemma ReconcileIdle(c: Cluster, id: Request)
    ensures Find(c.pods, id).None? ==> Reconcile(c, id) == (c, Ignored)
    ensures var found := Find(c.pods, id);
            found.Some? ==>
              var policy := FirstMatch(c.policies, found.value.labels);
              && (found.value.nodeName == "" ==> Reconcile(c, id) == (c, Ignored))
              && (found.value.nodeName != "" && (policy.None? || !policy.value.actions.enableTaint) ==>
                    Reconcile(c, id) == (c, Done))
              && (found.value.nodeName !in {""} + c.nodes.Keys && policy.Some? && policy.value.actions.enableTaint ==>
                    Reconcile(c, id) == (c, Failed))
  {
    var found := Find(c.pods, id);
    if found.Some? && found.value.nodeName in c.nodes {
      UntaintNodeDoesNothing(c, found.value.nodeName);
    }
  }

  /** A reconcile either leaves the pods alone or removes the one unhealthy pod it was asked about. */
  lemma StepPods(c: Cluster, id: Request)
    ensures var (u, outcome) := Reconcile(c, id);
            && u.policies == c.policies && u.nodes.Keys == c.nodes.Keys
            && (!outcome.Evicted? ==> u.pods == c.pods)
            && (outcome.Evicted? ==>
                  && Find(c.pods, id) == Some(outcome.pod) && outcome.pod.id == id && IsUnhealthy(outcome.pod)
                  && u.pods == Remove(c.pods, id))
  {
    FindIsMember(c.pods, id);
    var found := Find(c.pods, id);
    if found.Some? && found.value.nodeName in c.nodes {
      var policy := FirstMatch(c.policies, found.value.labels);
      UntaintNodeDoesNothing(c, found.value.nodeName);
      if policy.Some? {
        NodeActionKeeps(c, found.value.nodeName, policy.value.actions.threshold);
      }
    }
  }

  lemma {:induction false} RunKeeps(c: Cluster, ids: seq<Request>)
    ensures Run(c, ids).policies == c.policies && Run(c, ids).nodes.Keys == c.nodes.Keys
    ensures forall p :: p in Run(c, ids).pods ==> p in c.pods
  {
    if ids != [] {
      var n := |ids| - 1;
      RunKeeps(c, ids[..n]);
      StepPods(Run(c, ids[..n]), ids[n]);
      RemoveMembers(Run(c, ids[..n]).pods, ids[n]);
    }
  }

  /** When the throttle is consulted the policy's selector has parsed, and the pod at hand is among those it
      counts as unhealthy: the ignored parse error and the empty listing cannot happen. */
  lemma ThrottleSeesThePod(c: Cluster, id: Request)
    requires Find(c.pods, id).Some? && IsUnhealthy(Find(c.pods, id).value)
    requires FirstMatch(c.policies, Find(c.pods, id).value.labels).Some?
    ensures var policy := FirstMatch(c.policies, Find(c.pods, id).value.labels).value;
            && ValidSelector(policy.selector)
            && List(c.pods, ThrottleFilter(policy)) != []
            && Unhealthy(List(c.pods, ThrottleFilter(policy))) > 0
  {
    var pod := Find(c.pods, id).value;
    FirstMatchIsFirst(c.policies, pod.labels);
    FoundIsListed(c.pods, id, ThrottleFilter(FirstMatch(c.policies, pod.labels).value));
  }

  /** The pod is unhealthy, on a known node, and governed by a policy that taints and evicts. */
  ghost predicate Evictable(c: Cluster, pod: Pod, policy: Policy) {
    && Sick(pod) && pod.nodeName != "" && pod.nodeName in c.nodes
    && FirstMatch(c.policies, pod.labels) == Some(policy)
    && policy.actions.enableTaint && policy.actions.enableEvict
  }

  /** Of such a pod the throttle alone decides. */
  lemma EvictsIffAllowed(c: Cluster, id: Request, pod: Pod, policy: Policy)
    requires Find(c.pods, id) == Some(pod) && Evictable(c, pod, policy)
    ensures var listed := List(c.pods, ThrottleFilter(policy));
            Reconcile(c, id).1 ==
              if Unhealthy(listed) <= 1 || 20 * Unhealthy(listed) <= |listed| then Evicted(pod) else Throttled
  {
    NodeActionKeeps(c, pod.nodeName, policy.actions.threshold);
  }

  ghost predicate EvictedBy(c: Cluster, pod: Pod, policy: Policy) {
    var listed := List(c.pods, ThrottleFilter(policy));
    Evictable(c, pod, policy) && (Unhealthy(listed) <= 1 || 20 * Unhealthy(listed) <= |listed|)
  }

  /** A reconcile evicts a pod exactly when its own policy may: other policies that select it have no say. */
  lemma EvictsIff(c: Cluster, id: Request, pod: Pod)
    requires Find(c.pods, id) == Some(pod)
    ensures Reconcile(c, id).1 == Evicted(pod) <==> exists policy :: EvictedBy(c, pod, policy)
  {
    var found := FirstMatch(c.policies, pod.labels);
    if found.Some? && pod.nodeName in c.nodes {
      NodeActionKeeps(c, pod.nodeName, found.value.actions.threshold);
      assert EvictedBy(c, pod, found.value) <==> Reconcile(c, id).1 == Evicted(pod);
    }
  }

  // ---- the throttle over runs ----

  /** At most one, or at most 5%, of the pods listed for the policy are unhealthy. */
  ghost predicate Allowed(c: Cluster, policy: Policy) {
    var listed := List(c.pods, ThrottleFilter(policy));
    Unhealthy(listed) <= 1 || 20 * Unhealthy(listed) <= |listed|
  }

  /** Every unhealthy pod the throttle lists for the policy is governed by it. */
  ghost predicate Governs(c: Cluster, policy: Policy) {
    forall p :: p in c.pods && Admits(ThrottleFilter(policy), p) && IsUnhealthy(p) ==>
                  FirstMatch(c.policies, p.labels) == Some(policy)
  }

  /** Evictions never push a policy over its limit. */
  lemma AllowedStep(c: Cluster, id: Request, policy: Policy)
    requires Allowed(c, policy)
    ensures Allowed(Step(c, id), policy)
  {
    StepPods(c, id);
    if Reconcile(c, id).1.Evicted? {
      RemoveCounts(c.pods, id, ThrottleFilter(policy));
    }
  }

  /** What a policy over its limit loses in one reconcile: nothing, unless the pod at hand is evicted by another
      policy that governs it and is within its own limit; then exactly that pod. */
  lemma OverLimitLosesIff(c: Cluster, id: Request, pod: Pod, policy: Policy)
    requires !Allowed(c, policy) && Find(c.pods, id) == Some(pod)
    ensures |List(Step(c, id).pods, ThrottleFilter(policy))| < |List(c.pods, ThrottleFilter(policy))| <==>
            Admits(ThrottleFilter(policy), pod) && exists other :: other != policy && EvictedBy(c, pod, other)
    ensures Reconcile(c, id).1.Evicted? ==> Reconcile(c, id).1.pod == pod
    ensures |List(Step(c, id).pods, ThrottleFilter(policy))| >= |List(c.pods, ThrottleFilter(policy))| ==>
              List(Step(c, id).pods, ThrottleFilter(policy)) == List(c.pods, ThrottleFilter(policy))
  {
    StepPods(c, id);
    EvictsIff(c, id, pod);
    if Reconcile(c, id).1.Evicted? {
      RemoveCounts(c.pods, id, ThrottleFilter(policy));
    }
  }

  /** A policy over its limit loses nothing while its unhealthy pods are its own. */
  lemma BlockedStep(c: Cluster, id: Request, policy: Policy)
    requires Governs(c, policy) && !Allowed(c, policy)
    ensures List(Step(c, id).pods, ThrottleFilter(policy)) == List(c.pods, ThrottleFilter(policy))
  {
    StepPods(c, id);
    FindIsMember(c.pods, id);
    var found := Find(c.pods, id);
    if found.Some? {
      OverLimitLosesIff(c, id, found.value, policy);
    }
  }

  lemma GovernsRun(c: Cluster, ids: seq<Request>, policy: Policy)
    requires Governs(c, policy)
    ensures Governs(Run(c, ids), policy)
  {
    RunKeeps(c, ids);
  }

  lemma {:induction false} BlockedRun(c: Cluster, ids: seq<Request>, policy: Policy)
    requires Governs(c, policy) && !Allowed(c, policy)
    ensures List(Run(c, ids).pods, ThrottleFilter(policy)) == List(c.pods, ThrottleFilter(policy))
  {
    if ids != [] {
      var n := |ids| - 1;
      BlockedRun(c, ids[..n], policy);
      GovernsRun(c, ids[..n], policy);
      BlockedStep(Run(c, ids[..n]), ids[n], policy);
    }
  }

  /** The pods a run evicts are exactly what every listing loses, and all of them are unhealthy. */
  lemma {:induction false} EvictionsAccount(c: Cluster, ids: seq<Request>, f: Filter)
    ensures |List(c.pods, f)| == |List(Run(c, ids).pods, f)| + |List(Evictions(c, ids), f)|
    ensures Unhealthy(List(c.pods, f)) == Unhealthy(List(Run(c, ids).pods, f)) + |List(Evictions(c, ids), f)|
  {
    if ids != [] {
      var n := |ids| - 1;
      var mid := Run(c, ids[..n]);
      EvictionsAccount(c, ids[..n], f);
      StepPods(mid, ids[n]);
      var outcome := Reconcile(mid, ids[n]).1;
      if outcome.Evicted? {
        RemoveCounts(mid.pods, ids[n], f);
        ListConcat(Evictions(c, ids[..n]), [outcome.pod], f);
        One(outcome.pod, f);
      } else {
        assert Evictions(c, ids) == Evictions(c, ids[..n]) + [] == Evictions(c, ids[..n]);
      }
    }
  }

  function Max(a: int, b: int): int {
    if a > b then a else b
  }

  /** However a run orders its reconciles and whatever other policies share the pods, a policy that starts within
      its limit loses at most one pod or 5% of its pods; one that starts over it loses none while its unhealthy
      pods are its own. */
  lemma EvictionBound(c: Cluster, ids: seq<Request>, policy: Policy)
    requires Allowed(c, policy) || Governs(c, policy)
    ensures var f := ThrottleFilter(policy);
            && |List(Evictions(c, ids), f)| <= Max(1, |List(c.pods, f)| / 20)
            && (!Allowed(c, policy) ==> List(Evictions(c, ids), f) == [])
  {
    var f := ThrottleFilter(policy);
    EvictionsAccount(c, ids, f);
    if !Allowed(c, policy) {
      BlockedRun(c, ids, policy);
    } else {
      UnhealthyBound(List(c.pods, f));
    }
  }

  // ---- a run that evicts every unhealthy pod ----

  ghost predicate UniqueIds(pods: seq<Pod>) {
    forall i, j :: 0 <= i < j < |pods| ==> pods[i].id != pods[j].id
  }

  /** Every unhealthy pod of the policy runs on a known node. */
  ghost predicate Placed(c: Cluster, policy: Policy) {
    forall p :: p in c.pods && Admits(ThrottleFilter(policy), p) && IsUnhealthy(p) ==>
                  p.nodeName != "" && p.nodeName in c.nodes
  }

  lemma UnhealthyListStep(pods: seq<Pod>, f: Filter)
    requires pods != []
    ensures var last := pods[|pods| - 1];
            Unhealthy(List(pods, f)) ==
              Unhealthy(List(pods[..|pods| - 1], f)) + (if Admits(f, last) && IsUnhealthy(last) then 1 else 0)
  {
    var front, last := pods[..|pods| - 1], pods[|pods| - 1];
    One(last, f);
    if Admits(f, last) {
      UnhealthyConcat(List(front, f), [last]);
    } else {
      assert List(pods, f) == List(front, f) + [] == List(front, f);
    }
  }

  lemma {:induction false} PickUnhealthy(pods: seq<Pod>, f: Filter) returns (p: Pod)
    requires Unhealthy(List(pods, f)) > 0
    ensures p in pods && Admits(f, p) && IsUnhealthy(p)
  {
    UnhealthyListStep(pods, f);
    var n := |pods| - 1;
    if Admits(f, pods[n]) && IsUnhealthy(pods[n]) {
      p := pods[n];
    } else {
      p := PickUnhealthy(pods[..n], f);
    }
  }

  lemma {:induction false} FindUnique(pods: seq<Pod>, p: Pod)
    requires UniqueIds(pods) && p in pods
    ensures Find(pods, p.id) == Some(p)
  {
    if pods[0] != p {
      var i :| 0 < i < |pods| && pods[i] == p;
      assert pods[1..][i - 1] == p;
      FindUnique(pods[1..], p);
    }
  }

  lemma {:induction false} RemoveUnique(pods: seq<Pod>, id: Request)
    requires UniqueIds(pods)
    ensures UniqueIds(Remove(pods, id))
  {
    if pods != [] && pods[0].id != id {
      var rest := pods[1..];
      RemoveUnique(rest, id);
      RemoveMembers(rest, id);
      var r := Remove(rest, id);
      forall j | 0 <= j < |r| ensures r[j].id != pods[0].id {
        assert r[j] in rest;
        var i :| 0 <= i < |rest| && rest[i] == r[j];
        assert pods[i + 1] == rest[i];
      }
    }
  }

  /** The policy governs its unhealthy pods, all on known nodes, taints and evicts; and pods have names of their own. */
  ghost predicate InCharge(c: Cluster, policy: Policy) {
    && Governs(c, policy) && Placed(c, policy) && UniqueIds(c.pods)
    && policy.actions.enableTaint && policy.actions.enableEvict
  }

  lemma EvictOne(c: Cluster, policy: Policy, p: Pod)
    requires InCharge(c, policy) && Allowed(c, policy)
    requires p in c.pods && Admits(ThrottleFilter(policy), p) && IsUnhealthy(p)
    ensures Reconcile(c, p.id).1 == Evicted(p)
  {
    FindUnique(c.pods, p);
    EvictsIffAllowed(c, p.id, p, policy);
  }

  lemma {:induction false} InChargeRun(c: Cluster, ids: seq<Request>, policy: Policy)
    requires InCharge(c, policy)
    ensures InCharge(Run(c, ids), policy)
    ensures Allowed(c, policy) ==> Allowed(Run(c, ids), policy)
  {
    if ids != [] {
      var n := |ids| - 1;
      var mid := Run(c, ids[..n]);
      InChargeRun(c, ids[..n], policy);
      RunKeeps(c, ids);
      StepPods(mid, ids[n]);
      RemoveUnique(mid.pods, ids[n]);
      if Allowed(c, policy) {
        AllowedStep(mid, ids[n], policy);
      }
    }
  }

  lemma {:induction false} RemoveOnly(pods: seq<Pod>, id: Request, p: Pod)
    requires p in pods && UniqueIds(pods)
    ensures p in Remove(pods, id) <==> p.id != id
  {
    var rest := pods[1..];
    if p != pods[0] {
      var i :| 0 <= i < |pods| && pods[i] == p;
      assert rest[i - 1] == p;
      if pods[0].id != id {
        RemoveOnly(rest, id, p);
      }
    }
  }

  lemma {:induction false} ListMembers(pods: seq<Pod>, f: Filter, p: Pod)
    ensures p in List(pods, f) <==> p in pods && Admits(f, p)
  {
    if pods != [] {
      var n := |pods| - 1;
      ListMembers(pods[..n], f, p);
      assert pods == pods[..n] + [pods[n]];
    }
  }

  /** One more reconcile evicts the pod exactly when it is for that pod. */
  lemma GoesWhenNamed(c: Cluster, id: Request, policy: Policy, p: Pod)
    requires InCharge(c, policy) && Allowed(c, policy) && p in c.pods && Admits(ThrottleFilter(policy), p)
    ensures p in Step(c, id).pods <==> !(IsUnhealthy(p) && p.id == id)
  {
    StepPods(c, id);
    RemoveOnly(c.pods, id, p);
    if p.id == id {
      FindUnique(c.pods, p);
      if IsUnhealthy(p) {
        EvictOne(c, policy, p);
      }
    }
  }

  lemma {:induction false} AllowedRun(c: Cluster, ids: seq<Request>, policy: Policy, p: Pod)
    requires InCharge(c, policy) && Allowed(c, policy) && p in c.pods && Admits(ThrottleFilter(policy), p)
    ensures p in Run(c, ids).pods <==> !(IsUnhealthy(p) && p.id in ids)
  {
    if ids != [] {
      var n := |ids| - 1;
      var mid := Run(c, ids[..n]);
      assert ids == ids[..n] + [ids[n]];
      AllowedRun(c, ids[..n], policy, p);
      InChargeRun(c, ids[..n], policy);
      if p in mid.pods {
        GoesWhenNamed(mid, ids[n], policy, p);
      } else {
        StepPods(mid, ids[n]);
        RemoveMembers(mid.pods, ids[n]);
      }
    }
  }

  /** What any run does to any pod of the policy: the pod is gone at the end if and only if it is unhealthy, the run
      reconciles it, and the policy starts within its limit.  Order, repetition and other pods do not matter. */
  lemma EvictedIffReconciled(c: Cluster, ids: seq<Request>, policy: Policy, p: Pod)
    requires InCharge(c, policy) && p in c.pods && Admits(ThrottleFilter(policy), p)
    ensures var listed := List(c.pods, ThrottleFilter(policy));
            var within := Unhealthy(listed) <= 1 || 20 * Unhealthy(listed) <= |listed|;
            p in Run(c, ids).pods <==> !(within && Sick(p) && p.id in ids)
  {
    if Allowed(c, policy) {
      AllowedRun(c, ids, policy, p);
    } else {
      BlockedRun(c, ids, policy);
      ListMembers(c.pods, ThrottleFilter(policy), p);
      ListMembers(Run(c, ids).pods, ThrottleFilter(policy), p);
    }
  }

  /** The run reconciles every unhealthy pod of the policy. */
  ghost predicate Covers(c: Cluster, policy: Policy, ids: seq<Request>) {
    forall p :: p in c.pods && Admits(ThrottleFilter(policy), p) && Sick(p) ==> p.id in ids
  }

  /** All or none: within its limit a policy loses all its unhealthy pods in exactly the runs that reconcile each of
      them; over its limit no run evicts even one. */
  lemma EvictsAllOrNone(c: Cluster, ids: seq<Request>, policy: Policy)
    requires InCharge(c, policy)
    ensures var f := ThrottleFilter(policy);
            var u, n := Unhealthy(List(c.pods, f)), |List(c.pods, f)|;
            && (u <= 1 || 20 * u <= n ==> (Unhealthy(List(Run(c, ids).pods, f)) == 0 <==> Covers(c, policy, ids)))
            && (u > 1 && 20 * u > n ==> Unhealthy(List(Run(c, ids).pods, f)) == u && List(Evictions(c, ids), f) == [])
  {
    var f := ThrottleFilter(policy);
    if !Allowed(c, policy) {
      BlockedRun(c, ids, policy);
      EvictionBound(c, ids, policy);
    } else {
      RunKeeps(c, ids);
      InChargeRun(c, ids, policy);
      forall p | p in c.pods && Admits(f, p)
        ensures p in Run(c, ids).pods <==> !(IsUnhealthy(p) && p.id in ids)
      {
        AllowedRun(c, ids, policy, p);
      }
      if Unhealthy(List(Run(c, ids).pods, f)) > 0 {
        var p := PickUnhealthy(Run(c, ids).pods, f);
      } else if p :| p in c.pods && Admits(f, p) && IsUnhealthy(p) && p.id !in ids {
        FindUnique(Run(c, ids).pods, p);
        FoundIsListed(Run(c, ids).pods, p.id, f);
      }
    }
  }

  /** Such a run exists: reconciling every pod once is one. */
  lemma AllEvictable(c: Cluster, policy: Policy) returns (ids: seq<Request>)
    requires InCharge(c, policy) && Allowed(c, policy)
    ensures Unhealthy(List(Run(c, ids).pods, ThrottleFilter(policy))) == 0
  {
    ids := seq(|c.pods|, i requires 0 <= i < |c.pods| => c.pods[i].id);
    forall p | p in c.pods ensures p.id in ids {
      var i :| 0 <= i < |c.pods| && c.pods[i] == p;
      assert ids[i] == p.id;
    }
    EvictsAllOrNone(c, ids, policy);
  }

  // ---- taints over runs ----

  /** Reconciling `id` finds a pod on `node` whose policy wants the node tainted. */
  ghost predicate WantsTaint(c: Cluster, id: Request, node: string) {
    var found := Find(c.pods, id);
    && found.Some? && found.value.nodeName == node
    && var policy := FirstMatch(c.policies, found.value.labels);
       var listed := List(c.pods, ByNode(node));
       policy.Some? && policy.value.actions.enableTaint
       && match policy.value.actions.threshold
          case None => Unhealthy(listed) > 0
          case Some(NodeTaintThreshold(count, percentage)) =>
            || (count.Some? && Unhealthy(listed) >= count.value)
            || (percentage.Some? && |listed| > 0 && 100 * Unhealthy(listed) >= percentage.value * |listed|)
  }

  lemma PodActionNodes(c: Cluster, pod: Pod, policy: Policy)
    ensures PodAction(c, pod, policy).0.nodes == c.nodes
  {}

  lemma StepTaint(c: Cluster, id: Request, node: string)
    requires node in c.nodes && node != ""
    ensures node in Step(c, id).nodes
    ensures HasOurs(Step(c, id).nodes[node].taints) <==> HasOurs(c.nodes[node].taints) || WantsTaint(c, id, node)
  {
    var found := Find(c.pods, id);
    if found.Some? && found.value.nodeName != "" {
      var pod := found.value;
      var policy := FirstMatch(c.policies, pod.labels);
      if policy.None? || !policy.value.actions.enableTaint {
        if pod.nodeName in c.nodes {
          UntaintNodeDoesNothing(c, pod.nodeName);
        }
      } else if pod.nodeName in c.nodes {
        var threshold := policy.value.actions.threshold;
        NodeActionKeeps(c, pod.nodeName, threshold);
        NodeActionTaint(c, pod.nodeName, threshold);
        PodActionNodes(NodeAction(c, pod.nodeName, threshold), pod, policy.value);
      }
    }
  }

  /** Reconcile `i` of the run, when its turn comes, wants the node tainted. */
  ghost predicate WantedAt(c: Cluster, ids: seq<Request>, i: nat, node: string)
    requires i < |ids|
  {
    WantsTaint(Run(c, ids[..i]), ids[i], node)
  }

  ghost predicate EverWanted(c: Cluster, ids: seq<Request>, node: string) {
    exists i :: 0 <= i < |ids| && WantedAt(c, ids, i, node)
  }

  lemma WantedAtFront(c: Cluster, ids: seq<Request>, n: nat, i: nat, node: string)
    requires i < n < |ids|
    ensures WantedAt(c, ids[..n], i, node) <==> WantedAt(c, ids, i, node)
  {
    assert ids[..n][..i] == ids[..i];
  }

  lemma EverWantedStep(c: Cluster, ids: seq<Request>, n: nat, node: string)
    requires |ids| == n + 1
    ensures EverWanted(c, ids, node) <==> EverWanted(c, ids[..n], node) || WantedAt(c, ids, n, node)
  {
    forall i | 0 <= i < n ensures WantedAt(c, ids[..n], i, node) <==> WantedAt(c, ids, i, node) {
      WantedAtFront(c, ids, n, i, node);
    }
  }

  /** After any run, whatever the policies, a node carries our taint if and only if it did at the start or some
      reconcile of the run wanted it. */
  lemma {:induction false} RunTaint(c: Cluster, ids: seq<Request>, node: string)
    requires node in c.nodes && node != ""
    ensures node in Run(c, ids).nodes
    ensures HasOurs(Run(c, ids).nodes[node].taints) <==> HasOurs(c.nodes[node].taints) || EverWanted(c, ids, node)
  {
    if ids != [] {
      var n := |ids| - 1;
      RunTaint(c, ids[..n], node);
      StepTaint(Run(c, ids[..n]), ids[n], node);
      EverWantedStep(c, ids, n, node);
    }
  }

  /** No run of reconciles takes our taint off a node, healthy pods or not. */
  lemma TaintStays(c: Cluster, ids: seq<Request>, node: string)
    requires node in c.nodes && node != "" && HasOurs(c.nodes[node].taints)
    ensures node in Run(c, ids).nodes && HasOurs(Run(c, ids).nodes[node].taints)
  {
    RunTaint(c, ids, node);
  }

  /** The node of an evicted pod carries our taint afterwards exactly when it did before or its pods met the
      policy's threshold. */
  lemma EvictedTaintExact(c: Cluster, id: Request)
    requires Reconcile(c, id).1.Evicted?
    ensures var pod := Reconcile(c, id).1.pod;
            var policy := FirstMatch(c.policies, pod.labels);
            var listed := List(c.pods, ByNode(pod.nodeName));
            && policy.Some? && pod.nodeName in c.nodes && pod.nodeName in Step(c, id).nodes
            && (HasOurs(Step(c, id).nodes[pod.nodeName].taints) <==>
                HasOurs(c.nodes[pod.nodeName].taints)
                || Met(policy.value.actions.threshold, Unhealthy(listed), |listed|))
  {
    StepTaint(c, id, Reconcile(c, id).1.pod.nodeName);
  }

  /** The policy that governs the pod, if any, sets no node threshold. */
  ghost predicate NoThreshold(policies: seq<Policy>, pod: Pod) {
    var policy := FirstMatch(policies, pod.labels);
    policy.Some? ==> policy.value.actions.threshold.None?
  }

  /** When its policy sets no node threshold, a pod is evicted only from a node that carries our taint by then. */
  lemma EvictedFromTainted(c: Cluster, id: Request)
    requires Reconcile(c, id).1.Evicted? && NoThreshold(c.policies, Reconcile(c, id).1.pod)
    ensures var node := Reconcile(c, id).1.pod.nodeName;
            node != "" && node in Step(c, id).nodes && HasOurs(Step(c, id).nodes[node].taints)
  {
    var pod := Find(c.pods, id).value;
    FoundIsListed(c.pods, id, ByNode(pod.nodeName));
    EvictedTaintExact(c, id);
  }

  /** Over a whole run: every node such a pod was evicted from carries our taint at the end. */
  lemma {:induction false} EvictedNodesStayTainted(c: Cluster, ids: seq<Request>, p: Pod)
    requires p in Evictions(c, ids) && NoThreshold(c.policies, p)
    ensures p.nodeName in Run(c, ids).nodes && p.nodeName != "" && HasOurs(Run(c, ids).nodes[p.nodeName].taints)
  {
    var n := |ids| - 1;
    var mid := Run(c, ids[..n]);
    RunKeeps(c, ids[..n]);
    if p in Evictions(c, ids[..n]) {
      EvictedNodesStayTainted(c, ids[..n], p);
      StepTaint(mid, ids[n], p.nodeName);
    } else {
      EvictedFromTainted(mid, ids[n]);
    }
  }

  lemma MulStep(p: int, n: int)
    ensures p * n == p * (n - 1) + p
  {}

  lemma MulMonotone(p: int, q: int, n: nat)
    requires p <= q
    ensures p * n <= q * n
  {}

  /** Evicting an unhealthy pod never makes a healthy enough node too unhealthy, whatever the thresholds. */
  lemma WantedShrinks(threshold: Option<NodeTaintThreshold>, unhealthy: nat, total: nat)
    requires 1 <= unhealthy <= total && Met(threshold, unhealthy - 1, total - 1)
    ensures Met(threshold, unhealthy, total)
  {
    if threshold.Some? && threshold.value.minPercentage.Some? {
      var p := threshold.value.minPercentage.value;
      MulStep(p, total);
      if p > 100 {
        MulMonotone(101, p, total - 1);
      }
    }
  }

  datatype TaintSetting = Off | On(threshold: Option<NodeTaintThreshold>)

  function SettingOf(policies: seq<Policy>, labels: Labels): TaintSetting {
    var policy := FirstMatch(policies, labels);
    if policy.Some? && policy.value.actions.enableTaint then On(policy.value.actions.threshold) else Off
  }

  /** All pods on the node resolve to the same taint setting. */
  ghost predicate Uniform(c: Cluster, node: string, setting: TaintSetting) {
    forall p :: p in c.pods && p.nodeName == node ==> SettingOf(c.policies, p.labels) == setting
  }

  ghost predicate WantedOn(c: Cluster, node: string, setting: TaintSetting) {
    var listed := List(c.pods, ByNode(node));
    setting.On? && Met(setting.threshold, Unhealthy(listed), |listed|)
  }

  ghost predicate Names(c: Cluster, id: Request, node: string) {
    Find(c.pods, id).Some? && Find(c.pods, id).value.nodeName == node
  }

  /** Some reconcile of the run is for a pod that the cluster had on the node at the start. */
  ghost predicate Touched(c: Cluster, ids: seq<Request>, node: string) {
    exists i :: 0 <= i < |ids| && Names(c, ids[i], node)
  }

  lemma WantedStep(c: Cluster, id: Request, node: string, setting: TaintSetting)
    requires WantedOn(Step(c, id), node, setting)
    ensures WantedOn(c, node, setting)
  {
    StepPods(c, id);
    if Reconcile(c, id).1.Evicted? {
      RemoveCounts(c.pods, id, ByNode(node));
      UnhealthyBound(List(c.pods, ByNode(node)));
      if Admits(ByNode(node), Reconcile(c, id).1.pod) {
        var listed := List(c.pods, ByNode(node));
        WantedShrinks(setting.threshold, Unhealthy(listed), |listed|);
      }
    }
  }

  lemma {:induction false} RemoveOther(pods: seq<Pod>, id: Request, other: Request)
    requires id != other
    ensures Find(Remove(pods, id), other) == Find(pods, other)
  {
    if pods != [] && pods[0].id != id {
      RemoveOther(pods[1..], id, other);
    }
  }

  /** Until a run touches the node its pods there are as they were, and each is still found. */
  lemma {:induction false} Untouched(c: Cluster, ids: seq<Request>, node: string)
    requires UniqueIds(c.pods) && !Touched(c, ids, node)
    ensures List(Run(c, ids).pods, ByNode(node)) == List(c.pods, ByNode(node))
    ensures forall id :: Names(c, id, node) ==> Find(Run(c, ids).pods, id) == Find(c.pods, id)
  {
    if ids != [] {
      var n := |ids| - 1;
      var mid, id := Run(c, ids[..n]), ids[n];
      assert forall i :: 0 <= i < n ==> ids[..n][i] == ids[i];
      Untouched(c, ids[..n], node);
      StepPods(mid, id);
      if Reconcile(mid, id).1.Evicted? {
        var p := Reconcile(mid, id).1.pod;
        RunKeeps(c, ids[..n]);
        FindIsMember(mid.pods, id);
        FindUnique(c.pods, p);
        assert !Names(c, id, node);
        RemoveCounts(mid.pods, id, ByNode(node));
        forall other | Names(c, other, node) ensures Find(Run(c, ids).pods, other) == Find(c.pods, other) {
          RemoveOther(mid.pods, id, other);
        }
      }
    }
  }

  lemma {:induction false} WantedRun(c: Cluster, ids: seq<Request>, node: string, setting: TaintSetting)
    requires WantedOn(Run(c, ids), node, setting)
    ensures WantedOn(c, node, setting)
  {
    if ids != [] {
      var n := |ids| - 1;
      WantedStep(Run(c, ids[..n]), ids[n], node, setting);
      WantedRun(c, ids[..n], node, setting);
    }
  }

  /** In a run, a reconcile of a pod on the node wants the taint exactly when the setting does by then. */
  lemma WantsBySetting(c: Cluster, ids: seq<Request>, id: Request, node: string, setting: TaintSetting)
    requires Uniform(c, node, setting)
    ensures var mid := Run(c, ids); WantsTaint(mid, id, node) <==> Names(mid, id, node) && WantedOn(mid, node, setting)
  {
    var mid := Run(c, ids);
    RunKeeps(c, ids);
    FindIsMember(mid.pods, id);
    if Names(mid, id, node) {
      assert SettingOf(c.policies, Find(mid.pods, id).value.labels) == setting;
    }
  }

  lemma NamedThenFoundEarlier(c: Cluster, ids: seq<Request>, id: Request, node: string)
    requires UniqueIds(c.pods)
    ensures Names(Run(c, ids), id, node) ==> Names(c, id, node)
  {
    var mid := Run(c, ids);
    RunKeeps(c, ids);
    FindIsMember(mid.pods, id);
    if Find(mid.pods, id).Some? {
      FindUnique(c.pods, Find(mid.pods, id).value);
    }
  }

  /** The final taint of a node whose pods agree on their setting does not depend on which reconciles run or in
      what order, only on whether one of them is for a pod on that node: it is set at the end exactly when it was
      set at the start, or the setting wants it for the pods the node had at the start. */
  lemma {:induction false} FinalTaint(c: Cluster, ids: seq<Request>, node: string, setting: TaintSetting)
    requires node in c.nodes && node != "" && UniqueIds(c.pods) && Uniform(c, node, setting)
    ensures node in Run(c, ids).nodes
    ensures HasOurs(Run(c, ids).nodes[node].taints) <==>
            HasOurs(c.nodes[node].taints) || (Touched(c, ids, node) && WantedOn(c, node, setting))
  {
    if ids != [] {
      var n := |ids| - 1;
      var front, id := ids[..n], ids[n];
      var mid := Run(c, front);
      FinalTaint(c, front, node, setting);
      StepTaint(mid, id, node);
      WantsBySetting(c, front, id, node, setting);
      NamedThenFoundEarlier(c, front, id, node);
      TouchedStep(c, ids, node);
      if WantedOn(mid, node, setting) {
        WantedRun(c, front, node, setting);
      }
      if !Touched(c, front, node) {
        Untouched(c, front, node);
      }
    }
  }

  lemma TouchedStep(c: Cluster, ids: seq<Request>, node: string)
    requires ids != []
    ensures var n := |ids| - 1; Touched(c, ids, node) <==> Touched(c, ids[..n], node) || Names(c, ids[n], node)
  {
    var n := |ids| - 1;
    if Touched(c, ids[..n], node) {
      var i :| 0 <= i < n && Names(c, ids[..n][i], node);
      assert Names(c, ids[i], node);
    }
    if Touched(c, ids, node) {
      var i :| 0 <= i < |ids| && Names(c, ids[i], node);
      assert i < n ==> Names(c, ids[..n][i], node);
    }
  }
}
