/** The controller as an object over the API server's state: its loops and in-place patches compute
    the functions of HealthController. */
module HealthControllerObject {
  import opened ApiTypes
  import opened JsonMergePatch
  import opened Policies
  import opened NodeTaints
  import opened HealthController

  class Controller {
    var pods: seq<Pod>
    var policies: seq<Policy>
    var nodes: map<string, WholeNode>

    ghost function Value(): Cluster
      reads this
    {
      Cluster(pods, policies, nodes)
    }

    method FindMatchingPolicy(pod: Pod) returns (policy: Option<Policy>)
      ensures policy == FirstMatch(policies, pod.labels)
    {
      for i := 0 to |policies|
        invariant forall j :: 0 <= j < i ==> !Chosen(policies[j], pod.labels)
      {
        if !ValidSelector(policies[i].selector) {
          continue;
        }
        if Selects(policies[i].selector, pod.labels) {
          FirstMatchFound(policies, pod.labels, i);
          return Some(policies[i]);
        }
      }
      FirstMatchIsFirst(policies, pod.labels);
      policy := None;
    }

    method GetNodePodsHealthStatus(node: string) returns (total: nat, unhealthy: nat, healthy: nat)
      ensures total == |List(pods, ByNode(node))|
      ensures unhealthy == Unhealthy(List(pods, ByNode(node)))
      ensures unhealthy + healthy == total
    {
      var items := List(pods, ByNode(node));
      total, unhealthy, healthy := 0, 0, 0;
      for i := 0 to |items|
        invariant total == i && unhealthy == Unhealthy(items[..i]) && unhealthy + healthy == total
      {
        assert items[..i + 1][..i] == items[..i];
        total := total + 1;
        if IsUnhealthy(items[i]) {
          unhealthy := unhealthy + 1;
        } else {
          healthy := healthy + 1;
        }
      }
      assert items[..|items|] == items;
    }

    method CheckEvictionThrottling(policy: Policy) returns (throttled: bool)
      ensures var listed := List(pods, ThrottleFilter(policy));
              throttled <==> Unhealthy(listed) > 1 && 20 * Unhealthy(listed) > |listed|
    {
      var items := List(pods, ThrottleFilter(policy));
      var total := |items|;
      if total == 0 {
        return false;
      }
      var unhealthy := 0;
      for i := 0 to |items|
        invariant unhealthy == Unhealthy(items[..i])
      {
        assert items[..i + 1][..i] == items[..i];
        if IsUnhealthy(items[i]) {
          unhealthy := unhealthy + 1;
        }
      }
      assert items[..|items|] == items;
      throttled := 20 * unhealthy > total && unhealthy > 1;
    }

    static method IsTainted(taints: seq<Taint>) returns (tainted: bool)
      ensures tainted == HasOurs(taints)
    {
      for i := 0 to |taints|
        invariant !HasOurs(taints[..i])
      {
        if taints[i].key == NO_SCHEDULE_TAINT_KEY {
          return true;
        }
        assert taints[..i + 1] == taints[..i] + [taints[i]];
      }
      assert taints[..|taints|] == taints;
      tainted := false;
    }

    method EvaluateNodeTaintDecision(node: string, threshold: Option<NodeTaintThreshold>) returns (decision: Decision)
      requires node in nodes
      ensures var listed, tainted := List(pods, ByNode(node)), HasOurs(nodes[node].taints);
              var met :=
                match threshold
                case None => Unhealthy(listed) > 0
                case Some(NodeTaintThreshold(count, percentage)) =>
                  || (count.Some? && Unhealthy(listed) >= count.value)
                  || (percentage.Some? && |listed| > 0 && 100 * Unhealthy(listed) >= percentage.value * |listed|);
              decision == if met && !tainted then AddTaint else if !met && tainted then RemoveTaint else Keep
    {
      var tainted := IsTainted(nodes[node].taints);
      var total, unhealthy, healthy := GetNodePodsHealthStatus(node);
      if threshold.None? {
        if unhealthy > 0 && !tainted {
          return AddTaint;
        }
        if unhealthy == 0 && tainted {
          return RemoveTaint;
        }
        return Keep;
      }
      var th := threshold.value;
      var met := false;
      if th.minCount.Some? && unhealthy >= th.minCount.value {
        met := true;
      }
      if th.minPercentage.Some? && total > 0 {
        if 100 * unhealthy >= th.minPercentage.value * total {
          met := true;
        }
      }
      if met && !tainted {
        return AddTaint;
      }
      if !met && tainted {
        return RemoveTaint;
      }
      decision := Keep;
    }

    /** The API server applies the merge patch between two versions of a node that differ in their taints. */
    method Patch(node: string, from: WholeNode, to: seq<Taint>)
      requires node in nodes
      modifies this`nodes
      ensures nodes.Keys == old(nodes).Keys
      ensures Doc(nodes[node]) == Apply(Doc(old(nodes)[node]), Diff(Doc(from), Doc(WithTaints(from, to))))
      ensures nodes ==
                old(nodes)[node := WithTaints(old(nodes)[node], Patched(old(nodes)[node].taints, from.taints, to))]
    {
      var server := nodes[node];
      PatchSetsTaints(server, from, to);
      nodes := nodes[node := WithTaints(server, if from.taints == to then server.taints else to)];
    }

    /** `read` is the node as the client returned it, possibly out of date. */
    method TaintNodeFrom(node: string, read: WholeNode)
      requires node in nodes
      modifies this`nodes
      ensures nodes ==
                old(nodes)[node := WithTaints(old(nodes)[node], TaintResult(old(nodes)[node].taints, read.taints))]
    {
      var tainted := IsTainted(read.taints);
      if tainted {
        return;
      }
      Patch(node, read, read.taints + [OURS]);
    }

    /** The filtering loop of `untaintNode`. */
    method FilterTaints(taints: seq<Taint>) returns (newTaints: seq<Taint>, found: bool)
      ensures newTaints == Others(taints)
      ensures found <==> HasOurs(taints)
    {
      newTaints, found := [], false;
      for i := 0 to |taints|
        invariant newTaints == Others(taints[..i])
        invariant found <==> HasOurs(taints[..i])
      {
        assert taints[..i + 1][..i] == taints[..i];
        assert taints[..i + 1] == taints[..i] + [taints[i]];
        HasOursAppend(taints[..i], taints[i]);
        if taints[i].key == NO_SCHEDULE_TAINT_KEY {
          found := true;
          continue;
        }
        newTaints := newTaints + [taints[i]];
      }
      assert taints[..|taints|] == taints;
    }

    method UntaintNodeFrom(node: string, read: WholeNode)
      requires node in nodes
      modifies this`nodes
      ensures nodes ==
                old(nodes)[node := WithTaints(old(nodes)[node], UntaintResult(old(nodes)[node].taints, read.taints))]
    {
      var newTaints, found := FilterTaints(read.taints);
      if !found {
        return;
      }
      var nodeCopy := WithTaints(read, newTaints);
      Patch(node, nodeCopy, read.taints);
    }

    method UntaintNodeIfTaintedByUs(node: string)
      modifies this`nodes
      ensures node !in old(nodes) ==> nodes == old(nodes)
      ensures node in old(nodes) ==>
                Value() == if HasOurs(old(nodes)[node].taints) then UntaintNode(old(Value()), node) else old(Value())
    {
      if node !in nodes {
        return;
      }
      var tainted := IsTainted(nodes[node].taints);
      if tainted {
        UntaintNodeFrom(node, nodes[node]);
      }
    }

    method EvictPod(id: Request)
      modifies this`pods
      ensures pods == Remove(old(pods), id)
    {
      pods := Remove(pods, id);
    }

    method ReconcilePod(id: Request) returns (outcome: Outcome)
      modifies this
      ensures (Value(), outcome) == HealthController.Reconcile(old(Value()), id)
    {
      var found := Find(pods, id);
      if found.None? {
        return Ignored;
      }
      var pod := found.value;
      var policy := FindMatchingPolicy(pod);
      if pod.nodeName == "" {
        return Ignored;
      }
      if policy.None? || !policy.value.actions.enableTaint {
        UntaintNodeIfTaintedByUs(pod.nodeName);
        return Done;
      }
      if pod.nodeName !in nodes {
        return Failed;
      }
      var decision := EvaluateNodeTaintDecision(pod.nodeName, policy.value.actions.threshold);
      if decision == AddTaint {
        TaintNodeFrom(pod.nodeName, nodes[pod.nodeName]);
      } else if decision == RemoveTaint {
        UntaintNodeFrom(pod.nodeName, nodes[pod.nodeName]);
      }
      assert Value() == NodeAction(old(Value()), pod.nodeName, policy.value.actions.threshold);
      if IsUnhealthy(pod) && policy.value.actions.enableEvict {
        var throttled := CheckEvictionThrottling(policy.value);
        if throttled {
          return Throttled;
        }
        EvictPod(pod.id);
        return Evicted(pod);
      }
      outcome := Done;
    }
  }
}
