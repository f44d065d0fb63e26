/** Why the eviction bound asks that a policy over its limit govern its unhealthy pods: an earlier policy that shares
    some of them can evict those (OverLimitLosesIff), which brings the later policy back under its limit. */
module ThrottleOverlap {
  import opened ApiTypes
  import opened JsonMergePatch
  import opened Policies
  import opened NodeTaints
  import opened HealthController
  import opened HealthControllerLaws

  /** Two sick pods and a healthy one, all of the wide policy; the narrow one comes first and shares `x`. */
  ghost predicate Overlapping(c: Cluster, narrow: Policy, wide: Policy, x: Pod, y: Pod, z: Pod) {
    && c.pods == [x, y, z] && c.policies == [narrow, wide]
    && x.id != y.id && IsUnhealthy(x) && IsUnhealthy(y) && !IsUnhealthy(z)
    && x.nodeName == y.nodeName != "" && x.nodeName in c.nodes
    && Chosen(narrow, x.labels) && !Chosen(narrow, y.labels) && !Chosen(narrow, z.labels)
    && Chosen(wide, x.labels) && Chosen(wide, y.labels) && Chosen(wide, z.labels)
    && narrow.actions == Actions(true, true, None) && wide.actions == narrow.actions
  }

  lemma ListTwo(p: Pod, q: Pod, f: Filter)
    ensures List([p, q], f) == (if Admits(f, p) then [p] else []) + (if Admits(f, q) then [q] else [])
    ensures Unhealthy([p, q]) == Unhealthy([p]) + Unhealthy([q])
  {
    assert [p, q] == [p] + [q];
    ListConcat([p], [q], f);
    UnhealthyConcat([p], [q]);
    One(p, f);
    One(q, f);
  }

  lemma ListThree(p: Pod, q: Pod, r: Pod, f: Filter)
    ensures List([p, q, r], f) == (if Admits(f, p) then [p] else []) + List([q, r], f)
    ensures Unhealthy([p, q, r]) == Unhealthy([p]) + Unhealthy([q, r])
  {
    assert [p, q, r] == [p] + [q, r];
    ListConcat([p], [q, r], f);
    UnhealthyConcat([p], [q, r]);
    One(p, f);
  }

  lemma NarrowListing(c: Cluster, narrow: Policy, wide: Policy, x: Pod, y: Pod, z: Pod)
    requires Overlapping(c, narrow, wide, x, y, z)
    ensures Unhealthy(List(c.pods, ThrottleFilter(narrow))) == 1
  {
    var f := ThrottleFilter(narrow);
    ListThree(x, y, z, f);
    ListTwo(y, z, f);
    assert List(c.pods, f) == [x];
    One(x, f);
  }

  lemma FirstGoes(c: Cluster, narrow: Policy, wide: Policy, x: Pod, y: Pod, z: Pod)
    requires Overlapping(c, narrow, wide, x, y, z)
    ensures Reconcile(c, x.id).1 == Evicted(x) && Step(c, x.id).pods == [y, z]
  {
    FirstMatchFound(c.policies, x.labels, 0);
    NarrowListing(c, narrow, wide, x, y, z);
    EvictsIffAllowed(c, x.id, x, narrow);
    StepPods(c, x.id);
    assert [x, y, z][1..] == [y, z];
  }

  lemma SecondGoes(c: Cluster, narrow: Policy, wide: Policy, x: Pod, y: Pod, z: Pod, u: Cluster)
    requires Overlapping(c, narrow, wide, x, y, z)
    requires u.pods == [y, z] && u.policies == c.policies && u.nodes.Keys == c.nodes.Keys
    ensures Reconcile(u, y.id).1 == Evicted(y)
  {
    FirstMatchFound(u.policies, y.labels, 1);
    EvictsIffAllowed(u, y.id, y, wide);
    var f := ThrottleFilter(wide);
    ListTwo(y, z, f);
    assert List(u.pods, f) == [y, z];
    One(y, f);
    One(z, f);
  }

  lemma TwoOfThree(x: Pod, y: Pod, z: Pod, f: Filter)
    requires IsUnhealthy(x) && IsUnhealthy(y) && !IsUnhealthy(z)
    ensures Unhealthy([x, y, z]) == 2
  {
    ListThree(x, y, z, f);
    ListTwo(y, z, f);
    One(x, f);
    One(y, f);
    One(z, f);
  }

  lemma WideListing(c: Cluster, narrow: Policy, wide: Policy, x: Pod, y: Pod, z: Pod)
    requires Overlapping(c, narrow, wide, x, y, z)
    ensures !Allowed(c, wide) && |List(c.pods, ThrottleFilter(wide))| == 3
    ensures List([x, y], ThrottleFilter(wide)) == [x, y]
  {
    var f := ThrottleFilter(wide);
    ListThree(x, y, z, f);
    ListTwo(y, z, f);
    ListTwo(x, y, f);
    assert List(c.pods, f) == [x, y, z];
    TwoOfThree(x, y, z, f);
  }

  lemma TwoSteps(c: Cluster, a: Request, b: Request)
    ensures Evictions(c, [a, b]) ==
              (if Reconcile(c, a).1.Evicted? then [Reconcile(c, a).1.pod] else [])
              + (if Reconcile(Step(c, a), b).1.Evicted? then [Reconcile(Step(c, a), b).1.pod] else [])
  {
    assert [a, b][..1] == [a] && [a][..0] == [];
    assert Run(c, []) == c && Run(c, [a]) == Step(c, a);
    var none: seq<Request> := [];
    assert Evictions(c, none) == [];
    assert Evictions(c, [a]) == if Reconcile(c, a).1.Evicted? then [Reconcile(c, a).1.pod] else [];
  }

  /** The wide policy starts over its limit, and both its unhealthy pods are evicted. */
  lemma BothGo(c: Cluster, narrow: Policy, wide: Policy, x: Pod, y: Pod, z: Pod)
    requires Overlapping(c, narrow, wide, x, y, z)
    ensures !Allowed(c, wide) && |List(c.pods, ThrottleFilter(wide))| == 3
    ensures List(Evictions(c, [x.id, y.id]), ThrottleFilter(wide)) == [x, y]
  {
    WideListing(c, narrow, wide, x, y, z);
    FirstGoes(c, narrow, wide, x, y, z);
    StepPods(c, x.id);
    SecondGoes(c, narrow, wide, x, y, z, Step(c, x.id));
    TwoSteps(c, x.id, y.id);
  }

  lemma OverlappingExists() returns (c: Cluster, narrow: Policy, wide: Policy, x: Pod, y: Pod, z: Pod)
    ensures Overlapping(c, narrow, wide, x, y, z)
  {
    var none, both := Thresholds(0, 0, 0, 0), Actions(true, true, None);
    var isB := Requirement("b", "Exists", []);
    narrow := Policy(LabelSelector(map[], [isB], true), true, none, EvalConfig(0, 0), both);
    wide := Policy(LabelSelector(map[], [], true), true, none, EvalConfig(0, 0), both);
    var sick := map[HEALTH_ANNOTATION := "unhealthy"];
    x := Pod(Request("ns", "x"), map["b" := "1"], sick, "node");
    y := Pod(Request("ns", "yy"), map[], sick, "node");
    z := Pod(Request("ns", "zzz"), map[], map[], "node");
    c := Cluster([x, y, z], [narrow, wide], map["node" := Node(Null, map[], [])]);
    assert |x.id.podName| != |y.id.podName|;
    assert isB in narrow.selector.matchExpressions;
  }

  lemma OverlapEscapesThrottle()
    ensures exists c: Cluster, policy: Policy, ids: seq<Request> ::
              && ValidSelector(policy.selector) && !Allowed(c, policy)
              && |List(Evictions(c, ids), ThrottleFilter(policy))| > Max(1, |List(c.pods, ThrottleFilter(policy))| / 20)
  {
    var c, narrow, wide, x, y, z := OverlappingExists();
    BothGo(c, narrow, wide, x, y, z);
    assert |List(Evictions(c, [x.id, y.id]), ThrottleFilter(wide))| == 2;
  }
}
