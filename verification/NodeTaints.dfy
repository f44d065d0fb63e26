/** The taint list of a node and the two patches the health controller sends for it. */
module NodeTaints {
  import opened ApiTypes
  import opened JsonMergePatch

  const NO_SCHEDULE_TAINT_KEY: string := "compute-sentry.aiguard.io/unhealthy"

  datatype Taint = Taint(key: string, value: string, effect: string)

  const OURS: Taint := Taint(NO_SCHEDULE_TAINT_KEY, "true", "NoSchedule")

  /** `spec` holds the members of the node's spec other than the taints. */
  datatype Node = Node(metadata: Json, spec: map<string, Json>, taints: seq<Taint>)

  type WholeNode = n: Node | "taints" !in n.spec witness Node(Null, map[], [])

  /** An empty value is omitted, as the Go struct tags ask. */
  function TaintDoc(t: Taint): Json {
    var required := map["key" := Text(t.key), "effect" := Text(t.effect)];
    Obj(if t.value == "" then required else required["value" := Text(t.value)])
  }

  function TaintsDoc(ts: seq<Taint>): Json {
    Arr(seq(|ts|, i requires 0 <= i < |ts| => TaintDoc(ts[i])))
  }

  /** An empty taint list is omitted. */
  function TaintsMember(ts: seq<Taint>): Option<Json> {
    if ts == [] then None else Some(TaintsDoc(ts))
  }

  function SpecDoc(n: WholeNode): Json {
    With(n.spec, "taints", TaintsMember(n.taints))
  }

  function Doc(n: WholeNode): Json {
    With(map["metadata" := n.metadata], "spec", Some(SpecDoc(n)))
  }

  function WithTaints(n: WholeNode, ts: seq<Taint>): WholeNode {
    n.(taints := ts)
  }

  lemma TaintDocInjective(a: Taint, b: Taint)
    requires TaintDoc(a) == TaintDoc(b)
    ensures a == b
  {
    var am, bm := TaintDoc(a).members, TaintDoc(b).members;
    assert am["key"] == bm["key"] && am["effect"] == bm["effect"];
    assert "value" in am <==> "value" in bm;
    if "value" in am {
      assert am["value"] == bm["value"];
    }
  }

  lemma TaintsDocInjective(a: seq<Taint>, b: seq<Taint>)
    requires TaintsDoc(a) == TaintsDoc(b)
    ensures a == b
  {
    var ai, bi := TaintsDoc(a).items, TaintsDoc(b).items;
    assert |a| == |ai| == |bi| == |b|;
    forall i | 0 <= i < |a| ensures a[i] == b[i] {
      assert ai[i] == bi[i];
      TaintDocInjective(a[i], b[i]);
    }
  }

  /** The patch itself between two nodes that differ only in their taints: the whole new list under spec.taints, or null
      when it is empty, and nothing else. */
  lemma PatchSent(read: WholeNode, ts: seq<Taint>)
    requires read.taints != ts
    ensures Diff(Doc(read), Doc(WithTaints(read, ts))) ==
            Obj(map["spec" := Obj(map["taints" := if ts == [] then Null else TaintsDoc(ts)])])
  {
    var x, y := TaintsMember(read.taints), TaintsMember(ts);
    if x == y {
      TaintsDocInjective(read.taints, ts);
    }
    DiffOneMember(read.spec, "taints", x, y);
    WithTells(read.spec, "taints", x, y);
    DiffNested(map["metadata" := read.metadata], "spec", SpecDoc(read), SpecDoc(WithTaints(read, ts)));
  }

  /** What taintNode appends, as it is sent. */
  lemma TaintSent(ts: seq<Taint>)
    ensures TaintsDoc(ts + [OURS]).items ==
            TaintsDoc(ts).items + [Obj(map["key" := Text("compute-sentry.aiguard.io/unhealthy"),
                                           "value" := Text("true"), "effect" := Text("NoSchedule")])]
  {
    assert TaintDoc(OURS).members == map["key" := Text("compute-sentry.aiguard.io/unhealthy"),
                                         "value" := Text("true"), "effect" := Text("NoSchedule")];
    assert forall i :: 0 <= i < |ts| ==> TaintsDoc(ts + [OURS]).items[i] == TaintDoc(ts[i]);
  }

  /** A patch between two nodes that differ only in their taints sets the server's list, whatever that
      list was, and touches nothing else of the node. */
  lemma PatchSetsTaints(server: WholeNode, read: WholeNode, ts: seq<Taint>)
    ensures Apply(Doc(server), Diff(Doc(read), Doc(WithTaints(read, ts)))) ==
            Doc(WithTaints(server, Patched(server.taints, read.taints, ts)))
  {
    var meta, serverMeta := map["metadata" := read.metadata], map["metadata" := server.metadata];
    if read.taints == ts {
      EmptyPatch(Doc(read).members);
      EmptyPatch(Doc(server).members);
    } else {
      var x, y := TaintsMember(read.taints), TaintsMember(ts);
      if x == y {
        TaintsDocInjective(read.taints, ts);
      }
      var a, b := SpecDoc(read), SpecDoc(WithTaints(read, ts));
      DiffOneMember(read.spec, "taints", x, y);
      WithTells(read.spec, "taints", x, y);
      DiffNested(meta, "spec", a, b);
      ApplyNested(serverMeta, "spec", SpecDoc(server), Diff(a, b));
      ApplyOneMember(server.spec, "taints", TaintsMember(server.taints), y);
    }
  }

  // ---- what taintNode and untaintNode do to the list ----

  predicate HasOurs(ts: seq<Taint>) {
    exists i :: 0 <= i < |ts| && ts[i].key == NO_SCHEDULE_TAINT_KEY
  }

  /** The list without our taints, as untaintNode builds it. */
  function Others(ts: seq<Taint>): seq<Taint> {
    if ts == [] then []
    else
      var n := |ts| - 1;
      Others(ts[..n]) + (if ts[n].key == NO_SCHEDULE_TAINT_KEY then [] else [ts[n]])
  }

  function CountOurs(ts: seq<Taint>): nat {
    if ts == [] then 0
    else
      var n := |ts| - 1;
      CountOurs(ts[..n]) + (if ts[n].key == NO_SCHEDULE_TAINT_KEY then 1 else 0)
  }

  /** The server's list after a patch computed from list `from` to list `to`. */
  function Patched(server: seq<Taint>, from: seq<Taint>, to: seq<Taint>): seq<Taint> {
    if from == to then server else to
  }

  /** taintNode: `read` is the node as the controller's client returned it. */
  function TaintResult(server: seq<Taint>, read: seq<Taint>): seq<Taint> {
    if HasOurs(read) then server else Patched(server, read, read + [OURS])
  }

  /** untaintNode as written: the patch runs from the filtered copy to the node as read. */
  function UntaintResult(server: seq<Taint>, read: seq<Taint>): seq<Taint> {
    if HasOurs(read) then Patched(server, Others(read), read) else server
  }

  // ---- laws ----

  lemma HasOursAppend(ts: seq<Taint>, t: Taint)
    ensures HasOurs(ts + [t]) <==> HasOurs(ts) || t.key == NO_SCHEDULE_TAINT_KEY
  {
    var longer := ts + [t];
    assert longer[|ts|] == t;
    if HasOurs(ts) {
      var i :| 0 <= i < |ts| && ts[i].key == NO_SCHEDULE_TAINT_KEY;
      assert longer[i].key == NO_SCHEDULE_TAINT_KEY;
    }
  }

  lemma {:induction false} OthersLaw(ts: seq<Taint>)
    ensures HasOurs(ts) <==> Others(ts) != ts
    ensures HasOurs(ts) <==> CountOurs(ts) > 0
    ensures |Others(ts)| + CountOurs(ts) == |ts|
    ensures !HasOurs(Others(ts))
  {
    if ts != [] {
      var n := |ts| - 1;
      OthersLaw(ts[..n]);
      HasOursAppend(ts[..n], ts[n]);
      HasOursAppend(Others(ts[..n]), ts[n]);
      assert ts == ts[..n] + [ts[n]];
    }
  }

  /** A list has our taint exactly when some taint has our key, whatever its value and effect. */
  lemma HasOursMeans(ts: seq<Taint>)
    ensures HasOurs(ts) <==> exists t :: t in ts && t.key == "compute-sentry.aiguard.io/unhealthy"
  {
    if HasOurs(ts) {
      var i :| 0 <= i < |ts| && ts[i].key == NO_SCHEDULE_TAINT_KEY;
      assert ts[i] in ts;
    }
  }

  /** Filtering drops exactly the taints with our key and keeps the order of the rest. */
  lemma {:induction false} OthersConcat(a: seq<Taint>, t: Taint, b: seq<Taint>)
    ensures Others(a + [t] + b) ==
              if t.key == "compute-sentry.aiguard.io/unhealthy" then Others(a + b) else Others(a) + [t] + Others(b)
    decreases |b|
  {
    if b == [] {
      assert (a + [t] + b)[..|a|] == a && a + [t] + b == a + [t] && a + b == a;
    } else {
      var front, last := b[..|b| - 1], b[|b| - 1];
      OthersConcat(a, t, front);
      assert a + [t] + b == (a + [t] + front) + [last] && a + b == (a + front) + [last];
      OthersAppend(a + [t] + front, last);
      OthersAppend(a + front, last);
    }
  }

  lemma OthersAppend(ts: seq<Taint>, t: Taint)
    ensures Others(ts + [t]) == Others(ts) + (if t.key == "compute-sentry.aiguard.io/unhealthy" then [] else [t])
  {
    assert (ts + [t])[..|ts|] == ts;
  }

  lemma AppendOurs(ts: seq<Taint>)
    ensures CountOurs(ts + [OURS]) == CountOurs(ts) + 1 && Others(ts + [OURS]) == Others(ts)
  {
    assert (ts + [OURS])[..|ts|] == ts;
  }

  /** With a fresh read taintNode leaves the node with exactly one of our taints if it had none, and as it was
      if it had any; every other taint stays, in order. */
  lemma TaintFresh(server: seq<Taint>)
    ensures HasOurs(TaintResult(server, server)) && CountOurs(server + [OURS]) == CountOurs(server) + 1
    ensures Others(TaintResult(server, server)) == Others(server)
    ensures !HasOurs(server) ==>
              && CountOurs(TaintResult(server, server)) == 1
              && TaintResult(server, server) ==
                   server + [Taint("compute-sentry.aiguard.io/unhealthy", "true", "NoSchedule")]
    ensures HasOurs(server) ==> TaintResult(server, server) == server
  {
    OthersLaw(server);
    AppendOurs(server);
    OthersLaw(server + [OURS]);
    assert |server| != |server + [OURS]|;
  }

  /** A stale read costs whatever others changed meanwhile: the patch carries the whole list, so a taint call
      keeps the other taints exactly when the read list and the server's agree on them. */
  lemma TaintStale(server: seq<Taint>, read: seq<Taint>)
    requires !HasOurs(read)
    ensures TaintResult(server, read) == read + [OURS]
    ensures Others(TaintResult(server, read)) == Others(server) <==> read == Others(server)
  {
    OthersLaw(read);
    AppendOurs(read);
    assert |read| != |read + [OURS]|;
  }

  /** untaintNode is meant to leave `Others(server)`.  With a fresh read it leaves the list as it was, so it does
      what is meant exactly when there was nothing to remove. */
  lemma UntaintFresh(server: seq<Taint>)
    ensures UntaintResult(server, server) == server
    ensures UntaintResult(server, server) == Others(server) <==> !HasOurs(server)
  {
    OthersLaw(server);
  }

  /** A stale read that holds our key overwrites the server's list with the list read: our taint comes back and what
      others changed meanwhile is undone.  The other taints survive exactly when both lists agree on them, and the
      list that is meant results exactly when neither list holds our key. */
  lemma UntaintStale(server: seq<Taint>, read: seq<Taint>)
    ensures UntaintResult(server, read) == if HasOurs(read) then read else server
    ensures HasOurs(UntaintResult(server, read)) <==> HasOurs(server) || HasOurs(read)
    ensures Others(UntaintResult(server, read)) == Others(server) <==>
            (HasOurs(read) ==> Others(read) == Others(server))
    ensures UntaintResult(server, read) == Others(server) <==> !HasOurs(server) && !HasOurs(read)
  {
    OthersLaw(read);
    OthersLaw(server);
  }

  /** The patch in the direction taintNode uses would have removed exactly our taints. */
  lemma UntaintMeant(server: seq<Taint>)
    ensures Patched(server, server, Others(server)) == Others(server)
    ensures !HasOurs(Others(server))
  {
    OthersLaw(server);
  }

  // ---- any run of taint and untaint calls, with reads from any earlier state ----

  datatype Call = TaintCall(read: nat) | UntaintCall(read: nat) | Outside(taints: seq<Taint>)

  /** `history` holds the node's successive taint lists; call `i` reads any list up to then and leaves list `i + 1`.
      A change from outside may leave any list that does not hold our key twice. */
  ghost predicate CallAt(history: seq<seq<Taint>>, calls: seq<Call>, i: nat)
    requires i < |calls| < |history|
  {
    match calls[i]
    case TaintCall(read) => read <= i && history[i + 1] == TaintResult(history[i], history[read])
    case UntaintCall(read) => read <= i && history[i + 1] == UntaintResult(history[i], history[read])
    case Outside(taints) => history[i + 1] == taints && CountOurs(taints) <= 1
  }

  ghost predicate CallRun(history: seq<seq<Taint>>, calls: seq<Call>) {
    && |history| == |calls| + 1
    && CountOurs(history[0]) <= 1
    && forall i :: 0 <= i < |calls| ==> CallAt(history, calls, i)
  }

  lemma ResultCounts(server: seq<Taint>, read: seq<Taint>)
    requires CountOurs(server) <= 1 && CountOurs(read) <= 1
    ensures CountOurs(TaintResult(server, read)) <= 1 && CountOurs(UntaintResult(server, read)) <= 1
  {
    AppendOurs(read);
    OthersLaw(read);
  }

  /** Our key never appears twice, however stale the reads. */
  lemma {:induction false} NeverTwice(history: seq<seq<Taint>>, calls: seq<Call>, i: nat)
    requires CallRun(history, calls) && i < |history|
    ensures CountOurs(history[i]) <= 1
  {
    if i > 0 {
      NeverTwice(history, calls, i - 1);
      assert CallAt(history, calls, i - 1);
      if !calls[i - 1].Outside? {
        var read := calls[i - 1].read;
        NeverTwice(history, calls, read);
        ResultCounts(history[i - 1], history[read]);
      }
    }
  }

  lemma ResultKeeps(server: seq<Taint>, read: seq<Taint>)
    requires HasOurs(server)
    ensures HasOurs(TaintResult(server, read)) && HasOurs(UntaintResult(server, read))
  {
    HasOursAppend(read, OURS);
  }

  /** No taint or untaint call removes our taint, however stale its read: once the node carries it, only
      a change from outside can take it away. */
  lemma {:induction false} NeverRemoved(history: seq<seq<Taint>>, calls: seq<Call>, i: nat, j: nat)
    requires CallRun(history, calls) && i <= j < |history| && HasOurs(history[i])
    requires forall n :: i <= n < j ==> !calls[n].Outside?
    ensures HasOurs(history[j])
    decreases j
  {
    if i < j {
      NeverRemoved(history, calls, i, j - 1);
      assert CallAt(history, calls, j - 1);
      ResultKeeps(history[j - 1], history[calls[j - 1].read]);
    }
  }
}
