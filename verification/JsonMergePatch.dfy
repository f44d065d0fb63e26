/** JSON documents, merge patches (section 2 of RFC 7396) and the diff that produces them. */
module JsonMergePatch {
  import opened ApiTypes

  datatype Json =
    | Null
    | Text(text: string)
    | Arr(items: seq<Json>)
    | Obj(members: map<string, Json>)

  /** MergePatch of RFC 7396: members set to null are removed, objects merge, anything else replaces. */
  function Apply(target: Json, patch: Json): Json
    decreases patch
  {
    match patch
    case Obj(pm) =>
      var tm := if target.Obj? then target.members else map[];
      Obj(map k | k in tm.Keys + pm.Keys && !(k in pm && pm[k] == Null)
            :: if k in pm then Apply(if k in tm then tm[k] else Null, pm[k]) else tm[k])
    case _ => patch
  }

  /** Does the diff of two objects mention member `k`? */
  predicate Mentions(a: map<string, Json>, b: map<string, Json>, k: string) {
    if k in b then
      k !in a || (a[k] != b[k])
    else
      k in a
  }

  /** The merge patch from object `a` to object `b`: null for a removed member, the new value for an added or
      replaced one, and a nested diff where both sides hold objects. */
  function Diff(a: Json, b: Json): Json
    requires a.Obj? && b.Obj?
    decreases b
  {
    var am, bm := a.members, b.members;
    Obj(map k | k in am.Keys + bm.Keys && Mentions(am, bm, k)
          :: if k !in bm then Null
             else if k in am && am[k].Obj? && bm[k].Obj? then Diff(am[k], bm[k])
             else bm[k])
  }

  /** No member anywhere holds null: what the marshalled Kubernetes objects look like. */
  predicate NullFree(j: Json) {
    match j
    case Null => false
    case Obj(m) => forall k :: k in m ==> NullFree(m[k])
    case _ => true
  }

  /** A null-free patch laid over anything that is not an object is the document itself. */
  lemma {:induction false} ApplyFresh(target: Json, j: Json)
    requires NullFree(j) && !target.Obj?
    ensures Apply(target, j) == j
    decreases j
  {
    match j
    case Obj(m) =>
      forall k | k in m ensures Apply(Null, m[k]) == m[k] {
        ApplyFresh(Null, m[k]);
      }
      assert Apply(target, j).members == m;
    case _ =>
  }

  /** Round trip: applying the diff of two documents to the first gives the second. */
  lemma {:induction false} DiffApply(a: Json, b: Json)
    requires a.Obj? && b.Obj? && NullFree(b)
    ensures Apply(a, Diff(a, b)) == b
    decreases b
  {
    var am, bm := a.members, b.members;
    var r := Apply(a, Diff(a, b)).members;
    forall k | k in bm && k in am && am[k] != bm[k] && am[k].Obj? && bm[k].Obj?
      ensures Apply(am[k], Diff(am[k], bm[k])) == bm[k]
    {
      DiffApply(am[k], bm[k]);
    }
    forall k | k in bm && (k !in am || !(am[k].Obj? && bm[k].Obj?))
      ensures Apply(if k in am then am[k] else Null, bm[k]) == bm[k]
    {
      if bm[k].Obj? {
        ApplyFresh(if k in am then am[k] else Null, bm[k]);
      }
    }
    assert r.Keys == bm.Keys;
    assert r == bm;
  }

  /** Section 2 of RFC 7396 member by member: null removes, an object merges into what is there, anything else replaces
      it, and members the patch does not mention stay. */
  lemma ApplyMember(target: map<string, Json>, patch: map<string, Json>, k: string)
    ensures var r := Apply(Obj(target), Obj(patch));
            && r.Obj?
            && (k !in patch ==> (k in r.members <==> k in target) && (k in target ==> r.members[k] == target[k]))
            && (k in patch && patch[k] == Null ==> k !in r.members)
            && (k in patch && patch[k] != Null && !patch[k].Obj? ==> k in r.members && r.members[k] == patch[k])
            && (k in patch && patch[k].Obj? ==>
                  k in r.members && r.members[k] == Apply(if k in target then target[k] else Obj(map[]), patch[k]))
  {
    if k in patch && patch[k].Obj? && k !in target {
      assert Apply(Null, patch[k]) == Apply(Obj(map[]), patch[k]);
    }
  }

  /** A patch that is not an object replaces the whole document. */
  lemma ApplyReplaces(target: Json, patch: Json)
    requires !patch.Obj?
    ensures Apply(target, patch) == patch
  {}

  /** Laid over a third document, the patch from `a` to `b` changes only what differs between the two: a member they
      agree on stays as the third has it, one that `b` lacks goes, and one that `b` sets to a plain value is set. */
  lemma PatchesOnlyChanges(a: map<string, Json>, b: map<string, Json>, third: map<string, Json>, k: string)
    requires NullFree(Obj(b))
    ensures var r := Apply(Obj(third), Diff(Obj(a), Obj(b)));
            && r.Obj?
            && ((k in a <==> k in b) && (k in a ==> a[k] == b[k]) ==>
                  (k in r.members <==> k in third) && (k in third ==> r.members[k] == third[k]))
            && (k in a && k !in b ==> k !in r.members)
            && (k in b && !b[k].Obj? && (k !in a || a[k] != b[k]) ==> k in r.members && r.members[k] == b[k])
  {
    var patch := Diff(Obj(a), Obj(b)).members;
    ApplyMember(third, patch, k);
  }

  // ---- documents that differ in one member ----

  /** An object with member `k` present or absent. */
  function With(m: map<string, Json>, k: string, v: Option<Json>): Json {
    Obj(if v.Some? then m[k := v.value] else m)
  }

  function OrNull(v: Option<Json>): Json {
    if v.Some? then v.value else Null
  }

  lemma WithTells(m: map<string, Json>, k: string, x: Option<Json>, y: Option<Json>)
    requires k !in m && x != y
    ensures With(m, k, x) != With(m, k, y)
  {
    var a, b := With(m, k, x).members, With(m, k, y).members;
    assert (k in a <==> x.Some?) && (k in b <==> y.Some?);
    assert x.Some? && y.Some? ==> a[k] != b[k];
  }

  lemma DiffOneMember(m: map<string, Json>, k: string, x: Option<Json>, y: Option<Json>)
    requires k !in m && x != y && (y.Some? ==> !y.value.Obj?)
    ensures Diff(With(m, k, x), With(m, k, y)) == Obj(map[k := OrNull(y)])
  {
    assert Diff(With(m, k, x), With(m, k, y)).members == map[k := OrNull(y)];
  }

  lemma ApplyOneMember(m: map<string, Json>, k: string, x: Option<Json>, v: Option<Json>)
    requires k !in m && (v.Some? ==> !v.value.Obj? && !v.value.Null?)
    ensures Apply(With(m, k, x), Obj(map[k := OrNull(v)])) == With(m, k, v)
  {
    assert Apply(With(m, k, x), Obj(map[k := OrNull(v)])).members == With(m, k, v).members;
  }

  lemma DiffNested(m: map<string, Json>, k: string, a: Json, b: Json)
    requires k !in m && a.Obj? && b.Obj? && a != b
    ensures Diff(With(m, k, Some(a)), With(m, k, Some(b))) == Obj(map[k := Diff(a, b)])
  {
    assert Diff(With(m, k, Some(a)), With(m, k, Some(b))).members == map[k := Diff(a, b)];
  }

  lemma ApplyNested(m: map<string, Json>, k: string, a: Json, p: Json)
    requires k !in m && p.Obj?
    ensures Apply(With(m, k, Some(a)), Obj(map[k := p])) == With(m, k, Some(Apply(a, p)))
  {
    assert Apply(With(m, k, Some(a)), Obj(map[k := p])).members == m[k := Apply(a, p)];
  }

  lemma EmptyPatch(m: map<string, Json>)
    ensures Diff(Obj(m), Obj(m)) == Obj(map[]) && Apply(Obj(m), Obj(map[])) == Obj(m)
  {
    assert Diff(Obj(m), Obj(m)).members == map[];
    assert Apply(Obj(m), Obj(map[])).members == m;
  }
}
