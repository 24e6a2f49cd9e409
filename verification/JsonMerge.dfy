/** JSON trees and the merge patch of instance updates (mcpserver/update.go). */
module JsonMerge {
  import opened Collections

  datatype Json =
    | Null
    | Bool(b: bool)
    | Number(repr: string)
    | Text(s: string)
    | Array(items: seq<Json>)
    | Obj(fields: map<string, Json>)

  type Fields = map<string, Json>

  /** The MergePatch function of section 2 of RFC 7386. */
  function MergePatch(target: Json, patch: Json): Json
    decreases patch
  {
    if !patch.Obj? then patch
    else
      var base := if target.Obj? then target.fields else map[];
      Obj(map k | k in base.Keys + patch.fields.Keys && !(k in patch.fields && patch.fields[k].Null?) ::
            if k in patch.fields then MergePatch(if k in base then base[k] else Null, patch.fields[k]) else base[k])
  }

  /** mergePatchValues: copy the target, then apply the patch key by key, in any order. */
  method MergePatchValues(target: Fields, patch: Fields) returns (out: Fields)
    ensures Obj(out) == MergePatch(Obj(target), Obj(patch))
    decreases Obj(patch)
  {
    hide MergePatch, Merging;
    out := target;
    var todo := patch.Keys;
    MergedElsewhere(target, patch);
    ghost var goal := MergePatch(Obj(target), Obj(patch)).fields;
    MergeBegins(target, patch, goal);
    while todo != {}
      invariant todo <= patch.Keys && Merging(target, patch, goal, out, todo)
      decreases |todo|
    {
      var k :| k in todo;
      ghost var before := out;
      MergedAt(target, patch, k);
      MergingAt(target, patch, goal, out, todo, k);
      var v := patch[k];
      if v.Null? {
        out := out - {k};
      } else if v.Obj? {
        var tm := if k in out && out[k].Obj? then out[k].fields else map[];
        var merged := MergePatchValues(tm, v.fields);
        out := out[k := Obj(merged)];
      } else {
        out := out[k := v];
      }
      MergeNext(target, patch, goal, before, todo, k, out);
      todo := todo - {k};
    }
    MergeEnds(target, patch, goal, out);
  }

  lemma MergeBegins(target: Fields, patch: Fields, goal: Fields)
    ensures Merging(target, patch, goal, target, patch.Keys)
  {
  }

  lemma MergingAt(target: Fields, patch: Fields, goal: Fields, out: Fields, todo: set<string>, k: string)
    requires Merging(target, patch, goal, out, todo) && k in todo
    ensures Get(out, k) == Get(target, k)
  {
  }

  lemma MergeNext(target: Fields, patch: Fields, goal: Fields, before: Fields, todo: set<string>, k: string,
                  out: Fields)
    requires Merging(target, patch, goal, before, todo) && k in todo && k in patch
    requires out - {k} == before - {k} && Get(out, k) == Get(goal, k)
    ensures Merging(target, patch, goal, out, todo - {k})
  {
    forall j
      ensures Get(out, j) == if j in patch && j !in todo - {k} then Get(goal, j) else Get(target, j)
    {
      if j != k {
        assert Get(out, j) == Get(out - {k}, j);
        assert Get(before, j) == Get(before - {k}, j);
      }
    }
  }

  lemma MergeEnds(target: Fields, patch: Fields, goal: Fields, out: Fields)
    requires Merging(target, patch, goal, out, {})
    requires forall k | k !in patch :: Get(goal, k) == Get(target, k)
    ensures out == goal
  {
    SameFields(out, goal);
  }

  function Get(m: Fields, k: string): Option<Json> {
    if k in m then Some(m[k]) else None
  }

  lemma SameFields(m: Fields, n: Fields)
    requires forall k :: Get(m, k) == Get(n, k)
    ensures m == n
  {
    assert forall k :: k in m <==> Get(m, k).Some?;
    assert forall k :: k in n <==> Get(n, k).Some?;
  }

  /** The keys still to do are as in the target, the patched ones as in the goal. */
  ghost predicate Merging(target: Fields, patch: Fields, goal: Fields, out: Fields, todo: set<string>) {
    forall k :: Get(out, k) == if k in patch && k !in todo then Get(goal, k) else Get(target, k)
  }

  /** The result of a merge under a key of the patch. */
  lemma MergedAt(target: Fields, patch: Fields, k: string)
    requires k in patch
    ensures var goal := MergePatch(Obj(target), Obj(patch));
            && goal.Obj?
            && Get(goal.fields, k) ==
               if patch[k].Null? then None
               else if patch[k].Obj? then
                 var base := if k in target && target[k].Obj? then target[k].fields else map[];
                 Some(MergePatch(Obj(base), Obj(patch[k].fields)))
               else Some(patch[k])
  {
    if patch[k].Obj? { NonObjectTarget(if k in target then target[k] else Null, patch[k]); }
  }

  /** Keys the patch does not name keep their value. */
  lemma MergedElsewhere(target: Fields, patch: Fields)
    ensures var goal := MergePatch(Obj(target), Obj(patch));
            goal.Obj? && forall k | k !in patch :: Get(goal.fields, k) == Get(target, k)
  {
  }

  /** A target that is not an object counts as the empty object. */
  lemma NonObjectTarget(t: Json, p: Json)
    requires p.Obj?
    ensures MergePatch(t, p) == MergePatch(Obj(if t.Obj? then t.fields else map[]), p)
  {
  }

  // ----- consequences -----

  /** Applying a patch twice is applying it once. */
  lemma {:induction false} Idempotent(target: Json, patch: Json)
    ensures MergePatch(MergePatch(target, patch), patch) == MergePatch(target, patch)
    decreases patch
  {
    if patch.Obj? {
      var once := MergePatch(target, patch);
      var base := if target.Obj? then target.fields else map[];
      forall k | k in patch.fields && !patch.fields[k].Null?
        ensures MergePatch(once.fields[k], patch.fields[k]) == once.fields[k]
      {
        Idempotent(if k in base then base[k] else Null, patch.fields[k]);
      }
      assert MergePatch(once, patch).fields == once.fields;
    }
  }

  /** The value at a list of keys. */
  function Lookup(j: Option<Json>, ks: seq<string>): Option<Json>
    decreases |ks|
  {
    if ks == [] then j else Lookup(Child(j, ks[0]), ks[1..])
  }

  function Child(j: Option<Json>, k: string): Option<Json> {
    if j.Some? && j.value.Obj? && k in j.value.fields then Some(j.value.fields[k]) else None
  }

  /** The patch neither replaces nor deletes anything on the way to, at or beneath the keys. */
  predicate Mentions(patch: Json, ks: seq<string>)
    decreases |ks|
  {
    if ks == [] || !patch.Obj? then true
    else ks[0] in patch.fields && Mentions(patch.fields[ks[0]], ks[1..])
  }

  /** What a patch does not mention keeps its value, at any depth. */
  lemma {:induction false} UnmentionedStays(target: Json, patch: Json, ks: seq<string>)
    requires target.Obj? && !Mentions(patch, ks)
    ensures Lookup(Some(MergePatch(target, patch)), ks) == Lookup(Some(target), ks)
    decreases |ks|
  {
    var k := ks[0];
    if k in patch.fields {
      var p := patch.fields[k];
      if k in target.fields && target.fields[k].Obj? {
        UnmentionedStays(target.fields[k], p, ks[1..]);
      } else {
        UnmentionedStays(Obj(map[]), p, ks[1..]);
        NonObjectTarget(if k in target.fields then target.fields[k] else Null, p);
        LookupBelowLeaf(Child(Some(target), k), ks[1..]);
        LookupBelowLeaf(Some(Obj(map[])), ks[1..]);
      }
    }
  }

  lemma {:induction false} LookupBelowLeaf(j: Option<Json>, ks: seq<string>)
    requires ks != [] && (j.None? || !j.value.Obj? || j.value.fields == map[])
    ensures Lookup(j, ks) == None
    decreases |ks|
  {
    if |ks| > 1 { LookupBelowLeaf(None, ks[1..]); }
  }
}
