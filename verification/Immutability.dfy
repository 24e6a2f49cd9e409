/** Which updates of an instance's values are accepted: the changed dot-paths against the immutable
    inputs (mcpserver/update.go). */
module Immutability {
  import opened Collections
  import opened GoStrings
  import opened JsonMerge

  // ----- where two trees differ -----

  predicate IsObject(j: Option<Json>) { j.Some? && j.value.Obj? }

  /** The position itself has changed: an object against something else, or two unequal leaves, one
      of which may be missing. */
  predicate LeafDiffers(o: Option<Json>, n: Option<Json>) {
    if IsObject(o) || IsObject(n) then o.Some? && n.Some? && IsObject(o) != IsObject(n) else o != n
  }

  /** The trees differ at the position the keys lead to. */
  predicate DiffersAt(o: Option<Json>, n: Option<Json>, ks: seq<string>)
    decreases |ks|
  {
    if ks == [] then LeafDiffers(o, n) else DiffersAt(Child(o, ks[0]), Child(n, ks[0]), ks[1..])
  }

  ghost predicate DiffersBelow(o: Option<Json>, n: Option<Json>) {
    exists ks :: DiffersAt(o, n, ks)
  }

  /** The code's dot-path: an empty prefix adds no dot. */
  function Extend(prefix: string, k: string): string {
    if prefix == "" then k else prefix + "." + k
  }

  function Render(prefix: string, ks: seq<string>): string
    decreases |ks|
  {
    if ks == [] then prefix else Render(Extend(prefix, ks[0]), ks[1..])
  }

  /** Some position that differs renders as `path`. */
  ghost predicate ReportedFrom(o: Option<Json>, n: Option<Json>, prefix: string, path: string) {
    exists ks :: DiffersAt(o, n, ks) && Render(prefix, ks) == path
  }

  ghost predicate Reported(o: Fields, n: Fields, prefix: string, path: string) {
    exists k :: ReportedFrom(Get(o, k), Get(n, k), Extend(prefix, k), path)
  }

  // ----- the collector -----

  ghost function Height(j: Json): nat
    decreases j, 1, 0
  {
    if j.Obj? then 1 + Tallest(j, j.fields.Keys) else 0
  }

  ghost function Tallest(j: Json, ks: set<string>): (r: nat)
    requires j.Obj? && ks <= j.fields.Keys
    ensures forall k | k in ks :: Height(j.fields[k]) <= r
    decreases j, 0, |ks|
  {
    if ks == {} then 0
    else
      var k :| k in ks;
      var a, b := Height(j.fields[k]), Tallest(j, ks - {k});
      if a > b then a else b
  }

  function AsFields(j: Option<Json>): Fields {
    if IsObject(j) then j.value.fields else map[]
  }

  ghost function Rank(j: Option<Json>): nat {
    if j.Some? then Height(j.value) else 0
  }

  lemma ChildRank(j: Option<Json>, k: string)
    ensures Rank(Child(j, k)) <= Rank(j)
    ensures IsObject(Child(j, k)) ==> Height(Obj(AsFields(Child(j, k)))) < Rank(j)
    ensures IsObject(j) ==> Rank(Child(j, k)) < Rank(j)
  {
  }

  lemma EmptyRank()
    ensures Height(Obj(map[])) == 1
  {
  }

  /** collectChangedPaths: the keys of either side, in any order; it recurses whenever one side is an
      object. */
  method CollectChangedPaths(o: Fields, n: Fields, prefix: string, already: seq<string>) returns (out: seq<string>)
    ensures forall p :: p in out <==> p in already || Reported(o, n, prefix, p)
    decreases Height(Obj(o)) + Height(Obj(n))
  {
    hide Reported, ReportedFrom, DiffersAt, Render, Height;
    out := already;
    var todo := o.Keys + n.Keys;
    while todo != {}
      invariant todo <= o.Keys + n.Keys
      invariant forall p :: p in out <==> p in already || ReportedIn(o, n, prefix, (o.Keys + n.Keys) - todo, p)
      decreases |todo|
    {
      var k :| k in todo;
      ghost var done := (o.Keys + n.Keys) - todo;
      var path := Extend(prefix, k);
      var ov, nv := Get(o, k), Get(n, k);
      Under(ov, nv, path);
      OneMore(o, n, prefix, done, k);
      assert (o.Keys + n.Keys) - (todo - {k}) == done + {k};
      todo := todo - {k};
      if IsObject(ov) || IsObject(nv) {
        SmallerPair(o, n, k);
        out := CollectChangedPaths(AsFields(ov), AsFields(nv), path, out);
        if ov.Some? && nv.Some? && IsObject(ov) != IsObject(nv) { out := out + [path]; }
      } else if ov != nv {
        out := out + [path];
      }
    }
    AllKeys(o, n, prefix);
  }

  ghost predicate ReportedIn(o: Fields, n: Fields, prefix: string, done: set<string>, path: string) {
    exists k :: k in done && ReportedFrom(Get(o, k), Get(n, k), Extend(prefix, k), path)
  }

  lemma OneMore(o: Fields, n: Fields, prefix: string, done: set<string>, k: string)
    ensures forall p :: ReportedIn(o, n, prefix, done + {k}, p) <==>
                        ReportedIn(o, n, prefix, done, p) || ReportedFrom(Get(o, k), Get(n, k), Extend(prefix, k), p)
  {
    hide ReportedFrom;
  }

  lemma {:induction false} NothingDiffers(ks: seq<string>)
    ensures !DiffersAt(None, None, ks)
    decreases |ks|
  {
    if ks != [] { NothingDiffers(ks[1..]); }
  }

  lemma AllKeys(o: Fields, n: Fields, prefix: string)
    ensures forall p :: ReportedIn(o, n, prefix, o.Keys + n.Keys, p) <==> Reported(o, n, prefix, p)
  {
    forall p | Reported(o, n, prefix, p)
      ensures ReportedIn(o, n, prefix, o.Keys + n.Keys, p)
    {
      var k :| ReportedFrom(Get(o, k), Get(n, k), Extend(prefix, k), p);
      var ks :| DiffersAt(Get(o, k), Get(n, k), ks);
      if k !in o && k !in n { NothingDiffers(ks); }
    }
  }

  /** What is reported from a position: the position itself, or something under an object. */
  lemma Under(o: Option<Json>, n: Option<Json>, path: string)
    ensures forall p :: ReportedFrom(o, n, path, p) <==>
                        (LeafDiffers(o, n) && p == path) || Reported(AsFields(o), AsFields(n), path, p)
    ensures !IsObject(o) && !IsObject(n) ==> forall p :: !Reported(AsFields(o), AsFields(n), path, p)
  {
    forall p
      ensures ReportedFrom(o, n, path, p) <==>
              (LeafDiffers(o, n) && p == path) || Reported(AsFields(o), AsFields(n), path, p)
    {
      UnderAt(o, n, path, p);
    }
    if !IsObject(o) && !IsObject(n) {
      forall k, ks
        ensures !DiffersAt(Get(map[], k), Get(map[], k), ks)
      {
        NothingDiffers(ks);
      }
    }
  }

  lemma UnderAt(o: Option<Json>, n: Option<Json>, path: string, p: string)
    ensures ReportedFrom(o, n, path, p) <==>
            (LeafDiffers(o, n) && p == path) || Reported(AsFields(o), AsFields(n), path, p)
  {
    if ReportedFrom(o, n, path, p) {
      var ks :| DiffersAt(o, n, ks) && Render(path, ks) == p;
      if ks != [] {
        var k, rest := ks[0], ks[1..];
        SameChild(o, k);
        SameChild(n, k);
        assert DiffersAt(Get(AsFields(o), k), Get(AsFields(n), k), rest) && Render(Extend(path, k), rest) == p;
      }
    }
    if LeafDiffers(o, n) && p == path {
      assert DiffersAt(o, n, []) && Render(path, []) == p;
    }
    if Reported(AsFields(o), AsFields(n), path, p) {
      var k :| ReportedFrom(Get(AsFields(o), k), Get(AsFields(n), k), Extend(path, k), p);
      var ks :| DiffersAt(Get(AsFields(o), k), Get(AsFields(n), k), ks) && Render(Extend(path, k), ks) == p;
      SameChild(o, k);
      SameChild(n, k);
      var all := [k] + ks;
      assert all[0] == k && all[1..] == ks;
      assert DiffersAt(o, n, all) && Render(path, all) == p;
    }
  }

  lemma SameChild(j: Option<Json>, k: string)
    ensures Child(j, k) == Get(AsFields(j), k)
  {
  }

  lemma SmallerPair(o: Fields, n: Fields, k: string)
    requires IsObject(Get(o, k)) || IsObject(Get(n, k))
    ensures Height(Obj(AsFields(Get(o, k)))) + Height(Obj(AsFields(Get(n, k)))) < Height(Obj(o)) + Height(Obj(n))
  {
    EmptyRank();
    ChildRank(Some(Obj(o)), k);
    ChildRank(Some(Obj(n)), k);
  }

  // ----- equality up to empty objects -----

  /** The tree without empty objects; nothing when only empty objects are left. */
  function PruneJson(j: Json): Option<Json>
    decreases j
  {
    if !j.Obj? then Some(j)
    else
      var kept := map k | k in j.fields && PruneJson(j.fields[k]).Some? :: PruneJson(j.fields[k]).value;
      if kept == map[] then None else Some(Obj(kept))
  }

  function Prune(j: Option<Json>): Option<Json> {
    if j.Some? then PruneJson(j.value) else None
  }

  lemma ChildPrune(j: Option<Json>, k: string)
    ensures Child(Prune(j), k) == Prune(Child(j, k))
  {
    if IsObject(j) {
      var m := j.value.fields;
      var kept := map k | k in m && PruneJson(m[k]).Some? :: PruneJson(m[k]).value;
      if k in kept { assert kept != map[]; }
    }
  }

  lemma {:induction false} PrunedAlike(o: Option<Json>, n: Option<Json>, ks: seq<string>)
    requires Prune(o) == Prune(n)
    ensures !DiffersAt(o, n, ks)
    decreases |ks|
  {
    if ks != [] {
      ChildPrune(o, ks[0]);
      ChildPrune(n, ks[0]);
      PrunedAlike(Child(o, ks[0]), Child(n, ks[0]), ks[1..]);
    }
  }

  lemma {:induction false} AlikePruned(o: Option<Json>, n: Option<Json>)
    requires !DiffersBelow(o, n)
    ensures Prune(o) == Prune(n)
    decreases Rank(o) + Rank(n)
  {
    assert !DiffersAt(o, n, []);
    if IsObject(o) || IsObject(n) {
      forall k
        ensures Prune(Child(o, k)) == Prune(Child(n, k))
      {
        forall ks
          ensures !DiffersAt(Child(o, k), Child(n, k), ks)
        {
          var all := [k] + ks;
          assert all[0] == k && all[1..] == ks && !DiffersAt(o, n, all);
        }
        ChildRank(o, k);
        ChildRank(n, k);
        AlikePruned(Child(o, k), Child(n, k));
      }
      ByChildren(o, n);
    }
  }

  lemma ByChildren(o: Option<Json>, n: Option<Json>)
    requires (IsObject(o) || o.None?) && (IsObject(n) || n.None?)
    requires forall k :: Prune(Child(o, k)) == Prune(Child(n, k))
    ensures Prune(o) == Prune(n)
  {
    forall k
      ensures Child(Prune(o), k) == Child(Prune(n), k)
    {
      ChildPrune(o, k);
      ChildPrune(n, k);
    }
    SameChildren(o, n);
  }

  lemma SameChildren(o: Option<Json>, n: Option<Json>)
    requires (IsObject(o) || o.None?) && (IsObject(n) || n.None?)
    requires forall k :: Child(Prune(o), k) == Child(Prune(n), k)
    ensures Prune(o) == Prune(n)
  {
    PrunedShape(o);
    PrunedShape(n);
    hide Prune;
    var a, b := AsFields(Prune(o)), AsFields(Prune(n));
    forall k
      ensures Get(a, k) == Get(b, k)
    {
      SameChild(Prune(o), k);
      SameChild(Prune(n), k);
    }
    SameFields(a, b);
  }

  lemma PrunedShape(j: Option<Json>)
    requires IsObject(j) || j.None?
    ensures Prune(j).None? || (IsObject(Prune(j)) && Prune(j).value.fields != map[])
  {
  }

  /** The trees differ somewhere exactly when they differ after pruning empty objects. */
  lemma DiffersIffPruned(o: Option<Json>, n: Option<Json>)
    ensures DiffersBelow(o, n) <==> Prune(o) != Prune(n)
  {
    if !DiffersBelow(o, n) {
      AlikePruned(o, n);
    } else if Prune(o) == Prune(n) {
      var ks :| DiffersAt(o, n, ks);
      PrunedAlike(o, n, ks);
    }
  }

  /** The changed list is empty exactly when the values are equal after pruning empty objects. */
  lemma UnchangedIff(o: Fields, n: Fields)
    ensures (forall p :: !Reported(o, n, "", p)) <==> Prune(Some(Obj(o))) == Prune(Some(Obj(n)))
  {
    var a, b := Some(Obj(o)), Some(Obj(n));
    DiffersIffPruned(a, b);
    if DiffersBelow(a, b) {
      var ks :| DiffersAt(a, b, ks);
      ReportedAt(o, n, ks);
    } else {
      forall p
        ensures !Reported(o, n, "", p)
      {
        UnderAt(a, b, "", p);
      }
    }
  }

  // ----- the immutability check -----

  const ALWAYS: seq<string> := ["name", "railgridMode", "expose", "credentialsSecretName"]

  predicate Blocks(imm: string, path: string) {
    path == imm || HasPrefix(path, imm + ".")
  }

  ghost predicate Accepts(o: Fields, n: Fields, immutable: seq<string>) {
    forall p, imm | Reported(o, n, "", p) && imm in immutable :: !Blocks(imm, p)
  }

  /** rejectImmutableChanges */
  method RejectImmutableChanges(changed: seq<string>, immutable: seq<string>) returns (ok: bool)
    ensures ok <==> forall p, imm | p in changed && imm in immutable :: !Blocks(imm, p)
  {
    for i := 0 to |changed|
      invariant forall j, imm | 0 <= j < i && imm in immutable :: !Blocks(imm, changed[j])
    {
      for m := 0 to |immutable|
        invariant forall l | 0 <= l < m :: !Blocks(immutable[l], changed[i])
      {
        if changed[i] == immutable[m] || HasPrefix(changed[i], immutable[m] + ".") {
          assert changed[i] in changed && immutable[m] in immutable;
          return false;
        }
      }
    }
    return true;
  }

  datatype UpdateResult = Unchanged | Rejected | Updated(merged: Fields)

  /** The decision of an instance update. */
  method Update(values: Fields, patch: Fields, declared: seq<string>) returns (r: UpdateResult)
    ensures var merged := MergePatch(Obj(values), Obj(patch));
            match r
            case Unchanged => Prune(Some(Obj(values))) == Prune(Some(merged))
            case Updated(m) =>
              && Prune(Some(Obj(values))) != Prune(Some(merged))
              && Obj(m) == merged && Accepts(values, m, ALWAYS + declared)
            case Rejected =>
              && Prune(Some(Obj(values))) != Prune(Some(merged))
              && merged.Obj? && !Accepts(values, merged.fields, ALWAYS + declared)
    ensures forall input | input in {"name", "railgridMode", "expose", "credentialsSecretName"} ::
              var merged := MergePatch(Obj(values), Obj(patch));
              Prune(Get(values, input)) != Prune(Child(Some(merged), input)) ==> r.Rejected?
    ensures forall imm, ks | imm in declared && imm != "" && Render("", ks) == imm ::
              var merged := MergePatch(Obj(values), Obj(patch));
              Prune(Lookup(Some(Obj(values)), ks)) != Prune(Lookup(Some(merged), ks)) ==> r.Rejected?
  {
    hide PruneJson, Reported, Blocks, MergePatch;
    var merged := MergePatchValues(values, patch);
    var changed := CollectChangedPaths(values, merged, "", []);
    UnchangedIff(values, merged);
    ImmutableKept(values, merged, declared);
    if |changed| == 0 { return Unchanged; }
    assert changed[0] in changed;
    var ok := RejectImmutableChanges(changed, ALWAYS + declared);
    if !ok { return Rejected; }
    return Updated(merged);
  }

  /** An update that changes nothing, or is accepted, keeps the four inputs that no update may change and
      those the template declares. */
  lemma ImmutableKept(o: Fields, n: Fields, declared: seq<string>)
    ensures Prune(Some(Obj(o))) == Prune(Some(Obj(n))) || Accepts(o, n, ALWAYS + declared) ==>
              && (forall input | input in {"name", "railgridMode", "expose", "credentialsSecretName"} ::
                    Prune(Get(o, input)) == Prune(Get(n, input)))
              && forall imm, ks | imm in declared && imm != "" && Render("", ks) == imm :: Keeps(o, n, ks)
  {
    hide PruneJson, Accepts;
    if Prune(Some(Obj(o))) == Prune(Some(Obj(n))) || Accepts(o, n, ALWAYS + declared) {
      forall input | input in {"name", "railgridMode", "expose", "credentialsSecretName"}
        ensures Prune(Get(o, input)) == Prune(Get(n, input))
      {
        assert input in ALWAYS + declared && input != "";
        OneKey(o, input);
        OneKey(n, input);
        KeptAt(o, n, ALWAYS + declared, input, [input]);
      }
      forall imm, ks | imm in declared && imm != "" && Render("", ks) == imm
        ensures Keeps(o, n, ks)
      {
        KeptAt(o, n, ALWAYS + declared, imm, ks);
      }
    }
  }

  lemma OneKey(m: Fields, k: string)
    ensures Render("", [k]) == k && Lookup(Some(Obj(m)), [k]) == Get(m, k)
  {
    assert [k][1..] == [];
  }

  lemma KeptAt(o: Fields, n: Fields, immutable: seq<string>, imm: string, ks: seq<string>)
    requires Prune(Some(Obj(o))) == Prune(Some(Obj(n))) || Accepts(o, n, immutable)
    requires imm in immutable && imm != "" && Render("", ks) == imm
    ensures Keeps(o, n, ks)
  {
    hide PruneJson, Accepts;
    if Accepts(o, n, immutable) {
      AcceptedKeeps(o, n, immutable, imm, ks);
    } else {
      var a, b := Some(Obj(o)), Some(Obj(n));
      DiffersIffPruned(a, b);
      DiffersIffPruned(Lookup(a, ks), Lookup(b, ks));
      if js :| DiffersAt(Lookup(a, ks), Lookup(b, ks), js) { DiffersAppend(a, b, ks, js); }
    }
  }

  lemma {:induction false} DiffersAppend(o: Option<Json>, n: Option<Json>, ks: seq<string>, js: seq<string>)
    ensures DiffersAt(o, n, ks + js) == DiffersAt(Lookup(o, ks), Lookup(n, ks), js)
    decreases |ks|
  {
    if ks == [] {
      assert ks + js == js;
    } else {
      assert (ks + js)[1..] == ks[1..] + js;
      DiffersAppend(Child(o, ks[0]), Child(n, ks[0]), ks[1..], js);
    }
  }

  lemma {:induction false} RenderAppend(prefix: string, ks: seq<string>, js: seq<string>)
    ensures Render(prefix, ks + js) == Render(Render(prefix, ks), js)
    decreases |ks|
  {
    if ks == [] {
      assert ks + js == js;
    } else {
      assert (ks + js)[1..] == ks[1..] + js;
      RenderAppend(Extend(prefix, ks[0]), ks[1..], js);
    }
  }

  lemma {:induction false} RenderBlocked(prefix: string, js: seq<string>)
    requires prefix != ""
    ensures Blocks(prefix, Render(prefix, js))
    decreases |js|
  {
    if js != [] {
      RenderBlocked(Extend(prefix, js[0]), js[1..]);
    }
  }

  ghost predicate Keeps(o: Fields, n: Fields, ks: seq<string>) {
    Prune(Lookup(Some(Obj(o)), ks)) == Prune(Lookup(Some(Obj(n)), ks))
  }

  /** If an update is accepted, every value an immutable dot-path can name is unchanged up to empty
      objects, at whatever keys the path is read. */
  lemma AcceptedKeeps(o: Fields, n: Fields, immutable: seq<string>, imm: string, ks: seq<string>)
    requires Accepts(o, n, immutable) && imm in immutable && imm != "" && Render("", ks) == imm
    ensures Keeps(o, n, ks)
  {
    var a, b := Some(Obj(o)), Some(Obj(n));
    DiffersIffPruned(Lookup(a, ks), Lookup(b, ks));
    hide PruneJson, Reported, Blocks;
    if DiffersBelow(Lookup(a, ks), Lookup(b, ks)) {
      var js :| DiffersAt(Lookup(a, ks), Lookup(b, ks), js);
      DiffersAppend(a, b, ks, js);
      RenderAppend("", ks, js);
      RenderBlocked(imm, js);
      ReportedAt(o, n, ks + js);
      assert false;
    }
  }

  lemma ReportedAt(o: Fields, n: Fields, ks: seq<string>)
    requires DiffersAt(Some(Obj(o)), Some(Obj(n)), ks)
    ensures Reported(o, n, "", Render("", ks))
  {
    var a, b := Some(Obj(o)), Some(Obj(n));
    UnderAt(a, b, "", Render("", ks));
  }

  // ----- exactly when -----

  /** Field names without dots, and not empty, everywhere in the tree. */
  predicate PlainJson(j: Json)
    decreases j
  {
    j.Obj? ==> forall k | k in j.fields :: PlainKey(k) && PlainJson(j.fields[k])
  }

  predicate PlainKey(k: string) { k != "" && '.' !in k }

  ghost predicate PlainKeys(ks: seq<string>) { forall k | k in ks :: PlainKey(k) }

  lemma {:induction false} DiffersPlain(o: Option<Json>, n: Option<Json>, ks: seq<string>)
    requires (o.Some? ==> PlainJson(o.value)) && (n.Some? ==> PlainJson(n.value)) && DiffersAt(o, n, ks)
    ensures PlainKeys(ks)
    decreases |ks|
  {
    if ks != [] {
      var k := ks[0];
      if Child(o, k).None? && Child(n, k).None? { NothingDiffers(ks[1..]); }
      DiffersPlain(Child(o, k), Child(n, k), ks[1..]);
      assert forall x | x in ks :: x == ks[0] || x in ks[1..];
    }
  }

  /** On plain keys the rendered path is the keys joined by dots. */
  lemma {:induction false} RenderJoins(prefix: string, ks: seq<string>)
    requires PlainKeys(ks) && ks != []
    ensures Render(prefix, ks) == Extend(prefix, Join(ks, '.'))
    decreases |ks|
  {
    var k, rest := ks[0], ks[1..];
    assert ks[0] in ks && forall x | x in rest :: x in ks;
    if rest != [] {
      RenderJoins(Extend(prefix, k), rest);
      assert prefix + "." + (k + "." + Join(rest, '.')) == prefix + "." + k + "." + Join(rest, '.');
    }
  }

  /** On plain keys a blocked path runs through the immutable one. */
  lemma BlockedThrough(imm: string, ks: seq<string>)
    requires PlainKeys(ks) && ks != [] && Blocks(imm, Render("", ks))
    ensures exists m :: 0 < m <= |ks| && Render("", ks[..m]) == imm
  {
    var p := Render("", ks);
    RenderJoins("", ks);
    if p == imm {
      assert ks[..|ks|] == ks;
    } else {
      var rest := p[|imm| + 1..];
      PrefixParts(p, imm + ".");
      assert p == imm + ['.'] + rest;
      SplitAppend(imm, '.', rest);
      SplitJoin(ks, '.');
      var front := Split(imm, '.');
      var m := |front|;
      assert ks == front + Split(rest, '.');
      assert ks[..m] == front;
      assert forall x | x in front :: x in ks;
      RenderJoins("", front);
      JoinSplit(imm, '.');
    }
  }

  /** For trees without empty or dotted field names the check is exact: an update is accepted if and
      only if every immutable path keeps its value up to empty objects. */
  lemma AcceptanceExact(o: Fields, n: Fields, immutable: seq<string>)
    requires PlainJson(Obj(o)) && PlainJson(Obj(n))
    ensures Accepts(o, n, immutable) <==>
            forall imm, ks | imm in immutable && ks != [] && Render("", ks) == imm :: Keeps(o, n, ks)
  {
    if Accepts(o, n, immutable) {
      forall imm, ks | imm in immutable && ks != [] && Render("", ks) == imm
        ensures Keeps(o, n, ks)
      {
        if imm != "" {
          AcceptedKeeps(o, n, immutable, imm, ks);
        } else {
          EmptyPathKeeps(o, n, ks);
        }
      }
    } else {
      var p, imm :| Reported(o, n, "", p) && imm in immutable && Blocks(imm, p);
      var m, ks := BlockedChange(o, n, imm, p);
      assert !Keeps(o, n, ks[..m]);
    }
  }

  lemma BlockedChange(o: Fields, n: Fields, imm: string, p: string) returns (m: nat, ks: seq<string>)
    requires PlainJson(Obj(o)) && PlainJson(Obj(n)) && Reported(o, n, "", p) && Blocks(imm, p)
    ensures 0 < m <= |ks| && Render("", ks[..m]) == imm && !Keeps(o, n, ks[..m])
  {
    var a, b := Some(Obj(o)), Some(Obj(n));
    UnderAt(a, b, "", p);
    ks :| DiffersAt(a, b, ks) && Render("", ks) == p;
    DiffersPlain(a, b, ks);
    BlockedThrough(imm, ks);
    m :| 0 < m <= |ks| && Render("", ks[..m]) == imm;
    assert ks == ks[..m] + ks[m..];
    DiffersAppend(a, b, ks[..m], ks[m..]);
    DiffersIffPruned(Lookup(a, ks[..m]), Lookup(b, ks[..m]));
  }

  lemma {:induction false} RenderGrows(prefix: string, ks: seq<string>)
    requires prefix != ""
    ensures Render(prefix, ks) != ""
    decreases |ks|
  {
    if ks != [] { RenderGrows(Extend(prefix, ks[0]), ks[1..]); }
  }

  lemma EmptyPathKeeps(o: Fields, n: Fields, ks: seq<string>)
    requires PlainJson(Obj(o)) && PlainJson(Obj(n)) && ks != [] && Render("", ks) == ""
    ensures Keeps(o, n, ks)
  {
    if ks[0] != "" { RenderGrows(ks[0], ks[1..]); }
    assert "" !in o && "" !in n;
    assert Child(Some(Obj(o)), ks[0]) == None && Child(Some(Obj(n)), ks[0]) == None;
  }

  // ----- where it is not -----

  /** An empty immutable path protects nothing below the empty field name: no dot separates it. */
  lemma EmptyInputUnprotected() returns (o: Fields, n: Fields)
    ensures Accepts(o, n, [""]) && Render("", [""]) == "" && !Keeps(o, n, [""])
  {
    o := map["" := Obj(map["a" := Number("1")])];
    n := map["" := Obj(map["a" := Number("2")])];
    var a, b := Some(Obj(o)), Some(Obj(n));
    forall p | Reported(o, n, "", p)
      ensures p == "a"
    {
      UnderAt(a, b, "", p);
      var ks :| DiffersAt(a, b, ks) && Render("", ks) == p;
      OnlyDifference(ks);
    }
    assert !Blocks("", "a") by {
      var dot, path := "" + ".", "a";
      assert dot[0] == '.' && path[0] == 'a';
    }
    assert Child(Child(a, ""), "a") == Some(Number("1")) && Child(Child(b, ""), "a") == Some(Number("2"));
    assert [""][1..] == [] && ["a"][1..] == [];
    assert DiffersAt(Child(a, ""), Child(b, ""), ["a"]);
    DiffersIffPruned(Child(a, ""), Child(b, ""));
    assert Lookup(a, [""]) == Child(a, "") && Lookup(b, [""]) == Child(b, "");
  }

  lemma OnlyDifference(ks: seq<string>)
    requires DiffersAt(Some(Obj(map["" := Obj(map["a" := Number("1")])])),
             Some(Obj(map["" := Obj(map["a" := Number("2")])])), ks)
    ensures ks == ["", "a"] && Render("", ks) == "a"
  {
    if ks[0] != "" { NothingDiffers(ks[1..]); }
    if |ks| > 1 && ks[1] != "a" { NothingDiffers(ks[2..]); }
    assert ks[1..][1..] == ks[2..];
    if |ks| > 2 {
      var rest := ks[2..];
      assert DiffersAt(Some(Number("1")), Some(Number("2")), rest);
      NothingDiffers(rest[1..]);
    }
    assert ks == ["", "a"];
    assert ks[1..] == ["a"] && ["a"][1..] == [];
    assert Render("", ks) == Render("", ["a"]) == Render("a", []);
  }

  /** A field name with a dot is mistaken for a path: an unrelated change is refused. */
  lemma DottedNameRefused() returns (o: Fields, n: Fields)
    ensures !Accepts(o, n, ["a"]) && forall ks | ks != [] && Render("", ks) == "a" :: Keeps(o, n, ks)
  {
    o := map["a.b" := Number("1")];
    n := map["a.b" := Number("2")];
    var a, b := Some(Obj(o)), Some(Obj(n));
    var key := "a.b";
    assert [key][1..] == [];
    assert DiffersAt(Child(a, key), Child(b, key), []);
    assert DiffersAt(a, b, [key]) && Render("", [key]) == key;
    ReportedAt(o, n, [key]);
    assert key == "a" + "." + "b";
    assert Blocks("a", key);
    forall ks | ks != [] && Render("", ks) == "a"
      ensures Keeps(o, n, ks)
    {
      if ks[0] == key {
        RenderBlocked(key, ks[1..]);
      } else {
        assert Child(a, ks[0]) == None && Child(b, ks[0]) == None;
      }
    }
  }
}
