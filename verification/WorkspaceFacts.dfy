/** What the functions that specify the workspace store mean, file by file and command by command. */
module WorkspaceFacts {
  import opened Collections
  import opened GoStrings
  import opened WorkspaceDigest
  import opened WorkspaceModel
  import opened WorkspaceStore

  // ----- bundles and edits -----

  predicate Names(files: seq<SourceFile>, p: Path) {
    exists f :: f in files && f.path == p
  }

  /** A bundle holds the paths it names, each with the content of its last entry. */
  lemma {:induction false} BundleAt(files: seq<SourceFile>, p: Path)
    ensures p in Bundle(files) <==> Names(files, p)
    ensures forall i | 0 <= i < |files| && files[i].path == p && (forall j | i < j < |files| :: files[j].path != p) ::
              p in Bundle(files) && Bundle(files)[p] == files[i].content
  {
    if files != [] {
      var front, last := files[..|files| - 1], files[|files| - 1];
      BundleAt(front, p);
      assert files == front + [last];
      assert forall f :: f in files <==> f in front || f == last;
      forall i | 0 <= i < |files| && files[i].path == p && (forall j | i < j < |files| :: files[j].path != p)
        ensures p in Bundle(files) && Bundle(files)[p] == files[i].content
      {
        if i < |front| {
          assert front[i] == files[i] && last == files[|files| - 1] && last.path != p;
          assert forall j | i < j < |front| :: front[j] == files[j];
        }
      }
    }
  }

  /** Of different paths, every entry counts. */
  lemma BundleHolds(files: seq<SourceFile>, f: SourceFile)
    requires DistinctPaths(files) && f in files
    ensures f.path in Bundle(files) && Bundle(files)[f.path] == f.content
  {
    var i :| 0 <= i < |files| && files[i] == f;
    BundleAt(files, f.path);
    assert files[i].path == f.path;
  }

  /** The last edit of a path decides. */
  lemma {:induction false} EditedBy(t: Tree, edits: seq<Edit>, i: nat)
    requires i < |edits| && forall j | i < j < |edits| :: edits[j].path != edits[i].path
    ensures match edits[i]
            case Write(p, c) => p in EditTree(t, edits) && EditTree(t, edits)[p] == c
            case Delete(p) => p !in EditTree(t, edits)
    decreases |edits|
  {
    if i < |edits| - 1 {
      var front := edits[..|edits| - 1];
      assert front[i] == edits[i] && forall j | i < j < |front| :: front[j] == edits[j];
      EditedBy(t, front, i);
      assert edits[|edits| - 1].path != edits[i].path;
    }
  }

  /** A path no edit names stays as it was. */
  lemma {:induction false} Unedited(t: Tree, edits: seq<Edit>, p: Path)
    requires forall e | e in edits :: e.path != p
    ensures p in EditTree(t, edits) <==> p in t
    ensures p in t ==> EditTree(t, edits)[p] == t[p]
    decreases |edits|
  {
    if edits != [] {
      assert edits[|edits| - 1] in edits && forall e | e in edits[..|edits| - 1] :: e in edits;
      Unedited(t, edits[..|edits| - 1], p);
    }
  }

  // ----- what a sync reports and runs, in which order -----

  /** Ascending positions below `n`. */
  ghost predicate Increasing(at: seq<nat>, n: nat) {
    (forall i | 0 <= i < |at| :: at[i] < n) && forall i, j | 0 <= i < j < |at| :: at[i] < at[j]
  }

  lemma IncreasingMore(at: seq<nat>, n: nat)
    requires Increasing(at, n)
    ensures Increasing(at + [n], n + 1) && Increasing(at, n + 1) && n !in at
    ensures forall k :: k in at + [n] <==> k in at || k == n
  {
  }

  /** The content of file `k` is not what is on disk. */
  predicate DiffersFrom(disk: Tree, files: seq<SourceFile>, k: nat) {
    k < |files| && (files[k].path !in disk || disk[files[k].path] != files[k].content)
  }

  /** With different paths a sync writes exactly the files whose content differs, in the bundle's order. */
  lemma {:induction false} ChangesAre(disk: Tree, files: seq<SourceFile>) returns (at: seq<nat>)
    requires DistinctPaths(files)
    ensures Increasing(at, |files|) && |at| == |Changes(disk, files)|
    ensures forall i | 0 <= i < |at| :: files[at[i]].path == Changes(disk, files)[i]
    ensures forall k | 0 <= k < |files| :: k in at <==> DiffersFrom(disk, files, k)
    decreases |files|
  {
    at := [];
    if files != [] {
      var front, n := files[..|files| - 1], |files| - 1;
      LastChanges(disk, files);
      at := ChangesAre(disk, front);
      hide DiffersFrom, Changes, DistinctPaths;
      IncreasingMore(at, n);
      if DiffersFrom(disk, files, n) { at := at + [n]; }
    }
  }

  lemma LastChanges(disk: Tree, files: seq<SourceFile>)
    requires files != [] && DistinctPaths(files)
    ensures var front, n := files[..|files| - 1], |files| - 1;
            && DistinctPaths(front)
            && (forall k | 0 <= k < n :: DiffersFrom(disk, front, k) <==> DiffersFrom(disk, files, k))
            && Changes(disk, files) ==
               Changes(disk, front) + if DiffersFrom(disk, files, n) then [files[n].path] else []
  {
    var front, n := files[..|files| - 1], |files| - 1;
    BundleAt(front, files[n].path);
    assert files[n].path !in Bundle(front);
    hide Bundle;
  }

  ghost predicate FiresAt(rules: seq<Rule>, k: nat, globs: Glob, touched: seq<Path>) {
    k < |rules| && exists g, p :: g in rules[k].paths && p in touched && globs(g, p)
  }

  /** The first rule with its command that fires. */
  ghost predicate FirstAt(rules: seq<Rule>, k: nat, globs: Glob, touched: seq<Path>) {
    FiresAt(rules, k, globs, touched) &&
    forall j | 0 <= j < k && rules[j].command == rules[k].command :: !FiresAt(rules, j, globs, touched)
  }

  /** The commands of the rules that fire, in declaration order, each at the first rule that names it. */
  lemma {:induction false} MatchedAre(rules: seq<Rule>, globs: Glob, touched: seq<Path>) returns (at: seq<nat>)
    ensures Increasing(at, |rules|) && |at| == |Matched(rules, globs, touched)|
    ensures forall i | 0 <= i < |at| :: rules[at[i]].command == Matched(rules, globs, touched)[i]
    ensures forall k | 0 <= k < |rules| :: k in at <==> FirstAt(rules, k, globs, touched)
    decreases |rules|
  {
    at := [];
    if rules != [] {
      hide FiresAt, Fires, FirstAt;
      var front, n := rules[..|rules| - 1], |rules| - 1;
      at := MatchedAre(front, globs, touched);
      IncreasingMore(at, n);
      FirstFront(rules, globs, touched);
      if FirstAt(rules, n, globs, touched) { at := at + [n]; }
    }
  }

  lemma FirstFront(rules: seq<Rule>, globs: Glob, touched: seq<Path>)
    requires rules != []
    ensures var front, n := rules[..|rules| - 1], |rules| - 1;
            && (forall k | 0 <= k < n :: FirstAt(front, k, globs, touched) <==> FirstAt(rules, k, globs, touched))
            && (FirstAt(rules, n, globs, touched) <==>
                  rules[n].command !in Matched(front, globs, touched) && Fires(globs, rules[n], touched))
  {
    var front, n := rules[..|rules| - 1], |rules| - 1;
    var c := rules[n].command;
    assert forall k | 0 <= k < n :: FiresAt(front, k, globs, touched) <==> FiresAt(rules, k, globs, touched);
    MatchedFacts(front, globs, touched);
    if c in Matched(front, globs, touched) {
      var r :| r in front && r.command == c && Fires(globs, r, touched);
      var j :| 0 <= j < n && front[j] == r;
      assert FiresAt(rules, j, globs, touched);
    }
    forall j | 0 <= j < n && FiresAt(rules, j, globs, touched) && rules[j].command == c
      ensures c in Matched(front, globs, touched)
    {
      assert front[j] in front && Fires(globs, front[j], touched);
    }
  }

  /** The string is not empty and does not occur before. */
  predicate FreshAt(all: seq<string>, k: nat) {
    k < |all| && all[k] != "" && forall j | 0 <= j < k :: all[j] != all[k]
  }

  /** The first occurrence of every non-empty string, in order. */
  lemma {:induction false} DeduplicatedAre(all: seq<string>) returns (at: seq<nat>)
    ensures Increasing(at, |all|) && |at| == |Deduplicated(all)|
    ensures forall i | 0 <= i < |at| :: all[at[i]] == Deduplicated(all)[i]
    ensures forall k | 0 <= k < |all| :: k in at <==> FreshAt(all, k)
    decreases |all|
  {
    at := [];
    if all != [] {
      hide FreshAt;
      var front, n := all[..|all| - 1], |all| - 1;
      at := DeduplicatedAre(front);
      IncreasingMore(at, n);
      FreshFront(all);
      if FreshAt(all, n) { at := at + [n]; }
    }
  }

  lemma FreshFront(all: seq<string>)
    requires all != []
    ensures var front, n := all[..|all| - 1], |all| - 1;
            && (forall k | 0 <= k < n :: FreshAt(front, k) <==> FreshAt(all, k))
            && (FreshAt(all, n) <==> all[n] != "" && all[n] !in Deduplicated(front))
  {
    var front, n := all[..|all| - 1], |all| - 1;
    DeduplicatedFacts(front);
    assert all[n] in front <==> exists j :: 0 <= j < n && front[j] == all[n];
  }

  // ----- paths -----

  /** The strings are the same but for ASCII capitals in the first. */
  predicate SameLetters(a: string, b: string) {
    |a| == |b| && forall i | 0 <= i < |a| :: a[i] == b[i] || ('A' <= a[i] <= 'Z' && b[i] as int == a[i] as int + 32)
  }

  lemma LowerIs(a: string, b: string)
    requires forall c | c in b :: !('A' <= c <= 'Z')
    ensures ToLower(a) == b <==> SameLetters(a, b)
  {
    assert forall i | 0 <= i < |b| :: b[i] in b;
    if SameLetters(a, b) {
      assert forall i | 0 <= i < |a| :: ToLower(a)[i] == b[i];
    }
  }

  predicate Reserved(part: string) {
    SameLetters(part, ".git") || SameLetters(part, "node_modules") || SameLetters(part, ".assistant-snapshots")
  }

  /** A path is manageable when none of its components is one of the three reserved names, in any case. */
  lemma ManageableIs(parts: seq<string>)
    requires parts != [] && forall part | part in parts :: '/' !in part
    ensures Manageable(Join(parts, '/')) <==> forall part | part in parts :: !Reserved(part)
  {
    hide Split, Join, ToLower, SameLetters;
    SplitJoin(parts, '/');
    forall part | part in parts
      ensures Reserved(part) <==>
              ToLower(part) == ".git" || ToLower(part) == "node_modules" || ToLower(part) == ".assistant-snapshots"
    {
      LowerIs(part, ".git");
      LowerIs(part, "node_modules");
      LowerIs(part, ".assistant-snapshots");
    }
  }

  /** What a plain sync manages: what was listed or is a manageable path of the bundle, except what it was
      asked to delete, or what lies beneath that. */
  lemma PlainManagedIs(previous: Option<Manifest>, files: seq<SourceFile>, deletePaths: seq<Path>, p: Path)
    ensures p in PlainManaged(previous, Bundle(files).Keys, deletePaths) <==>
            && ((previous.Some? && p in previous.value.files) ||
                (Manageable(p) && exists f :: f in files && f.path == p))
            && forall d | d in deletePaths :: p != d && !HasPrefix(p, d + "/")
  {
    hide Manageable, Bundle, HasPrefix;
    BundleAt(files, p);
  }

  /** What an authoritative sync deletes: outside its bundle, what was managed, or without a readable
      manifest what the request names. */
  lemma DoomedAre(previous: Option<Manifest>, deletePaths: seq<Path>, files: seq<SourceFile>, p: Path)
    ensures p in Doomed(previous, deletePaths, Bundle(files).Keys) <==>
            && (if previous.Some? then p in previous.value.files else p in deletePaths)
            && forall f | f in files :: f.path != p
  {
    hide Bundle;
    BundleAt(files, p);
  }
}
