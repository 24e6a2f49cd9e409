/** What the steps of a run leave on disk and in the manifest, file by file and command by command. */
module WorkspaceEffects {
  import opened Collections
  import opened GoStrings
  import opened WorkspaceDigest
  import opened WorkspaceModel
  import opened WorkspaceStore
  import opened WorkspaceFacts
  import opened WorkspaceRuns

  /** The disks hold the same at `p`. */
  predicate SameAt(t: Tree, u: Tree, p: Path) {
    (p in t <==> p in u) && (p in t && p in u ==> t[p] == u[p])
  }

  // ----- authoritative sync -----

  /** A full authoritative sync that answered 200: every file of the bundle has its bytes and is managed,
      what was managed before (or, without a readable manifest, what the request names for deletion) is
      gone unless it is in the bundle, and every other file is as the last hook left it. Its commands were
      all run, or are all pending. */
  lemma FullSyncLeaves(c: Config, w: World, op: Op, w': World)
    requires op.AuthoritativeSync? && op.status == 200 && Step(c, w, op, w') && !RepeatSync(w, op.req, w')
    ensures w'.stored.Kept? && w'.stored.manifest.revision == op.req.revision
    ensures Some(w'.stored.manifest.digest) == op.req.digest
    ensures forall f | f in op.req.files && f.path != TMP :: f.path in w'.disk && w'.disk[f.path] == f.content
    ensures forall p :: p in w'.stored.manifest.files <==> exists f :: f in op.req.files && f.path == p
    ensures forall p | forall f | f in op.req.files :: f.path != p ::
              if p == TMP || (Found(w.stored).Some? && p in Found(w.stored).value.files) ||
                 (Found(w.stored).None? && p in op.req.deletePaths)
              then p !in w'.disk
              else SameAt(if op.hooked then op.hookDisk else w.disk, w'.disk, p)
    ensures || (w'.stored.manifest.pending == ToRun(c, w, op) && op.ran == [])
            || (w'.stored.manifest.pending == [] && op.ran == ToRun(c, w, op))
  {
    hide InOrder, TreeDigest, Bundle, Commands, SyncTouched, StoredAdvances, PendingCarried, PendingBounded, Doomed,
      RepeatSync, Manageable, Found, Synced;
    var bundle := Bundle(op.req.files);
    var doomed := Doomed(Found(w.stored), op.req.deletePaths, bundle.Keys);
    forall f | f in op.req.files && f.path != TMP
      ensures f.path in w'.disk && w'.disk[f.path] == f.content
    {
      BundleHolds(op.req.files, f);
      SyncedAt(SyncBase(w, op), doomed, bundle, f.path);
    }
    forall p
      ensures p in w'.stored.manifest.files <==> exists f :: f in op.req.files && f.path == p
    {
      BundleAt(op.req.files, p);
    }
    forall p | forall f | f in op.req.files :: f.path != p
      ensures if p == TMP || (Found(w.stored).Some? && p in Found(w.stored).value.files) ||
                 (Found(w.stored).None? && p in op.req.deletePaths)
              then p !in w'.disk
              else SameAt(if op.hooked then op.hookDisk else w.disk, w'.disk, p)
    {
      BundleAt(op.req.files, p);
      DoomedAre(Found(w.stored), op.req.deletePaths, op.req.files, p);
      SyncedAt(SyncBase(w, op), doomed, bundle, p);
    }
  }

  lemma SyncedAt(base: Tree, doomed: set<Path>, bundle: Tree, p: Path)
    ensures p in bundle && p != TMP ==>
              p in Synced(base, doomed, bundle) && Synced(base, doomed, bundle)[p] == bundle[p]
    ensures p !in bundle && (p == TMP || p in doomed) ==> p !in Synced(base, doomed, bundle)
    ensures p !in bundle && p != TMP && p !in doomed ==> SameAt(base, Synced(base, doomed, bundle), p)
  {
  }

  // ----- plain sync -----

  /** Without a reload hook a plain sync leaves, apart from the temporary name, the old files and those of
      the bundle, these with the content of their last entry, less the deleted paths and all beneath. */
  lemma PlainLeaves(c: Config, w: World, op: Op, w': World, p: Path)
    requires op.PlainSync? && op.status == 200 && Step(c, w, op, w') && !op.hooked && p != TMP
    ensures (exists d :: d in op.req.deletePaths && (p == d || HasPrefix(p, d + "/"))) ==> p !in w'.disk
    ensures (forall d | d in op.req.deletePaths :: p != d && !HasPrefix(p, d + "/")) ==>
              && ((forall f | f in op.req.files :: f.path != p) ==> SameAt(w.disk, w'.disk, p))
              && forall i | 0 <= i < |op.req.files| && op.req.files[i].path == p &&
                            (forall j | i < j < |op.req.files| :: op.req.files[j].path != p) ::
                   p in w'.disk && w'.disk[p] == op.req.files[i].content
  {
    hide InOrder, TreeDigest, Bundle, Commands, PlainTouched, StoredAdvances, PendingCarried, PendingBounded,
      Stamped, Manageable, Found, HasPrefix, PlainManaged;
    BundleAt(op.req.files, p);
    assert SameAt(Pruned(w.disk + Bundle(op.req.files), op.req.deletePaths), w'.disk, p);
  }

  // ----- mutate and restore -----

  /** A mutation that changed the digest: the named files are as edited, every other managed file is as
      it was, no other file was touched, and no reload is pending. */
  lemma MutateLeaves(c: Config, w: World, op: Op, w': World, p: Path)
    requires op.Mutate? && op.status == 200 && Step(c, w, op, w') && w' != w && p != TMP
    ensures w'.stored.Kept? && w'.stored.manifest.pending == []
    ensures (forall e | e in op.edit.edits :: e.path != p) ==>
              SameAt(w.disk, w'.disk, p) && (p in w'.stored.manifest.files <==> p in Managed(w))
    ensures forall i | 0 <= i < |op.edit.edits| && op.edit.edits[i].path == p &&
                       (forall j | i < j < |op.edit.edits| :: op.edit.edits[j].path != p) ::
              match op.edit.edits[i]
              case Write(_, content) =>
                p in w'.disk && w'.disk[p] == content && p in w'.stored.manifest.files
              case Delete(_) =>
                p !in w'.stored.manifest.files && (p in Managed(w) ==> p !in w'.disk)
  {
    hide InOrder, TreeDigest, Restrict, StoredAdvances, PendingCleared, Verifies, Found, EditTree, Replaced;
    var m, target := Found(w.stored).value, EditTree(Managed(w), op.edit.edits);
    ManagedKeys(w);
    ReplacedAt(w, m, target, w', p);
    if forall e | e in op.edit.edits :: e.path != p { Unedited(Managed(w), op.edit.edits, p); }
    forall i | 0 <= i < |op.edit.edits| && op.edit.edits[i].path == p &&
               (forall j | i < j < |op.edit.edits| :: op.edit.edits[j].path != p)
      ensures match op.edit.edits[i]
              case Write(_, content) =>
                p in w'.disk && w'.disk[p] == content && p in w'.stored.manifest.files
              case Delete(_) =>
                p !in w'.stored.manifest.files && (p in Managed(w) ==> p !in w'.disk)
    {
      EditedBy(Managed(w), op.edit.edits, i);
    }
  }

  lemma ReplacedAt(w: World, m: Manifest, target: Tree, w': World, p: Path)
    requires Replaced(w, m, target, w') && p != TMP
    ensures w'.stored.Kept? && w'.stored.manifest.pending == []
    ensures p in w'.stored.manifest.files <==> p in target
    ensures p in target ==> p in w'.disk && w'.disk[p] == target[p]
    ensures p !in target && p in m.files ==> p !in w'.disk
    ensures p !in target && p !in m.files ==> SameAt(w.disk, w'.disk, p)
  {
    hide InOrder, TreeDigest;
  }

  /** A restore touches no file but the checkpoint's and those managed before it; what was managed and is
      not in the checkpoint is gone, and no reload is pending. */
  lemma RestoreLeaves(c: Config, w: World, op: Op, w': World, p: Path)
    requires op.Restore? && op.status == 200 && Step(c, w, op, w') && p != TMP
    ensures op.id in w.checkpoints && w'.stored.Kept? && w'.stored.manifest.pending == []
    ensures p in w'.stored.manifest.files <==> p in w.checkpoints[op.id].files
    ensures p in w.checkpoints[op.id].files ==>
              p in w'.disk && (w.checkpoints[op.id].files[p].InMemory? ==>
                                 w'.disk[p] == w.checkpoints[op.id].files[p].content)
    ensures p !in w.checkpoints[op.id].files && Found(w.stored).Some? ==>
              if p in Found(w.stored).value.files then p !in w'.disk else SameAt(w.disk, w'.disk, p)
  {
    hide InOrder, TreeDigest, StoredAdvances, PendingCleared, Verifies, Found, Replaced;
    var target :| Records(w.checkpoints[op.id].files, target) && Replaced(w, Found(w.stored).value, target, w');
    ReplacedAt(w, Found(w.stored).value, target, w', p);
    RecordedAt(w.checkpoints[op.id].files, target, p);
  }

  lemma RecordedAt(files: map<Path, WorkspaceFile>, t: Tree, p: Path)
    requires Records(files, t)
    ensures p in files <==> p in t
    ensures p in files && files[p].InMemory? ==> t[p] == files[p].content
  {
    assert p in files ==> Describes(files[p], t[p]);
  }

  // ----- commands -----

  /** The paths a sync reports to the reload rules: the files it wrote because their content differed, and
      those it deleted or, for a plain sync, was asked to delete. */
  lemma TouchedIs(w: World, op: Op, p: Path)
    requires op.AuthoritativeSync? || op.PlainSync?
    requires DistinctPaths(op.req.files)
    ensures p in Touched(w, op) <==>
            || (exists f :: f in op.req.files && f.path == p && (p !in w.disk || w.disk[p] != f.content))
            || (op.PlainSync? && p in op.req.deletePaths)
            || (&& op.AuthoritativeSync? && p in w.disk && (forall f | f in op.req.files :: f.path != p)
                && if Found(w.stored).Some? then p in Found(w.stored).value.files else p in op.req.deletePaths)
  {
    hide InOrder, Changes, Bundle, Doomed, Found;
    ChangesHold(w.disk, op.req.files, p);
    DoomedAre(Found(w.stored), op.req.deletePaths, op.req.files, p);
  }

  lemma ChangesHold(disk: Tree, files: seq<SourceFile>, p: Path)
    requires DistinctPaths(files)
    ensures p in Changes(disk, files) <==>
            exists f :: f in files && f.path == p && (p !in disk || disk[p] != f.content)
  {
    hide Changes;
    var at := ChangesAre(disk, files);
    if f :| f in files && f.path == p && (p !in disk || disk[p] != f.content) {
      var k :| 0 <= k < |files| && files[k] == f;
      assert DiffersFrom(disk, files, k) && k in at;
      var i :| 0 <= i < |at| && at[i] == k;
      assert Changes(disk, files)[i] == p;
    }
    if p in Changes(disk, files) {
      var i :| 0 <= i < |at| && Changes(disk, files)[i] == p;
      assert at[i] in at && files[at[i]] in files;
    }
  }

  /** No other command is before one of `pending`. */
  ghost predicate CarriedFirst(commands: seq<string>, pending: seq<string>) {
    forall i, j | 0 <= i < j < |commands| && commands[j] in pending :: commands[i] in pending
  }

  /** What a sync runs: first the commands left unfinished, then those of the rules that fire for a path
      it altered, each once and trimmed. */
  lemma ToRunIs(c: Config, w: World, op: Op)
    requires op.AuthoritativeSync? || op.PlainSync?
    ensures Found(w.stored).None? ==>
              forall x :: x in ToRun(c, w, op) <==>
                exists r :: r in c.rules && r.command == x && Fires(c.globs, r, Touched(w, op))
    ensures Found(w.stored).Some? ==>
              && (forall x :: x in ToRun(c, w, op) <==>
                    && x != ""
                    && (|| x in Found(w.stored).value.pending
                        || exists r :: r in c.rules && TrimSpace(r.command) == x && Fires(c.globs, r, Touched(w, op))))
              && CarriedFirst(ToRun(c, w, op), Found(w.stored).value.pending)
    ensures Distinct(ToRun(c, w, op))
  {
    hide Fires, Matched, Deduplicated, TrimSpace, TrimAll, Found, Touched;
    var touched := Touched(w, op);
    var matched := Matched(c.rules, c.globs, touched);
    MatchedFacts(c.rules, c.globs, touched);
    if Found(w.stored).Some? {
      var pending := Found(w.stored).value.pending;
      forall x | x in pending
        ensures x != "" && TrimSpace(x) == x
      {
        FoundTrimmed(w.stored, x);
      }
      DeduplicatedFacts(TrimAll(pending + matched));
      assert ToRun(c, w, op) == Deduplicated(TrimAll(pending + matched));
      MergedIs(pending, matched);
      MergedOrder(pending, matched);
    }
  }

  lemma MergedIs(pending: seq<string>, matched: seq<string>)
    requires forall x | x in pending :: x != "" && TrimSpace(x) == x
    ensures forall x :: x in Deduplicated(TrimAll(pending + matched)) <==>
              x != "" && (x in pending || exists y :: y in matched && TrimSpace(y) == x)
  {
    hide TrimSpace, TrimAll, Deduplicated;
    var all := pending + matched;
    DeduplicatedFacts(TrimAll(all));
    forall x
      ensures x in TrimAll(all) <==> x in pending || exists y :: y in matched && TrimSpace(y) == x
    {
      if x in TrimAll(all) { var y := Untrim(all, x); }
      if x in pending { TrimmedIn(all, x); }
      if y :| y in matched && TrimSpace(y) == x { TrimmedIn(all, y); }
    }
  }

  lemma MergedOrder(pending: seq<string>, matched: seq<string>)
    requires forall x | x in pending :: x != "" && TrimSpace(x) == x
    ensures CarriedFirst(Deduplicated(TrimAll(pending + matched)), pending)
  {
    hide TrimSpace, Deduplicated;
    var all := TrimAll(pending + matched);
    var out := Deduplicated(all);
    var at := DeduplicatedAre(all);
    forall i, j | 0 <= i < j < |out| && out[j] in pending
      ensures out[i] in pending
    {
      var k :| 0 <= k < |pending| && pending[k] == out[j];
      assert all[k] == TrimSpace(pending[k]) == out[j];
      assert at[j] in at && FreshAt(all, at[j]);
      assert at[i] < |pending| && all[at[i]] == TrimSpace(pending[at[i]]) == pending[at[i]];
    }
  }
}
