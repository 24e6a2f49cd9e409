/** Whole runs of the workspace revision store: any sequence of syncs, mutations, checkpoints and
    restores, with any answer, and with the managed files changed behind the agent's back in between.
    Each step is the contract of the agent method of the same name. */
module WorkspaceRuns {
  import opened Collections
  import opened GoStrings
  import opened WorkspaceDigest
  import opened WorkspaceModel
  import opened WorkspaceStore
  import opened WorkspaceFacts

  datatype Config = Config(rules: seq<Rule>, globs: Glob, utf8: Bytes -> bool)

  datatype Op =
    | AuthoritativeSync(req: SyncRequest, hooked: bool, hookDisk: Tree, ran: seq<string>, status: nat)
    | PlainSync(req: SyncRequest, hooked: bool, hookDisk: Tree, ran: seq<string>, status: nat)
    | Mutate(edit: MutateRequest, status: nat)
    | Restore(id: string, status: nat)
    | CreateCheckpoint(id: string, status: nat)
    | DeleteCheckpoint(id: string)
    | Outside(disk: Tree)

  /** The disk an authoritative sync starts its final pass from. */
  function SyncBase(w: World, op: Op): Tree
    requires op.AuthoritativeSync?
  {
    if op.hooked then op.hookDisk else w.disk
  }

  /** The disk a plain sync stamps. */
  function PlainBase(w: World, op: Op): Tree
    requires op.PlainSync?
  {
    if op.hooked then op.hookDisk else Pruned(w.disk + Bundle(op.req.files), op.req.deletePaths)
  }

  ghost predicate Step(c: Config, w: World, op: Op, w': World) {
    match op
    case AuthoritativeSync(req, _, _, ran, status) =>
      AuthoritativeOutcome(c.rules, c.globs, c.utf8, w, req, SyncBase(w, op), ran, status, w')
    case PlainSync(req, _, _, ran, status) =>
      PlainOutcome(c.rules, c.globs, w, req, PlainBase(w, op), ran, status, w')
    case Mutate(edit, status) => MutateOutcome(w, edit, status, w')
    case Restore(id, status) => RestoreOutcome(w, id, status, w')
    case CreateCheckpoint(id, status) => CheckpointOutcome(w, id, status, w')
    case DeleteCheckpoint(id) => w' == w.(checkpoints := w.checkpoints - {id})
    case Outside(disk) => w' == w.(disk := disk)
  }

  /** A run from a workspace without manifest and checkpoints. */
  ghost predicate Run(c: Config, ws: seq<World>, ops: seq<Op>) {
    && |ws| == |ops| + 1
    && ws[0].stored == Absent && ws[0].checkpoints == map[]
    && forall i | 0 <= i < |ops| :: Step(c, ws[i], ops[i], ws[i + 1])
  }

  /** Every manifest of the run can be read back. */
  ghost predicate Served(ws: seq<World>) {
    forall i | 0 <= i < |ws| :: ws[i].stored.Kept? ==> Found(ws[i].stored).Some?
  }

  // ----- the manifest over a run -----

  /** What a single step does to the manifest. */
  lemma StepAdvances(c: Config, w: World, op: Op, w': World)
    requires Step(c, w, op, w')
    ensures StoredAdvances(w.stored, w'.stored)
    ensures PendingBounded(c.rules, w.stored, w'.stored)
  {
    hide TreeDigest, InOrder, Bundle, Manageable, TrimSpace, TrimAll, Restrict, Commands, SyncTouched, Stamped,
      FullSync, RepeatSync, Replaced, Verifies, EditTree, Records, WellFormedBundle, Found, PlainManaged;
  }

  lemma FoundIs(s: Stored)
    requires Found(s).Some?
    ensures s.Kept? && Readable(s.manifest)
    ensures Found(s).value.revision == s.manifest.revision && Found(s).value.digest == s.manifest.digest
    ensures Found(s).value.files == s.manifest.files && Found(s).value.pending == TrimAll(s.manifest.pending)
  {
    hide Readable, TrimAll;
  }

  ghost predicate Sound(c: Config, s: Stored) {
    s == Absent || (s.Kept? && s.manifest.revision != 0 && Ascending(s.manifest.files) &&
                    AllManageable(s.manifest.files) && FromRules(c.rules, s.manifest))
  }

  /** With at most 32 reload rules of bounded commands, every manifest the agent writes can be read
      back: no sync can lose the applied revision. */
  lemma {:induction false} ReadableThroughout(c: Config, ws: seq<World>, ops: seq<Op>)
    requires Run(c, ws, ops) && FitRules(c.rules)
    ensures Served(ws)
  {
    forall i | 0 <= i < |ws|
      ensures ws[i].stored.Kept? ==> Found(ws[i].stored).Some?
    {
      RunSound(c, ws, ops, i);
      if ws[i].stored.Kept? { SoundReadable(c, ws[i].stored); }
    }
  }

  lemma {:induction false} RunSound(c: Config, ws: seq<World>, ops: seq<Op>, i: nat)
    requires Run(c, ws, ops) && FitRules(c.rules) && i < |ws|
    ensures Sound(c, ws[i].stored)
  {
    if i > 0 {
      RunSound(c, ws, ops, i - 1);
      hide Step, FitRules;
      assert Step(c, ws[i - 1], ops[i - 1], ws[i]);
      StepAdvances(c, ws[i - 1], ops[i - 1], ws[i]);
      StepSound(c, ws[i - 1].stored, ws[i].stored);
    }
  }

  lemma StepSound(c: Config, s: Stored, s': Stored)
    requires FitRules(c.rules) && Sound(c, s) && StoredAdvances(s, s') && PendingBounded(c.rules, s, s')
    ensures Sound(c, s')
  {
    hide TrimSpace, Manageable, FitRules;
    if Found(s).Some? {
      FoundIs(s);
      TrimmedFromRules(c, s.manifest);
    }
  }

  lemma TrimmedFromRules(c: Config, m: Manifest)
    requires FromRules(c.rules, m)
    ensures FromRules(c.rules, Manifest(m.revision, m.digest, m.files, TrimAll(m.pending)))
  {
    hide TrimSpace;
    forall x | x in TrimAll(m.pending)
      ensures SomeRule(c.rules, TrimSpace(x))
    {
      var i :| 0 <= i < |m.pending| && TrimAll(m.pending)[i] == x;
      TrimSpaceFixes(m.pending[i]);
    }
  }

  lemma SoundReadable(c: Config, s: Stored)
    requires FitRules(c.rules) && Sound(c, s) && s.Kept?
    ensures Found(s).Some?
  {
    hide TrimSpace, Manageable, TrimAll;
    forall x | x in s.manifest.pending
      ensures FitCommand(x)
    {
      var r :| r in c.rules && TrimSpace(r.command) == TrimSpace(x);
      assert FitCommand(r.command);
    }
  }

  // ----- revisions -----

  /** Over a whole run the applied revision never decreases, and one revision never stands for two
      digests, whatever the operations answered. */
  lemma {:induction false} RevisionsAdvance(c: Config, ws: seq<World>, ops: seq<Op>, i: nat, j: nat)
    requires Run(c, ws, ops) && Served(ws) && i <= j < |ws|
    requires Found(ws[i].stored).Some?
    ensures Found(ws[j].stored).Some?
    ensures Advances(Found(ws[i].stored).value, Found(ws[j].stored).value)
    decreases j
  {
    if i < j {
      RevisionsAdvance(c, ws, ops, i, j - 1);
      hide Step, Readable, TrimAll;
      assert Step(c, ws[j - 1], ops[j - 1], ws[j]);
      StepAdvances(c, ws[j - 1], ops[j - 1], ws[j]);
      FoundIs(ws[j - 1].stored);
      assert ws[j].stored.Kept?;
      FoundIs(ws[j].stored);
    }
  }

  /** The managed files, as the manifest lists them. */
  ghost function Managed(w: World): Tree
    requires Found(w.stored).Some?
  {
    Restrict(w.disk, Found(w.stored).value.files)
  }

  /** Two commands admitted at one revision name the same digest, and see identical managed files
      exactly when they see the same paths with files of the same sizes. */
  lemma SameRevisionSameFiles(c: Config, ws: seq<World>, ops: seq<Op>, i: nat, j: nat, r: Revision, d: Digest,
                              e: Digest)
    requires Run(c, ws, ops) && Served(ws) && i < |ws| && j < |ws|
    requires Admitted(ws[i], r, d) && Admitted(ws[j], r, e)
    ensures d == e
    ensures Managed(ws[i]) == Managed(ws[j]) <==> SameShape(Managed(ws[i]), Managed(ws[j]))
  {
    if i <= j {
      RevisionsAdvance(c, ws, ops, i, j);
    } else {
      RevisionsAdvance(c, ws, ops, j, i);
    }
    hide TreeDigest, Restrict, SameShape;
    DigestDetermines(Managed(ws[i]), Managed(ws[j]));
  }

  /** With only NUL-free files at one of them, it is enough that they see as many. */
  lemma SameRevisionTextFiles(c: Config, ws: seq<World>, ops: seq<Op>, i: nat, j: nat, r: Revision, d: Digest,
                              e: Digest)
    requires Run(c, ws, ops) && Served(ws) && i < |ws| && j < |ws|
    requires Admitted(ws[i], r, d) && Admitted(ws[j], r, e)
    requires Textual(Managed(ws[i])) && PlainPaths(Managed(ws[j]))
    ensures Managed(ws[i]) == Managed(ws[j]) <==> |Managed(ws[i])| == |Managed(ws[j])|
    ensures Managed(ws[i]) == Managed(ws[j]) <==> Textual(Managed(ws[j]))
  {
    SameRevisionSameFiles(c, ws, ops, i, j, r, d, e);
    hide TreeDigest, Restrict, SameShape;
    TextDigestDetermines(Managed(ws[i]), Managed(ws[j]));
  }

  // ----- what a sync that answered 200 leaves -----

  /** Exactly these files are managed, with these bytes, and the manifest verifies. */
  ghost predicate Holds(w: World, t: Tree) {
    && w.stored.Kept?
    && PathSet(w.stored.manifest.files) == t.Keys
    && (forall p | p in t :: p in w.disk && w.disk[p] == t[p])
    && Verifies(w.stored.manifest, w.disk)
  }

  lemma RestrictTo(disk: Tree, ps: seq<Path>, t: Tree)
    requires PathSet(ps) == t.Keys && forall p | p in t :: p in disk && disk[p] == t[p]
    ensures Restrict(disk, ps) == t
  {
    assert forall p :: p in ps <==> p in PathSet(ps);
  }

  lemma PathSetInOrder(s: set<Path>)
    ensures PathSet(InOrder(s)) == s
  {
    hide InOrder;
  }

  /** A manifest that lists and digests `t` over a disk that overlays `t` verifies unless the
      manifest's own temporary name is one of the files. */
  lemma OverlayHolds(w: World, base: Tree, t: Tree)
    requires w.stored.Kept? && w.stored.manifest.revision != 0 && AllManageable(w.stored.manifest.files)
    requires w.stored.manifest.files == InOrder(t.Keys) && w.stored.manifest.digest.digest == TreeDigest(t)
    requires w.disk == (base + t) - {TMP}
    ensures Holds(w, t) <==> TMP !in t
  {
    hide InOrder, TreeDigest, Restrict, Manageable;
    PathSetInOrder(t.Keys);
    if TMP !in t {
      RestrictTo(w.disk, w.stored.manifest.files, t);
    }
  }

  /** What the sync replaces is gone; the rest of the disk is as the hook left it. */
  lemma SyncedTouches(base: Tree, doomed: set<Path>, bundle: Tree)
    requires doomed !! bundle.Keys
    ensures Synced(base, doomed, bundle) == ((base - doomed) + bundle) - {TMP}
    ensures forall p | p in doomed :: p !in Synced(base, doomed, bundle)
    ensures Agree(base, Synced(base, doomed, bundle), bundle.Keys + doomed + {TMP})
  {
  }

  /** A full authoritative sync that answered 200: the bundle is what is managed, byte for byte; what
      was managed before and is not in the bundle is gone; nothing outside the bundle, the old
      manifest or the delete hints was touched since the hook. */
  lemma FullSyncExact(utf8: Bytes -> bool, w: World, req: SyncRequest, base: Tree, w': World)
    requires req.revision != 0 && WellFormedBundle(utf8, req.files) && FullSync(w, req, base, w')
    ensures Holds(w', Bundle(req.files)) <==> TMP !in Bundle(req.files)
    ensures var doomed := Doomed(Found(w.stored), req.deletePaths, Bundle(req.files).Keys);
            && (forall p | p in doomed :: p !in w'.disk)
            && Agree(base, w'.disk, Bundle(req.files).Keys + doomed + {TMP})
  {
    hide InOrder, TreeDigest, Restrict, Manageable, Bundle, Found, Holds, WellFormedBundle, Synced, Agree;
    var bundle := Bundle(req.files);
    var doomed := Doomed(Found(w.stored), req.deletePaths, bundle.Keys);
    SyncedTouches(base, doomed, bundle);
    BundleManageable(utf8, req.files, w'.stored.manifest.files);
    OverlayHolds(w', base - doomed, bundle);
  }

  /** The shortcut for a repeated sync trusts the digest: the bundle is in place exactly when the
      manifest lists the bundle's paths, with files of the bundle's sizes on disk. */
  lemma RepeatSyncExact(w: World, req: SyncRequest, w': World)
    requires RepeatSync(w, req, w')
    ensures Holds(w', Bundle(req.files)) <==> SameShape(Managed(w), Bundle(req.files))
    ensures w'.disk == w.disk
  {
    hide Bundle;
    FoundIs(w.stored);
    DigestHolds(w, Bundle(req.files));
  }

  /** A verified workspace with the digest of `t` holds `t` exactly when it has its shape. */
  lemma DigestHolds(w: World, t: Tree)
    requires Found(w.stored).Some? && Verifies(Found(w.stored).value, w.disk)
    requires TreeDigest(t) == Found(w.stored).value.digest.digest
    ensures Holds(w, t) <==> SameShape(Managed(w), t)
  {
    hide InOrder, TreeDigest, Manageable, TrimAll, Readable, SameShape;
    FoundIs(w.stored);
    DigestDetermines(Managed(w), t);
    ManagedKeys(w);
    if Holds(w, t) { RestrictTo(w.disk, w.stored.manifest.files, t); }
  }

  /** For NUL-free files it is enough to count them. */
  lemma TextDigestHolds(w: World, t: Tree)
    requires Found(w.stored).Some? && Verifies(Found(w.stored).value, w.disk)
    requires TreeDigest(t) == Found(w.stored).value.digest.digest
    requires Textual(t) && PlainPaths(Managed(w))
    ensures Holds(w, t) <==> |Managed(w)| == |t|
    ensures Holds(w, t) <==> Textual(Managed(w))
  {
    hide TreeDigest, Holds, Textual, PlainPaths, SameShape, TrimAll, Readable, Restrict, Manageable;
    DigestHolds(w, t);
    DigestDetermines(Managed(w), t);
    TextDigestDetermines(t, Managed(w));
  }

  lemma ManagedKeys(w: World)
    requires Found(w.stored).Some? && Verifies(Found(w.stored).value, w.disk)
    ensures Managed(w).Keys == PathSet(Found(w.stored).value.files)
    ensures forall p | p in Managed(w) :: p in w.disk && Managed(w)[p] == w.disk[p]
  {
    hide TreeDigest, InOrder, Manageable, TrimAll, Readable;
  }

  /** An authoritative sync that answered 200, on either path and whatever the bytes. */
  lemma AuthoritativeExact(c: Config, w: World, op: Op, w': World)
    requires op.AuthoritativeSync? && op.status == 200 && Step(c, w, op, w')
    ensures !RepeatSync(w, op.req, w') ==> (Holds(w', Bundle(op.req.files)) <==> TMP !in Bundle(op.req.files))
    ensures RepeatSync(w, op.req, w') ==>
              (Holds(w', Bundle(op.req.files)) <==> SameShape(Managed(w), Bundle(op.req.files)))
    ensures var doomed := Doomed(Found(w.stored), op.req.deletePaths, Bundle(op.req.files).Keys);
            Agree(if RepeatSync(w, op.req, w') then w.disk else SyncBase(w, op), w'.disk,
                  Bundle(op.req.files).Keys + doomed + {TMP})
    ensures Holds(w', Bundle(op.req.files)) && Found(w.stored).Some? ==>
              forall p | p in Found(w.stored).value.files && p !in Bundle(op.req.files) :: p !in w'.disk
  {
    hide InOrder, TreeDigest, Restrict, Manageable, Bundle, WellFormedBundle, FullSync, Commands, SyncTouched,
      StoredAdvances, PendingCarried, PendingBounded, TrimAll, Readable, Verifies, SameShape;
    if RepeatSync(w, op.req, w') {
      RepeatSyncExact(w, op.req, w');
      FoundIs(w.stored);
    } else {
      FullSyncExact(c.utf8, w, op.req, SyncBase(w, op), w');
    }
  }

  // ----- plain sync -----

  ghost function ManagedNext(w: World, op: Op): set<Path>
    requires op.PlainSync?
  {
    PlainManaged(Found(w.stored), Bundle(op.req.files).Keys, op.req.deletePaths)
  }

  /** A plain sync that answered 200: without a readable manifest and without a managed file it
      stamps nothing; otherwise its manifest lists exactly the files that exist and were listed or are
      manageable paths of the bundle, less what the sync was asked to delete, with a digest of their
      bytes. Its revision is one on exactly when that digest changed. It verifies unless the manifest's
      temporary name is one of the files. */
  lemma PlainExact(c: Config, w: World, op: Op, w': World)
    requires op.PlainSync? && op.status == 200 && Step(c, w, op, w')
    ensures forall p :: p in ManagedNext(w, op) <==>
              && ((Found(w.stored).Some? && p in Found(w.stored).value.files) ||
                  (Manageable(p) && exists f :: f in op.req.files && f.path == p))
              && forall d | d in op.req.deletePaths :: p != d && !HasPrefix(p, d + "/")
    ensures Found(w.stored).None? && ManagedNext(w, op) * PlainBase(w, op).Keys == {} ==>
              w'.stored == w.stored && w'.disk == PlainBase(w, op)
    ensures Found(w.stored).Some? || ManagedNext(w, op) * PlainBase(w, op).Keys != {} ==>
              && w'.stored.Kept?
              && var m, base := w'.stored.manifest, PlainBase(w, op);
                 && (forall p :: p in m.files <==>
                       && p in base
                       && ((Found(w.stored).Some? && p in Found(w.stored).value.files) ||
                           (Manageable(p) && exists f :: f in op.req.files && f.path == p))
                       && forall d | d in op.req.deletePaths :: p != d && !HasPrefix(p, d + "/"))
                 && m.digest.digest == TreeDigest(Restrict(base, m.files))
                 && (Found(w.stored).None? ==> m.revision == 1)
                 && (Found(w.stored).Some? ==>
                       var before := Found(w.stored).value;
                       m.revision ==
                         if m.digest.digest == before.digest.digest then before.revision else before.revision + 1)
                 && (Verifies(m, w'.disk) <==> TMP !in m.files)
                 && w'.disk == base - {TMP}
  {
    hide InOrder, TreeDigest, Restrict, Manageable, Bundle, Found, PlainManaged, Commands, PendingCarried,
      PendingBounded, Pruned, PlainBase, Verifies, StoredAdvances;
    var base, managed := PlainBase(w, op), ManagedNext(w, op);
    forall p
      ensures p in managed <==>
              && ((Found(w.stored).Some? && p in Found(w.stored).value.files) ||
                  (Manageable(p) && exists f :: f in op.req.files && f.path == p))
              && forall d | d in op.req.deletePaths :: p != d && !HasPrefix(p, d + "/")
    {
      PlainManagedIs(Found(w.stored), op.req.files, op.req.deletePaths, p);
    }
    if Found(w.stored).Some? || managed * base.Keys != {} {
      var m := w'.stored.manifest;
      assert forall p :: p in m.files <==> p in managed && p in base;
      StampManageable(w.stored, base, Bundle(op.req.files).Keys, op.req.deletePaths, m);
      StampVerifies(m, base);
    }
  }

  lemma StampManageable(s: Stored, base: Tree, written: set<Path>, deletePaths: seq<Path>, m: Manifest)
    requires Stamped(Found(s), base, PlainManaged(Found(s), written, deletePaths), m)
    ensures AllManageable(m.files) && m.revision != 0
  {
    hide InOrder, TreeDigest, Restrict, Manageable, Beneath, TrimAll;
    forall p | p in m.files
      ensures Manageable(p)
    {
      assert p in PlainManaged(Found(s), written, deletePaths);
    }
  }

  lemma StampVerifies(m: Manifest, base: Tree)
    requires AllManageable(m.files) && m.revision != 0 && forall p | p in m.files :: p in base
    requires m.digest.digest == TreeDigest(Restrict(base, m.files))
    ensures Verifies(m, base - {TMP}) <==> TMP !in m.files
  {
    hide InOrder, TreeDigest, Manageable;
    if TMP !in m.files {
      assert Restrict(base, m.files) == Restrict(base - {TMP}, m.files);
    }
  }

  // ----- mutate and restore -----

  lemma ReplacedHolds(w: World, m: Manifest, target: Tree, w': World)
    requires Found(w.stored) == Some(m) && StoredAdvances(w.stored, w'.stored) && Replaced(w, m, target, w')
    ensures Holds(w', target) <==> TMP !in target
    ensures Advances(m, w'.stored.manifest) && m.revision < w'.stored.manifest.revision
  {
    hide InOrder, TreeDigest, Restrict, Manageable, Holds, TrimAll, Readable, Found;
    FoundIs(w.stored);
    OverlayHolds(w', w.disk - (PathSet(m.files) - target.Keys), target);
  }

  /** A mutation that answered 200 leaves exactly the edited files managed, one revision on; when the
      digest did not change it does nothing, which is right exactly when the shape did not change. */
  lemma MutateExact(c: Config, w: World, op: Op, w': World)
    requires op.Mutate? && op.status == 200 && Step(c, w, op, w')
    ensures Found(w.stored).Some?
    ensures var target := EditTree(Managed(w), op.edit.edits);
            if TreeDigest(target) == Found(w.stored).value.digest.digest then
              w' == w && (Holds(w', target) <==> SameShape(Managed(w), target))
            else
              (Holds(w', target) <==> TMP !in target) &&
              w'.stored.manifest.revision == Found(w.stored).value.revision + 1
  {
    hide InOrder, TreeDigest, Restrict, Manageable, EditTree, Holds, TrimAll, Readable, Verifies, StoredAdvances, Found,
      SameShape;
    var target := EditTree(Managed(w), op.edit.edits);
    if TreeDigest(target) == Found(w.stored).value.digest.digest {
      DigestHolds(w, target);
    } else {
      ReplacedHolds(w, Found(w.stored).value, target, w');
    }
  }

  lemma {:induction false} CheckpointKept(c: Config, ws: seq<World>, ops: seq<Op>, i: nat, j: nat, id: string)
    requires Run(c, ws, ops) && i <= j < |ws| && id in ws[i].checkpoints
    requires forall k | i <= k < j :: ops[k] != DeleteCheckpoint(id)
    ensures id in ws[j].checkpoints && ws[j].checkpoints[id] == ws[i].checkpoints[id]
    decreases j
  {
    if i < j {
      CheckpointKept(c, ws, ops, i, j - 1, id);
      CheckpointStep(c, ws[j - 1], ops[j - 1], ws[j], id);
    }
  }

  lemma CheckpointStep(c: Config, w: World, op: Op, w': World, id: string)
    requires Step(c, w, op, w') && id in w.checkpoints && op != DeleteCheckpoint(id)
    ensures id in w'.checkpoints && w'.checkpoints[id] == w.checkpoints[id]
  {
    hide TreeDigest, InOrder, Bundle, Manageable, TrimSpace, TrimAll, Restrict, Commands, SyncTouched, Stamped,
      FullSync, RepeatSync, Replaced, Verifies, EditTree, Records, WellFormedBundle, Found, PlainManaged,
      StoredAdvances, PendingCarried, PendingBounded, PendingCleared;
  }

  /** Restoring a checkpoint after any run of operations brings back exactly the managed files of the
      moment it was taken, text by bytes and opaque files by their own digest, at a strictly later
      revision. (The one exception is again a file named like the manifest's temporary.) */
  lemma RestoreAfterRun(c: Config, ws: seq<World>, ops: seq<Op>, i: nat, j: nat, id: string)
    requires Run(c, ws, ops) && Served(ws) && i < j < |ops|
    requires ops[i] == CreateCheckpoint(id, 200) && id !in ws[i].checkpoints
    requires ops[j] == Restore(id, 200) && forall k | i < k < j :: ops[k] != DeleteCheckpoint(id)
    ensures Found(ws[i].stored).Some? && Found(ws[j + 1].stored).Some?
    ensures Holds(ws[j + 1], Managed(ws[i])) <==> TMP !in Managed(ws[i])
    ensures Found(ws[j + 1].stored).value.revision > Found(ws[i].stored).value.revision
  {
    hide Step, RestoreOutcome, InOrder, TreeDigest, Restrict, Manageable, Holds, TrimAll, Readable, Verifies, Found,
      Records, Managed;
    assert Step(c, ws[i], ops[i], ws[i + 1]) && Step(c, ws[j], ops[j], ws[j + 1]);
    CheckpointTaken(c, ws[i], id, ws[i + 1]);
    CheckpointKept(c, ws, ops, i + 1, j, id);
    RevisionsAdvance(c, ws, ops, i, j);
    RestoreAnswered(c, ws[j], id, ws[j + 1]);
    RestoreGives(ws[j], id, Managed(ws[i]), ws[j + 1]);
    FoundIs(ws[j + 1].stored);
  }

  lemma CheckpointTaken(c: Config, w: World, id: string, w': World)
    requires Step(c, w, CreateCheckpoint(id, 200), w') && id !in w.checkpoints
    ensures Found(w.stored).Some? && id in w'.checkpoints
    ensures Records(w'.checkpoints[id].files, Managed(w))
  {
    hide TreeDigest, Restrict, Manageable, TrimAll, Readable, Verifies, StoredAdvances, Found, Records;
  }

  lemma RestoreAnswered(c: Config, w: World, id: string, w': World)
    requires Step(c, w, Restore(id, 200), w')
    ensures RestoreOutcome(w, id, 200, w')
  {
    hide RestoreOutcome;
  }

  lemma RestoreGives(w: World, id: string, taken: Tree, w': World)
    requires RestoreOutcome(w, id, 200, w')
    requires id in w.checkpoints && Records(w.checkpoints[id].files, taken)
    ensures Found(w.stored).Some? && w'.stored.Kept?
    ensures Holds(w', taken) <==> TMP !in taken
    ensures w'.stored.manifest.revision > Found(w.stored).value.revision
  {
    hide InOrder, TreeDigest, Manageable, Holds, TrimAll, Readable, Verifies, StoredAdvances, Found, Records, Replaced;
    var target :| Records(w.checkpoints[id].files, target) && Replaced(w, Found(w.stored).value, target, w');
    RecordsUnique(w.checkpoints[id].files, taken, target);
    ReplacedHolds(w, Found(w.stored).value, taken, w');
    ReplacedKept(w, Found(w.stored).value, taken, w');
  }

  lemma ReplacedKept(w: World, m: Manifest, target: Tree, w': World)
    requires Replaced(w, m, target, w')
    ensures w'.stored.Kept?
  {
  }

  // ----- unfinished reload commands -----

  /** The commands an operation ran successfully. */
  function Ran(op: Op): seq<string> {
    if op.AuthoritativeSync? || op.PlainSync? then op.ran else []
  }

  /** Mutations and restores that write a manifest clear its commands. */
  ghost predicate Clears(w: World, op: Op, w': World) {
    (op.Mutate? || op.Restore?) && w'.stored != w.stored
  }

  lemma PendingStep(c: Config, w: World, op: Op, w': World, x: string)
    requires Step(c, w, op, w') && Found(w.stored).Some? && Found(w'.stored).Some?
    requires x in Found(w.stored).value.pending && x !in Ran(op) && !Clears(w, op, w')
    ensures x in Found(w'.stored).value.pending
  {
    StepCarries(c, w, op, w');
    hide Step, Readable, TrimAll;
    if w'.stored != w.stored {
      FoundIs(w'.stored);
      FoundTrimmed(w.stored, x);
      TrimmedIn(w'.stored.manifest.pending, x);
    }
  }

  lemma StepCarries(c: Config, w: World, op: Op, w': World)
    requires Step(c, w, op, w') && !Clears(w, op, w')
    ensures PendingCarried(w.stored, w'.stored, Ran(op))
  {
    hide TreeDigest, InOrder, Bundle, Manageable, TrimSpace, TrimAll, Restrict, Commands, SyncTouched, Stamped,
      FullSync, RepeatSync, Replaced, Verifies, EditTree, Records, WellFormedBundle, Found, PlainManaged,
      StoredAdvances;
  }

  /** An unfinished reload command stays pending across every operation until a reload that contains
      it succeeds, or a mutation or restore clears it. */
  lemma {:induction false} PendingStays(c: Config, ws: seq<World>, ops: seq<Op>, i: nat, j: nat, x: string)
    requires Run(c, ws, ops) && Served(ws) && i <= j < |ws|
    requires Found(ws[i].stored).Some? && x in Found(ws[i].stored).value.pending
    requires forall k | i <= k < j :: x !in Ran(ops[k]) && !Clears(ws[k], ops[k], ws[k + 1])
    ensures Found(ws[j].stored).Some? && x in Found(ws[j].stored).value.pending
    decreases j
  {
    hide Step, Found, Clears, Ran, Advances;
    if i < j {
      PendingStays(c, ws, ops, i, j - 1, x);
      RevisionsAdvance(c, ws, ops, i, j);
      assert Step(c, ws[j - 1], ops[j - 1], ws[j]);
      PendingStep(c, ws[j - 1], ops[j - 1], ws[j], x);
    }
  }

  // ----- which commands a sync leaves -----

  /** The paths a sync reports as altered. */
  ghost function Touched(w: World, op: Op): seq<Path>
    requires op.AuthoritativeSync? || op.PlainSync?
  {
    if op.PlainSync? then PlainTouched(w, op.req) else SyncTouched(w, op.req)
  }

  /** What a sync has to run. */
  ghost function ToRun(c: Config, w: World, op: Op): seq<string>
    requires op.AuthoritativeSync? || op.PlainSync?
  {
    Commands(c.rules, c.globs, Found(w.stored), Touched(w, op))
  }

  /** The sync answered 200 and wrote its manifest. */
  ghost predicate WritesManifest(w: World, op: Op, w': World)
    requires op.AuthoritativeSync? || op.PlainSync?
  {
    op.status == 200 &&
    if op.AuthoritativeSync? then !RepeatSync(w, op.req, w')
    else Found(w.stored).Some? || ManagedNext(w, op) * PlainBase(w, op).Keys != {}
  }

  lemma ManifestWritten(c: Config, w: World, op: Op, w': World)
    requires op.AuthoritativeSync? || op.PlainSync?
    requires Step(c, w, op, w') && WritesManifest(w, op, w')
    ensures w'.stored.Kept? && w'.stored.manifest.revision != 0 && AllManageable(w'.stored.manifest.files)
    ensures Left(w'.stored.manifest, ToRun(c, w, op), op.ran)
  {
    hide InOrder, TreeDigest, Restrict, Bundle, Commands, SyncTouched, PlainTouched, PendingCarried, PendingBounded,
      Pruned, PlainBase, Verifies, StoredAdvances, Synced, Doomed, PlainManaged;
    if op.PlainSync? {
      StampManageable(w.stored, PlainBase(w, op), Bundle(op.req.files).Keys, op.req.deletePaths, w'.stored.manifest);
    } else {
      PathSetInOrder(Bundle(op.req.files).Keys);
      BundleManageable(c.utf8, op.req.files, w'.stored.manifest.files);
    }
  }

  /** A sync that wrote its manifest can be followed up exactly when its reload ran, or what it leaves
      to run is at most 32 commands that each fit. */
  lemma ReadableExact(c: Config, w: World, op: Op, w': World)
    requires op.AuthoritativeSync? || op.PlainSync?
    requires Step(c, w, op, w') && WritesManifest(w, op, w')
    ensures Found(w'.stored).Some? <==>
            op.ran != [] || (|ToRun(c, w, op)| <= MAX_PENDING && forall x | x in ToRun(c, w, op) :: FitCommand(x))
  {
    ManifestWritten(c, w, op, w');
    hide Step, WritesManifest, ToRun, FitCommand, TrimAll, Manageable, Found, Readable;
    ReadableWhen(w'.stored);
  }

  lemma ReadableWhen(s: Stored)
    requires s.Kept? && s.manifest.revision != 0 && AllManageable(s.manifest.files)
    ensures Found(s).Some? <==>
            |s.manifest.pending| <= MAX_PENDING && forall x | x in s.manifest.pending :: FitCommand(x)
  {
    hide FitCommand, TrimAll, Manageable;
  }

  /** Without a readable manifest a plain sync starts again at revision 1. */
  lemma UnreadableRestarts(c: Config, w: World, op: Op, w': World)
    requires op.PlainSync? && Step(c, w, op, w') && WritesManifest(w, op, w')
    ensures Found(w.stored).None? ==> w'.stored.Kept? && w'.stored.manifest.revision == 1
  {
    hide InOrder, TreeDigest, Restrict, Bundle, Commands, PlainTouched, PendingCarried, PendingBounded, Pruned,
      StoredAdvances, PlainManaged, Found;
  }

  /** The sync itself altered `p`, or, for a plain sync, was asked to delete it. */
  ghost predicate Altered(w: World, op: Op, p: Path)
    requires op.AuthoritativeSync? || op.PlainSync?
  {
    var bundle := Bundle(op.req.files);
    var after := if op.PlainSync? then w.disk + bundle
                 else (w.disk - Doomed(Found(w.stored), op.req.deletePaths, bundle.Keys)) + bundle;
    || (p in w.disk) != (p in after)
    || (p in w.disk && p in after && w.disk[p] != after[p])
    || (op.PlainSync? && p in op.req.deletePaths)
  }

  /** Every file the bundle alters is among those the write loop writes. */
  lemma {:induction false} ChangesAccount(disk: Tree, files: seq<SourceFile>, p: Path)
    requires p in Bundle(files) && (p !in disk || disk[p] != Bundle(files)[p])
    ensures p in Changes(disk, files)
    decreases |files|
  {
    var front, last := files[..|files| - 1], files[|files| - 1];
    if p in Bundle(front) && (p !in disk || disk[p] != Bundle(front)[p]) {
      ChangesAccount(disk, front, p);
    }
  }

  lemma AlteredTouched(w: World, op: Op, p: Path)
    requires op.AuthoritativeSync? || op.PlainSync?
    requires Altered(w, op, p)
    ensures p in Touched(w, op)
  {
    hide InOrder, Bundle, Changes, Found, Doomed;
    var bundle := Bundle(op.req.files);
    if p in bundle && (p !in w.disk || w.disk[p] != bundle[p]) {
      ChangesAccount(w.disk, op.req.files, p);
    }
  }

  /** A reload command fired by a file that a sync altered is run by that sync or left pending. */
  lemma RulePending(c: Config, w: World, op: Op, w': World, r: Rule, pattern: string, p: Path)
    requires op.AuthoritativeSync? || op.PlainSync?
    requires Step(c, w, op, w') && WritesManifest(w, op, w') && Found(w'.stored).Some?
    requires r in c.rules && pattern in r.paths && c.globs(pattern, p) && Altered(w, op, p) &&
             TrimSpace(r.command) != ""
    ensures TrimSpace(r.command) in Found(w'.stored).value.pending || Includes(op.ran, r.command)
  {
    ManifestWritten(c, w, op, w');
    AlteredTouched(w, op, p);
    hide Step, WritesManifest, Altered, Touched, Commands, TrimAll, TrimSpace, Readable, Found;
    FoundIs(w'.stored);
    assert Fires(c.globs, r, Touched(w, op));
    CommandsInclude(c.rules, c.globs, w.stored, Touched(w, op), r);
    if Includes(w'.stored.manifest.pending, r.command) { IncludesTrimmed(w'.stored.manifest.pending, r.command); }
  }

  /** The command, up to outer white space, is one of the list. */
  ghost predicate Includes(commands: seq<string>, command: string) {
    exists c :: c in commands && TrimSpace(c) == TrimSpace(command)
  }

  lemma CommandsInclude(rules: seq<Rule>, globs: Glob, s: Stored, touched: seq<Path>, r: Rule)
    requires r in rules && Fires(globs, r, touched) && TrimSpace(r.command) != ""
    ensures Includes(Commands(rules, globs, Found(s), touched), r.command)
  {
    hide Fires, Matched, Deduplicated, Found, TrimSpace, TrimAll;
    MatchedFacts(rules, globs, touched);
    if Found(s).Some? {
      var all := Found(s).value.pending + Matched(rules, globs, touched);
      DeduplicatedFacts(TrimAll(all));
      TrimmedIn(all, r.command);
      TrimSpaceFixes(r.command);
    }
  }

  lemma IncludesTrimmed(commands: seq<string>, command: string)
    requires Includes(commands, command)
    ensures TrimSpace(command) in TrimAll(commands)
  {
    hide TrimSpace;
    var x :| x in commands && TrimSpace(x) == TrimSpace(command);
    TrimmedIn(commands, x);
  }
}
