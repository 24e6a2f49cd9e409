/** The agent object of the workspace revision store. Each operation is proved against the outcome
    predicates of WorkspaceModel. The mutation lock makes an operation one step; hooks may leave any
    disk behind, and the disk may change arbitrarily between operations. */
module WorkspaceAgent {
  import opened Collections
  import opened GoStrings
  import opened WorkspaceDigest
  import opened WorkspaceModel
  import opened WorkspaceStore

  /** Everything a sync meets outside the agent's own code. */
  datatype SyncEnv = SyncEnv(
    writeIo: Io, deleteIo: Io, firstManifest: ManifestIo,
    statusOk: bool, restartNeeded: bool,
    reloadOk: bool, hookDisk: Tree,
    restoreIo: Io, secondManifest: ManifestIo, redeleteIo: Io, verifyIo: Io, thirdManifest: ManifestIo,
    restartOk: bool)

  class Workspace {
    const rules: seq<Rule>
    const globs: Glob
    const utf8: Bytes -> bool

    var disk: Tree
    var stored: Stored
    var checkpoints: map<string, Checkpoint>

    ghost function View(): World
      reads this
    {
      World(disk, stored, checkpoints)
    }

    constructor (rules: seq<Rule>, globs: Glob, utf8: Bytes -> bool, disk: Tree)
      ensures this.rules == rules && this.globs == globs && this.utf8 == utf8
      ensures View() == World(disk, Absent, map[])
    {
      this.rules, this.globs, this.utf8 := rules, globs, utf8;
      this.disk, stored, checkpoints := disk, Absent, map[];
    }

    // ----- file by file -----

    /** writeWorkspaceFile */
    method WriteFile(p: Path, content: Bytes, io: Io) returns (ok: bool)
      modifies this`disk
      ensures ok <==> p !in io.refused
      ensures ok ==> disk == old(disk)[p := content]
      ensures Agree(old(disk), disk, {p})
    {
      if p in io.refused {
        if p in io.mangled { disk := disk[p := io.mangled[p]]; }
        return false;
      }
      disk := disk[p := content];
      return true;
    }

    /** The write loop of a sync: unchanged files are left alone. */
    method WriteFiles(files: seq<SourceFile>, io: Io) returns (ok: bool, changed: seq<Path>)
      modifies this`disk
      ensures ok ==> disk == old(disk) + Bundle(files)
      ensures Agree(old(disk), disk, Bundle(files).Keys)
      ensures ok ==> changed == Changes(old(disk), files)
      ensures io.refused == {} ==> ok
    {
      changed := [];
      ghost var before := disk;
      for i := 0 to |files|
        invariant disk == before + Bundle(files[..i])
        invariant changed == Changes(before, files[..i])
      {
        var f := files[i];
        ChangesNext(before, files, i);
        ghost var done := Bundle(files[..i]);
        Overlay(before, done, f.path, f.content);
        BundleNext(files, i);
        BundleGrows(files, i);
        BundleGrows(files, i + 1);
        if f.path !in disk || disk[f.path] != f.content {
          ok := WriteFile(f.path, f.content, io);
          if !ok { return false, changed; }
          changed := changed + [f.path];
        }
      }
      TakeAll(files);
      return true, changed;
    }

    /** deleteAuthoritativeWorkspaceCandidates */
    method DeleteCandidates(previous: Option<Manifest>, deletePaths: seq<Path>, incoming: set<Path>, io: Io)
      returns (ok: bool, deleted: seq<Path>)
      modifies this`disk
      ensures ok ==> disk == old(disk) - Doomed(previous, deletePaths, incoming)
      ensures Agree(old(disk), disk, Doomed(previous, deletePaths, incoming))
      ensures ok ==> deleted == InOrder(Doomed(previous, deletePaths, incoming) * old(disk.Keys))
      ensures io.refused == {} ==> ok
    {
      hide Doomed, Culled, InOrder, Ascending, Agree;
      deleted := [];
      var managed := if previous.Some? then (set p | p in previous.value.files) else {};
      var candidates := managed + set p | p in deletePaths;
      var paths := SortPaths(candidates);
      ghost var before, doomed := disk, Doomed(previous, deletePaths, incoming);
      DoomedIs(previous, deletePaths, incoming, managed, candidates);
      CullNone(before, doomed);
      EmptyAscends();
      for i := 0 to |paths|
        invariant Culled(before, disk, paths[..i], doomed)
        invariant Ascending(deleted)
        invariant forall q :: q in deleted <==> q in paths[..i] && q in doomed && q in before
      {
        var p := paths[i];
        CullNext(before, disk, paths, i, doomed);
        CullAt(before, disk, paths, i, doomed);
        TakeNext(paths, i);
        CullAgree(before, disk, paths[..i], doomed);
        AscendingAppend(paths, i, deleted);
        if p !in incoming && (previous.None? || p in managed) {
          if p in io.refused { return false, deleted; }
          if p in disk {
            disk := disk - {p};
            deleted := deleted + [p];
          }
        }
      }
      TakeAll(paths);
      CullAll(before, disk, paths, doomed);
      CullAgree(before, disk, paths, doomed);
      AscendingUnique(deleted, doomed * before.Keys);
      return true, deleted;
    }

    /** writeWorkspaceManifest: the temporary name is gone afterwards, whatever file it was. */
    method WriteManifest(m: Manifest, io: ManifestIo) returns (ok: bool)
      modifies this`disk, this`stored
      ensures ok ==> stored == Kept(m) && disk == old(disk) - {TMP}
      ensures !ok ==> stored == old(stored)
      ensures Agree(old(disk), disk, {TMP})
      ensures ok <==> io.Renamed?
    {
      match io {
        case Renamed =>
          disk := disk - {TMP};
          stored := Kept(m);
          return true;
        case TmpFails(left) =>
          if left.Some? { disk := disk[TMP := left.value]; }
          return false;
        case RenameFails =>
          disk := disk - {TMP};
          return false;
      }
    }

    /** verifyWorkspaceManifest */
    method Verify(m: Manifest, io: Io) returns (ok: bool)
      requires Ascending(m.files)
      ensures ok <==> Verifies(m, disk) && forall p | p in m.files :: p !in io.refused
    {
      if m.revision == 0 || !AllManageable(m.files) { return false; }
      for i := 0 to |m.files|
        invariant forall j | 0 <= j < i :: m.files[j] in disk && m.files[j] !in io.refused
      {
        if m.files[i] in io.refused || m.files[i] !in disk { return false; }
      }
      var d := DigestListed(m.files, disk);
      return d == m.digest.digest;
    }

    /** root.RemoveAll of each path: the path and everything beneath it. */
    method RemoveTrees(paths: seq<Path>, io: Io) returns (ok: bool)
      modifies this`disk
      ensures ok ==> disk == Pruned(old(disk), paths)
      ensures io.refused == {} ==> ok
    {
      ghost var before := disk;
      assert Pruned(disk, []) == disk;
      for i := 0 to |paths|
        invariant disk == Pruned(before, paths[..i])
      {
        if paths[i] in io.refused {
          disk := disk + io.mangled;
          return false;
        }
        BeneathNext(paths, i);
        disk := map q | q in disk && !(q == paths[i] || HasPrefix(q, paths[i] + "/")) :: disk[q];
      }
      TakeAll(paths);
      return true;
    }

    // ----- authoritative sync -----

    /** What an authoritative sync has to run. */
    ghost function ToReload(w: World, req: SyncRequest): seq<string> {
      Commands(rules, globs, Found(w.stored), SyncTouched(w, req))
    }

    method ValidateBundle(files: seq<SourceFile>) returns (ok: bool)
      ensures ok <==> WellFormedBundle(utf8, files)
    {
      hide Manageable;
      var seen: set<Path> := {};
      for i := 0 to |files|
        invariant forall p :: p in seen <==> exists j :: 0 <= j < i && files[j].path == p
        invariant WellFormedBundle(utf8, files[..i])
      {
        var f := files[i];
        assert files[i] in files;
        if !Manageable(f.path) { return false; }
        if !f.binary && (!utf8(f.content) || NUL in f.content) { return false; }
        if f.path in seen { return false; }
        seen := seen + {f.path};
      }
      TakeAll(files);
      return true;
    }

    /** The checks of an authoritative sync that come before any write. */
    method Judge(req: SyncRequest, previous: Option<Manifest>, io: Io) returns (verdict: Verdict)
      requires WellFormed(stored) && previous == Found(stored)
      ensures verdict.Refused? <==>
                || req.revision == 0 || req.digest.None?
                || (exists p :: p in req.deletePaths && !Manageable(p))
                || (exists i, j :: 0 <= i < j < |req.files| && req.files[i].path == req.files[j].path)
                || (exists f :: f in req.files && !Manageable(f.path))
                || (exists f :: f in req.files && !f.binary && (!utf8(f.content) || NUL in f.content))
                || req.digest.value.digest != TreeDigest(Bundle(req.files))
                || (previous.Some? && req.revision < previous.value.revision)
                || (previous.Some? && req.revision == previous.value.revision &&
                    previous.value.digest.digest != req.digest.value.digest)
      ensures verdict.Refused? ==> verdict.status == 400 || verdict.status == 409
      ensures verdict.Already? ==> RepeatSync(View(), req, View())
      ensures io.refused == {} && !verdict.Refused? ==>
                (verdict.Already? <==>
                   && previous.Some? && req.revision == previous.value.revision
                   && previous.value.pending == [] && Verifies(previous.value, disk))
      ensures verdict.Refused? <==> !Acceptable(utf8, req, previous)
      ensures io.refused == {} && !verdict.Refused? ==> (verdict.Already? <==> RepeatSync(View(), req, View()))
      ensures !verdict.Refused? ==> req.revision != 0 && req.digest.Some? && WellFormedBundle(utf8, req.files)
      ensures verdict.Proceed? ==> Permitted(req, previous)
    {
      hide Manageable, TreeDigest, Bundle;
      if req.revision == 0 || req.digest.None? { return Refused(400); }
      if exists p | p in req.deletePaths :: !Manageable(p) { return Refused(400); }
      var ok := ValidateBundle(req.files);
      if !ok { return Refused(400); }
      var got := DigestBundle(req.files);
      if req.digest.value.digest != got { return Refused(409); }
      if previous.Some? {
        var m := previous.value;
        if req.revision < m.revision { return Refused(409); }
        if req.revision == m.revision {
          if m.digest.digest != got { return Refused(409); }
          if m.pending == [] {
            var verified := Verify(m, io);
            if verified { return Already; }
          }
        }
      }
      return Proceed;
    }

    /** The commands to run: those left unfinished, then those of the rules that fire. */
    method PlanReload(previous: Option<Manifest>, touched: seq<Path>) returns (commands: seq<string>)
      ensures commands == Commands(rules, globs, previous, touched)
    {
      var matched := MatchReloadRules(rules, globs, touched);
      if previous.None? { return matched; }
      commands := MergeReloadCommands(previous.value.pending, matched);
    }

    /** Write the bundle, delete what it replaces and plan the reload. */
    method ApplyBundle(req: SyncRequest, previous: Option<Manifest>, env: SyncEnv)
      returns (ok: bool, commands: seq<string>)
      requires previous == Found(stored)
      modifies this`disk
      ensures ok ==> disk == Applied(old(disk), previous, req)
      ensures ok ==> commands == Commands(rules, globs, previous, SyncTouched(old(View()), req))
      ensures env.writeIo.refused == {} && env.deleteIo.refused == {} ==> ok
    {
      ghost var before := disk;
      var written, changed := WriteFiles(req.files, env.writeIo);
      if !written { return false, []; }
      ghost var middle := disk;
      var removed, deleted := DeleteCandidates(previous, req.deletePaths, Bundle(req.files).Keys, env.deleteIo);
      if !removed { return false, []; }
      AppliedIs(before, previous, req);
      DoomedBefore(previous, req, before);
      commands := PlanReload(previous, changed + deleted);
      return true, commands;
    }

    /** After a reload hook: put the bundle, the manifest and the deletions back, then verify. */
    method Converge(req: SyncRequest, previous: Option<Manifest>, m: Manifest, env: SyncEnv) returns (ok: bool)
      requires stored == Kept(m) && Ascending(m.files)
      modifies this`disk, this`stored
      ensures stored == Kept(m)
      ensures ok ==> disk == Applied(old(disk), previous, req) - {TMP} && Verifies(m, disk)
      ensures Undisturbed(env) && WellFormedBundle(utf8, req.files) && m.revision != 0 && ForBundle(req, m) ==>
                (ok <==> TMP !in Bundle(req.files))
    {
      hide Bundle, InOrder, TreeDigest, Restrict, Verifies, WellFormedBundle, ForBundle, Applied;
      ghost var before := disk;
      var valid := ValidateBundle(req.files);
      if !valid { return false; }
      var restored, _ := WriteFiles(req.files, env.restoreIo);
      if !restored { return false; }
      ok := WriteManifest(m, env.secondManifest);
      if !ok { return false; }
      var removed, _ := DeleteCandidates(previous, req.deletePaths, Bundle(req.files).Keys, env.redeleteIo);
      if !removed { return false; }
      AppliedIs(before, previous, req);
      if m.revision != 0 && ForBundle(req, m) { AppliedVerifies(utf8, before, previous, req, m, disk); }
      ok := Verify(m, env.verifyIo);
    }

    /** An authoritative sync. `hooked` says whether the reload hook ran, `ran` what it ran
        successfully. */
    method AuthoritativeSync(req: SyncRequest, env: SyncEnv) returns (status: nat, hooked: bool, ran: seq<string>)
      requires WellFormed(stored)
      modifies this
      ensures WellFormed(stored)
      ensures AuthoritativeOutcome(rules, globs, utf8, old(View()), req,
                                   if hooked then env.hookDisk else old(disk), ran, status, View())
      ensures Undisturbed(env) ==>
                (status == 200 <==>
                   && Acceptable(utf8, req, Found(old(stored)))
                   && (|| RepeatSync(old(View()), req, old(View()))
                       || !env.restartNeeded || ToReload(old(View()), req) == [] || TMP !in Bundle(req.files)))
    {
      hide Acceptable, InOrder, TreeDigest, Bundle, TrimSpace, Manageable, Restrict, Commands, Published,
        SyncTouched, AuthoritativeOutcome, RepeatSync, WellFormedBundle, Found, Applied, Permitted, Lists, Agree,
        Ascending, StoredAdvances, Doomed;
      ghost var w := View();
      var previous := Found(stored);
      var verdict := Judge(req, previous, env.verifyIo);
      if !verdict.Proceed? {
        status := if verdict.Already? then 200 else verdict.status;
        Unapplied(rules, globs, utf8, w, req, status, View());
        return status, false, [];
      }
      var ok, commands := ApplyBundle(req, previous, env);
      if !ok {
        Unapplied(rules, globs, utf8, w, req, 500, View());
        return 500, false, [];
      }
      var paths := SortPaths(Bundle(req.files).Keys);
      var m := Manifest(req.revision, req.digest.value, paths, commands);
      Publishes(rules, globs, utf8, w, req, commands, m, []);
      ok := WriteManifest(m, env.firstManifest);
      if !ok {
        Unapplied(rules, globs, utf8, w, req, 500, View());
        return 500, false, [];
      }
      var done := Manifest(m.revision, m.digest, m.files, []);
      Publishes(rules, globs, utf8, w, req, commands, done, commands);
      status, hooked, ran := Reload(req, previous, m, env, w);
      Concluded(rules, globs, utf8, w, req, if hooked then env.hookDisk else w.disk, ran, status, View());
    }

    /** The second half of an authoritative sync, from the first write of its manifest on. */
    method Reload(req: SyncRequest, previous: Option<Manifest>, m: Manifest, env: SyncEnv, ghost w: World)
      returns (status: nat, hooked: bool, ran: seq<string>)
      requires stored == Kept(m) && Ascending(m.files) && checkpoints == w.checkpoints
      requires disk == Applied(w.disk, previous, req) - {TMP}
      requires Published(rules, globs, w, req, m, [])
      requires Published(rules, globs, w, req, Manifest(m.revision, m.digest, m.files, []), m.pending)
      modifies this`disk, this`stored
      ensures stored.Kept? && Ascending(stored.manifest.files)
      ensures Published(rules, globs, w, req, stored.manifest, ran)
      ensures status == 200 ==> disk == Applied(if hooked then env.hookDisk else w.disk, previous, req) - {TMP}
      ensures Undisturbed(env) && WellFormedBundle(utf8, req.files) && m.revision != 0 && ForBundle(req, m) ==>
                (status == 200 <==> !env.restartNeeded || m.pending == [] || TMP !in Bundle(req.files))
    {
      hide InOrder, TreeDigest, Bundle, TrimSpace, Manageable, Published, Applied;
      hooked, ran := false, [];
      if !env.statusOk { return 502, false, []; }
      if env.restartNeeded && m.pending != [] {
        disk := env.hookDisk;
        var ok := Converge(req, previous, m, env);
        if !ok { return 500, true, []; }
        if !env.reloadOk { return 200, true, []; }
        ok := WriteManifest(Manifest(m.revision, m.digest, m.files, []), env.thirdManifest);
        if !ok { return 500, true, []; }
        hooked, ran := true, m.pending;
      }
      if env.restartNeeded && !env.restartOk { return 500, hooked, ran; }
      return 200, hooked, ran;
    }

    // ----- plain sync -----

    /** The paths a plain sync manages afterwards. */
    method ManagedAfter(previous: Option<Manifest>, files: seq<SourceFile>, deletePaths: seq<Path>)
      returns (managed: set<Path>)
      ensures managed == PlainManaged(previous, Bundle(files).Keys, deletePaths)
    {
      managed := if previous.Some? then (set p | p in previous.value.files) else {};
      ghost var before := managed;
      for i := 0 to |files|
        invariant managed == before + set p | p in Bundle(files[..i]).Keys && Manageable(p)
      {
        BundleNext(files, i);
        if Manageable(files[i].path) { managed := managed + {files[i].path}; }
      }
      TakeAll(files);
      ghost var all := managed;
      for i := 0 to |deletePaths|
        invariant managed == set p | p in all && !Beneath(p, deletePaths[..i])
      {
        BeneathNext(deletePaths, i);
        managed := set p | p in managed && !(p == deletePaths[i] || HasPrefix(p, deletePaths[i] + "/"));
      }
      TakeAll(deletePaths);
    }

    /** The managed paths that are regular files, and their digest. */
    method DigestLive(managed: set<Path>, io: Io) returns (ok: bool, live: seq<Path>, d: Digest)
      ensures ok ==> Ascending(live) && live == InOrder(managed * disk.Keys) && d == TreeDigest(Restrict(disk, live))
      ensures io.refused == {} ==> ok
    {
      hide InOrder, Restrict, TreeDigest;
      var paths := SortPaths(managed);
      var digester := new SyncDigester();
      live := [];
      for i := 0 to |paths|
        invariant Ascending(live)
        invariant forall q :: q in live <==> q in paths[..i] && q in disk
        invariant digester.written == Encode(live, disk)
      {
        var p := paths[i];
        TakeNext(paths, i);
        if p in io.refused { return false, [], Sha256([]); }
        if p in disk {
          EncodeAppend(live, p, disk);
          AscendingAppend(paths, i, live);
          digester.Add(p, disk[p]);
          live := live + [p];
        }
      }
      TakeAll(paths);
      AscendingUnique(live, managed * disk.Keys);
      ListedDigest(live, disk);
      d := digester.Sum();
      ok := true;
    }

    /** stampPlainSyncManifest */
    method Stamp(previous: Option<Manifest>, managed: set<Path>, pending: seq<string>, io: Io, manifestIo: ManifestIo)
      returns (ok: bool, stamped: bool)
      modifies this`disk, this`stored
      ensures ok && !stamped ==> disk == old(disk) && previous.None? && managed * old(disk.Keys) == {}
      ensures stamped ==> ok && stored.Kept? && stored.manifest.pending == pending
                          && disk == old(disk) - {TMP} && Stamped(previous, old(disk), managed, stored.manifest)
                          && (previous.None? ==> managed * old(disk.Keys) != {})
      ensures !stamped ==> stored == old(stored)
      ensures io.refused == {} && manifestIo.Renamed? && CanAdvance(previous) ==> ok
    {
      var read, live, d := DigestLive(managed, io);
      if !read { return false, false; }
      if previous.None? && live == [] {
        return true, false;
      }
      var revision: nat, spelled := 1, DigestText(false, d);
      if previous.Some? {
        revision := previous.value.revision;
        if d != previous.value.digest.digest {
          if revision == MAX_REVISION { return false, false; }
          revision := revision + 1;
        } else {
          spelled := previous.value.digest;
        }
      }
      ok := WriteManifest(Manifest(revision, spelled, live, pending), manifestIo);
      stamped := ok;
    }

    /** Write the files, remove the deleted trees and plan the reload. */
    method ApplyPlain(req: SyncRequest, previous: Option<Manifest>, env: SyncEnv)
      returns (ok: bool, commands: seq<string>)
      modifies this`disk
      ensures ok ==> disk == Pruned(old(disk) + Bundle(req.files), req.deletePaths)
      ensures ok ==> commands == Commands(rules, globs, previous, PlainTouched(old(View()), req))
      ensures env.writeIo.refused == {} && env.deleteIo.refused == {} ==> ok
    {
      hide Bundle, Pruned, Commands, Changes, Agree;
      var written, changed := WriteFiles(req.files, env.writeIo);
      if !written { return false, []; }
      ok := RemoveTrees(req.deletePaths, env.deleteIo);
      if !ok { return false, []; }
      commands := PlanReload(previous, changed + req.deletePaths);
    }

    method PlainSync(req: SyncRequest, env: SyncEnv) returns (status: nat, hooked: bool, ran: seq<string>)
      requires WellFormed(stored)
      modifies this
      ensures WellFormed(stored)
      ensures PlainOutcome(rules, globs, old(View()), req,
                           if hooked then env.hookDisk else Pruned(old(disk) + Bundle(req.files), req.deletePaths),
                           ran, status, View())
      ensures Undisturbed(env) && CanAdvance(Found(old(stored))) ==> status == 200
    {
      hide InOrder, TreeDigest, Bundle, Pruned, TrimSpace, Manageable, Restrict, Commands, Changes, PlainOutcome, Found,
        PlainManaged, Stamped, WellFormed, Agree, Beneath;
      ghost var w := View();
      ghost var unhooked := Pruned(disk + Bundle(req.files), req.deletePaths);
      hooked, ran := false, [];
      var previous := Found(stored);
      var ok, commands := ApplyPlain(req, previous, env);
      if !ok {
        PlainFailed(rules, globs, w, req, unhooked, [], 500, View());
        return 500, false, [];
      }
      hide PlainTouched, CanAdvance;
      if !env.statusOk {
        PlainFailed(rules, globs, w, req, unhooked, [], 502, View());
        return 502, false, [];
      }
      var pending := commands;
      if env.restartNeeded && commands != [] {
        disk := env.hookDisk;
        hooked := true;
        if env.reloadOk { pending, ran := [], commands; }
      }
      ghost var base := disk;
      var managed := ManagedAfter(previous, req.files, req.deletePaths);
      var stamped;
      ok, stamped := Stamp(previous, managed, pending, env.verifyIo, env.thirdManifest);
      status := if !ok then 500
                else if env.restartNeeded && (pending == [] || !hooked) && !env.restartOk then 500 else 200;
      if stamped {
        PlainStamped(rules, globs, w, req, base, ran, status, View());
      } else if ok {
        PlainUnstamped(rules, globs, w, req, base, ran, status, View());
      } else {
        PlainFailed(rules, globs, w, req, base, ran, status, View());
      }
    }

    /** A sync is authoritative when it names a revision or a digest. */
    method Sync(req: SyncRequest, env: SyncEnv) returns (status: nat, hooked: bool, ran: seq<string>)
      requires WellFormed(stored)
      modifies this
      ensures WellFormed(stored)
      ensures req.revision != 0 || req.digest.Some? ==>
                AuthoritativeOutcome(rules, globs, utf8, old(View()), req,
                                     if hooked then env.hookDisk else old(disk), ran, status, View())
      ensures req.revision == 0 && req.digest.None? ==>
                PlainOutcome(rules, globs, old(View()), req,
                             if hooked then env.hookDisk else Pruned(old(disk) + Bundle(req.files), req.deletePaths),
                             ran, status, View())
      ensures Undisturbed(env) && (req.revision != 0 || req.digest.Some?) ==>
                (status == 200 <==>
                   && Acceptable(utf8, req, Found(old(stored)))
                   && (|| RepeatSync(old(View()), req, old(View()))
                       || !env.restartNeeded || ToReload(old(View()), req) == [] || TMP !in Bundle(req.files)))
      ensures Undisturbed(env) && req.revision == 0 && req.digest.None? && CanAdvance(Found(old(stored))) ==>
                status == 200
    {
      hide Acceptable, AuthoritativeOutcome, PlainOutcome;
      if req.revision != 0 || req.digest.Some? {
        status, hooked, ran := AuthoritativeSync(req, env);
      } else {
        status, hooked, ran := PlainSync(req, env);
      }
    }

    // ----- workspace verbs -----

    /** readManagedFiles */
    method ReadManaged(paths: seq<Path>, io: Io) returns (ok: bool, files: map<Path, WorkspaceFile>)
      ensures ok ==> files.Keys == PathSet(paths)
      ensures ok ==> forall p | p in files :: p in disk && files[p] == Classify(utf8, disk[p])
      ensures io.refused == {} && (forall p | p in paths :: p in disk) ==> ok
    {
      files := map[];
      for i := 0 to |paths|
        invariant files.Keys == PathSet(paths[..i])
        invariant forall p | p in files :: p in disk && files[p] == Classify(utf8, disk[p])
      {
        var p := paths[i];
        TakeNext(paths, i);
        if p in io.refused || p !in disk { return false, files; }
        files := files[p := Classify(utf8, disk[p])];
      }
      TakeAll(paths);
      return true, files;
    }

    /** The edits of a mutation on the file views: later ones see earlier ones, no path twice. */
    method EditFiles(files: map<Path, WorkspaceFile>, edits: seq<Edit>)
      returns (status: nat, edited: map<Path, WorkspaceFile>)
      requires Current(files, disk)
      ensures status == 200 ==>
                Current(edited, disk) && Contents(edited, disk) == EditTree(Contents(files, disk), edits)
      ensures status == 200 <==> Editable(utf8, edits) && |EditTree(Contents(files, disk), edits)| <= MAX_FILES
      ensures status == 200 ==> forall p | p in edited :: p in files || Manageable(p)
    {
      hide Manageable, Editable, EditTree, Contents, Current;
      edited := files;
      var seen: set<Path> := {};
      NoEdits(utf8, edits, Contents(files, disk));
      for i := 0 to |edits|
        invariant forall p :: p in seen <==> exists j :: 0 <= j < i && edits[j].path == p
        invariant Editable(utf8, edits[..i])
        invariant forall p | p in edited :: p in files || Manageable(p)
        invariant Current(edited, disk)
        invariant Contents(edited, disk) == EditTree(Contents(files, disk), edits[..i])
      {
        var p := edits[i].path;
        EditNext(Contents(files, disk), edits, i);
        EditableNext(utf8, edits, i);
        ContentsEdited(edited, disk, p);
        CurrentEdited(edited, disk, p);
        if !Manageable(p) || p in seen { return 400, edited; }
        seen := seen + {p};
        match edits[i] {
          case Write(_, content) =>
            if |content| > MAX_TEXT { return 413, edited; }
            if !utf8(content) || NUL in content { return 400, edited; }
            edited := edited[p := InMemory(content)];
          case Delete(_) =>
            edited := edited - {p};
        }
      }
      TakeAll(edits);
      ContentsKeys(edited, disk);
      assert |Contents(edited, disk)| == |Contents(edited, disk).Keys| && |edited| == |edited.Keys|;
      status := if |edited| > MAX_FILES then 413 else 200;
    }

    /** applyManagedContent */
    method ApplyFiles(files: map<Path, WorkspaceFile>, previous: seq<Path>, io: Io) returns (ok: bool)
      requires Current(files, disk)
      modifies this`disk
      ensures ok ==> disk == (old(disk) - (PathSet(previous) - files.Keys)) + Contents(files, old(disk))
      ensures io.refused == {} ==> ok
    {
      hide Contents, Current, ContentOf, Restrict;
      ghost var before := disk;
      ok := WriteViews(files, io);
      if !ok { return false; }
      ok := RemoveFiles(previous, files.Keys, io);
      ContentsKeys(files, before);
      Reordered(before, PathSet(previous) - files.Keys, Contents(files, before));
    }

    /** Text that differs is written; opaque files stay as they are on disk. */
    method WriteViews(files: map<Path, WorkspaceFile>, io: Io) returns (ok: bool)
      requires Current(files, disk)
      modifies this`disk
      ensures ok ==> disk == old(disk) + Contents(files, old(disk))
      ensures io.refused == {} ==> ok
    {
      hide Contents, Restrict, InOrder;
      ghost var before, t := disk, Contents(files, disk);
      var paths := SortPaths(files.Keys);
      ContentsKeys(files, before);
      RestrictNone(before, t);
      for i := 0 to |paths|
        invariant disk == before + Restrict(t, paths[..i])
      {
        var p := paths[i];
        RestrictNext(t, paths, i);
        Overlay(before, Restrict(t, paths[..i]), p, t[p]);
        ViewAt(files, before, paths[..i], p);
        if files[p].InMemory? && (p !in disk || disk[p] != files[p].content) {
          ok := WriteFile(p, files[p].content, io);
          if !ok { return false; }
        }
      }
      TakeAll(paths);
      RestrictAll(t, paths);
      return true;
    }

    /** Remove the listed files that are not kept. */
    method RemoveFiles(paths: seq<Path>, keep: set<Path>, io: Io) returns (ok: bool)
      modifies this`disk
      ensures ok ==> disk == old(disk) - (PathSet(paths) - keep)
      ensures io.refused == {} ==> ok
    {
      ghost var before := disk;
      for i := 0 to |paths|
        invariant disk == before - (PathSet(paths[..i]) - keep)
      {
        var p := paths[i];
        TakeNext(paths, i);
        if p !in keep {
          if p in io.refused { return false; }
          disk := disk - {p};
        }
      }
      TakeAll(paths);
      return true;
    }

    /** The manifest a workspace verb works on: present, verified, and as its caller expects. */
    method Ready(io: Io) returns (ok: bool)
      requires WellFormed(stored)
      ensures ok ==> Found(stored).Some? && Verifies(Found(stored).value, disk) && Ascending(Found(stored).value.files)
      ensures io.refused == {} && Found(stored).Some? && Verifies(Found(stored).value, disk) ==> ok
    {
      var found := Found(stored);
      if found.None? { return false; }
      ok := Verify(found.value, io);
    }

    /** Converge the managed files to the views and record them as the next revision. */
    method Replace(files: map<Path, WorkspaceFile>, digest: DigestText, applyIo: Io, manifestIo: ManifestIo)
      returns (status: nat)
      requires WellFormed(stored) && Found(stored).Some? && Current(files, disk)
      requires digest.digest == TreeDigest(Contents(files, disk)) && forall p | p in files :: Manageable(p)
      modifies this`disk, this`stored
      ensures WellFormed(stored)
      ensures StoredAdvances(old(stored), stored) && PendingCleared(old(stored), stored)
      ensures status == 200 ==> Replaced(old(View()), Found(old(stored)).value, Contents(files, old(disk)), View())
      ensures status == 200 ==> stored.manifest.digest == digest
      ensures applyIo.refused == {} && manifestIo.Renamed? && CanAdvance(Found(old(stored))) ==> status == 200
      ensures status == 200 ==> CanAdvance(Found(old(stored)))
    {
      hide Current, TreeDigest, InOrder, Manageable, TrimSpace, TrimAll, Verifies, Found, StoredAdvances, Contents,
        Restrict;
      ContentsKeys(files, disk);
      ghost var before := stored;
      var m := Found(stored).value;
      var ok := ApplyFiles(files, m.files, applyIo);
      StoredStays(before);
      if !ok { return 500; }
      if m.revision == MAX_REVISION { return 409; }
      var paths := SortPaths(files.Keys);
      NextAdvances(before, Manifest(m.revision + 1, digest, paths, []));
      ok := WriteManifest(Manifest(m.revision + 1, digest, paths, []), manifestIo);
      status := if ok then 200 else 500;
    }

    /** handleWorkspaceMutate */
    method Mutate(req: MutateRequest, io: Io, applyIo: Io, manifestIo: ManifestIo, restartOk: bool)
      returns (status: nat)
      requires WellFormed(stored)
      modifies this`disk, this`stored
      ensures WellFormed(stored)
      ensures MutateOutcome(old(View()), req, status, View())
      ensures status == 200 ==> Mutable(utf8, old(View()), req)
      ensures io.refused == {} && applyIo.refused == {} && manifestIo.Renamed? && restartOk ==>
                (Mutable(utf8, old(View()), req) ==> status == 200)
    {
      hide Current, TreeDigest, InOrder, Manageable, TrimSpace, TrimAll, Restrict, Replaced, EditTree, Contents,
        Classify;
      if req.expectedRevision == 0 || req.expectedDigest.None? { return 400; }
      if |req.edits| == 0 || |req.edits| > MAX_EDITS { return 400; }
      var ready := Ready(io);
      if !ready { return 409; }
      var m := Found(stored).value;
      if m.revision != req.expectedRevision || m.digest.digest != req.expectedDigest.value.digest { return 409; }
      var ok, files := ReadManaged(m.files, io);
      if !ok { return 409; }
      ReadRecords(utf8, files, disk, m.files);
      var edited;
      status, edited := EditFiles(files, req.edits);
      if status != 200 { return status; }
      var digested, d := DigestFiles(edited, disk, io);
      if !digested { return 409; }
      if d == m.digest.digest { return 200; }
      status := Replace(edited, DigestText(false, d), applyIo, manifestIo);
      if status == 200 && !restartOk { status := 502; }
    }

    /** handleWorkspaceCheckpoint, action "create". An expected revision of 0 asks for none. */
    method CreateCheckpoint(id: string, expectedRevision: Revision, expectedDigest: Option<DigestText>, io: Io,
                            saved: bool)
      returns (status: nat)
      requires WellFormed(stored)
      modifies this`checkpoints
      ensures CheckpointOutcome(old(View()), id, status, View())
      ensures status == 200 ==> Recordable(old(View()), id, expectedRevision, expectedDigest)
      ensures io.refused == {} && saved ==>
                (Recordable(old(View()), id, expectedRevision, expectedDigest) ==> status == 200)
    {
      hide InOrder, Restrict, TreeDigest, Manageable, TrimSpace, Classify, Current, Contents;
      var ready := Ready(io);
      if !ready { return 409; }
      var m := Found(stored).value;
      if expectedRevision != 0 && expectedRevision != m.revision { return 409; }
      if expectedDigest.Some? && expectedDigest.value.digest != m.digest.digest { return 409; }
      var ok, files := ReadManaged(m.files, io);
      if !ok { return 409; }
      ReadRecords(utf8, files, disk, m.files);
      if id in checkpoints {
        var kept := checkpoints[id];
        status := if kept.revision == m.revision && kept.digest.digest == m.digest.digest then 200 else 409;
        return;
      }
      if |checkpoints| >= MAX_CHECKPOINTS || |files| > MAX_FILES || !saved { return 409; }
      checkpoints := checkpoints[id := Checkpoint(m.revision, m.digest, files)];
      return 200;
    }

    method DeleteCheckpoint(id: string) returns (status: nat)
      modifies this`checkpoints
      ensures checkpoints == old(checkpoints) - {id}
      ensures status == 200 <==> id in old(checkpoints)
    {
      status := if id in checkpoints then 200 else 404;
      checkpoints := checkpoints - {id};
    }

    /** restoreWorkspaceCheckpoint: every opaque file is checked before anything is written. */
    method Restore(id: string, expectedRevision: Revision, expectedDigest: Option<DigestText>,
                   io: Io, applyIo: Io, manifestIo: ManifestIo) returns (status: nat)
      requires WellFormed(stored)
      modifies this`disk, this`stored
      ensures WellFormed(stored)
      ensures RestoreOutcome(old(View()), id, status, View())
      ensures status == 200 ==> Restorable(old(View()), id, expectedRevision, expectedDigest)
      ensures io.refused == {} && applyIo.refused == {} && manifestIo.Renamed? ==>
                (Restorable(old(View()), id, expectedRevision, expectedDigest) ==> status == 200)
    {
      if id !in checkpoints { return 404; }
      var ready := Ready(io);
      if !ready { return 409; }
      var m := Found(stored).value;
      if expectedRevision != 0 && expectedRevision != m.revision { return 409; }
      if expectedDigest.Some? && expectedDigest.value.digest != m.digest.digest { return 409; }
      var checkpoint := checkpoints[id];
      var digested, d := DigestFiles(checkpoint.files, disk, io);
      if !digested { return 409; }
      if d != checkpoint.digest.digest { return 409; }
      ghost var w := View();
      CurrentRecords(checkpoint.files, disk);
      status := Replace(checkpoint.files, checkpoint.digest, applyIo, manifestIo);
    }

    /** The admission half of a command: it runs only at the named revision and digest, with no
        reload pending, on managed files that verify. */
    method Admit(revision: Revision, digest: DigestText, io: Io) returns (ok: bool)
      requires WellFormed(stored)
      ensures ok ==> Admitted(View(), revision, digest.digest)
      ensures Admitted(View(), revision, digest.digest) && io.refused == {} ==> ok
    {
      var found := Found(stored);
      if found.None? { return false; }
      if found.value.revision != revision || found.value.digest.digest != digest.digest { return false; }
      if found.value.pending != [] { return false; }
      ok := Verify(found.value, io);
    }
  }

  /** The disk after a bundle is written and the files it replaces are deleted. */
  ghost function Applied(t: Tree, previous: Option<Manifest>, req: SyncRequest): Tree {
    (t - Doomed(previous, req.deletePaths, Bundle(req.files).Keys)) + Bundle(req.files)
  }

  lemma AppliedIs(t: Tree, previous: Option<Manifest>, req: SyncRequest)
    ensures var doomed := Doomed(previous, req.deletePaths, Bundle(req.files).Keys);
            && (t + Bundle(req.files)) - doomed == Applied(t, previous, req)
            && (t + Bundle(req.files)) - {TMP} - doomed == Applied(t, previous, req) - {TMP}
  {
  }

  /** The manifest `m` respects the revision rule, loses no command and is the request's. */
  ghost predicate Published(rules: seq<Rule>, globs: Glob, w: World, req: SyncRequest, m: Manifest, ran: seq<string>) {
    && StoredAdvances(w.stored, Kept(m))
    && PendingCarried(w.stored, Kept(m), ran)
    && PendingBounded(rules, w.stored, Kept(m))
    && Left(m, Commands(rules, globs, Found(w.stored), SyncTouched(w, req)), ran)
    && ForBundle(req, m)
  }

  ghost predicate ForBundle(req: SyncRequest, m: Manifest) {
    && m.revision == req.revision && Some(m.digest) == req.digest
    && m.digest.digest == TreeDigest(Bundle(req.files))
    && m.files == InOrder(Bundle(req.files).Keys)
  }

  /** The hook's disk with the bundle and the deletions put back verifies unless the manifest's temporary
      name is in the bundle. */
  lemma AppliedVerifies(utf8: Bytes -> bool, t: Tree, previous: Option<Manifest>, req: SyncRequest, m: Manifest,
                        disk: Tree)
    requires WellFormedBundle(utf8, req.files) && ForBundle(req, m) && m.revision != 0
    requires disk == Applied(t, previous, req) - {TMP}
    ensures Verifies(m, disk) <==> TMP !in Bundle(req.files)
  {
    hide InOrder, TreeDigest, Bundle, Manageable, WellFormedBundle, Doomed, Restrict, Applied;
    var bundle := Bundle(req.files);
    InOrderAscends(bundle.Keys);
    BundleManageable(utf8, req.files, m.files);
    AppliedHolds(t, previous, req, m.files, disk);
  }

  lemma AppliedHolds(t: Tree, previous: Option<Manifest>, req: SyncRequest, ps: seq<Path>, disk: Tree)
    requires Lists(ps, Bundle(req.files).Keys) && disk == Applied(t, previous, req) - {TMP}
    ensures if TMP in Bundle(req.files) then TMP in ps && TMP !in disk
            else (forall p | p in ps :: p in disk) && Restrict(disk, ps) == Bundle(req.files)
  {
    hide Bundle, Doomed;
  }

  lemma Unapplied(rules: seq<Rule>, globs: Glob, utf8: Bytes -> bool, w: World, req: SyncRequest, status: nat,
                  w': World)
    requires w'.checkpoints == w.checkpoints && w'.stored == w.stored
    requires status == 200 ==>
               req.revision != 0 && req.digest.Some? && WellFormedBundle(utf8, req.files) && RepeatSync(w, req, w')
    ensures AuthoritativeOutcome(rules, globs, utf8, w, req, w.disk, [], status, w')
  {
  }

  lemma Concluded(rules: seq<Rule>, globs: Glob, utf8: Bytes -> bool, w: World, req: SyncRequest, base: Tree,
                  ran: seq<string>, status: nat, w': World)
    requires req.revision != 0 && WellFormedBundle(utf8, req.files)
    requires w'.checkpoints == w.checkpoints && w'.stored.Kept?
    requires Published(rules, globs, w, req, w'.stored.manifest, ran)
    requires status == 200 ==> w'.disk == Applied(base, Found(w.stored), req) - {TMP}
    ensures AuthoritativeOutcome(rules, globs, utf8, w, req, base, ran, status, w')
  {
  }

  lemma Publishes(rules: seq<Rule>, globs: Glob, utf8: Bytes -> bool, w: World, req: SyncRequest, commands: seq<string>,
                  m: Manifest, ran: seq<string>)
    requires req.revision != 0 && WellFormedBundle(utf8, req.files) && Permitted(req, Found(w.stored))
    requires commands == Commands(rules, globs, Found(w.stored), SyncTouched(w, req)) && Left(m, commands, ran)
    requires m.revision == req.revision && m.digest == req.digest.value && m.files == InOrder(Bundle(req.files).Keys)
    ensures Published(rules, globs, w, req, m, ran)
  {
    hide InOrder, TreeDigest, Bundle, TrimSpace, Manageable, Commands, SyncTouched;
    InOrderAscends(Bundle(req.files).Keys);
    BundleManageable(utf8, req.files, m.files);
    assert StoredAdvances(w.stored, Kept(m));
    PlanKept(rules, globs, w.stored, SyncTouched(w, req), m, ran);
  }

  /** Leaving the commands pending, or having run them, loses none. */
  lemma PlanKept(rules: seq<Rule>, globs: Glob, s: Stored, touched: seq<Path>, m: Manifest, ran: seq<string>)
    requires Left(m, Commands(rules, globs, Found(s), touched), ran)
    ensures PendingCarried(s, Kept(m), ran)
    ensures PendingBounded(rules, s, Kept(m))
  {
    hide Commands, Found, TrimSpace;
    CommandsPlanned(rules, globs, s, touched);
  }

  lemma PlainFailed(rules: seq<Rule>, globs: Glob, w: World, req: SyncRequest, base: Tree, ran: seq<string>,
                    status: nat, w': World)
    requires w'.checkpoints == w.checkpoints && w'.stored == w.stored && status != 200
    ensures PlainOutcome(rules, globs, w, req, base, ran, status, w')
  {
  }

  lemma PlainUnstamped(rules: seq<Rule>, globs: Glob, w: World, req: SyncRequest, base: Tree, ran: seq<string>,
                       status: nat, w': World)
    requires w'.checkpoints == w.checkpoints && w'.stored == w.stored && w'.disk == base
    requires Found(w.stored).None? &&
             PlainManaged(Found(w.stored), Bundle(req.files).Keys, req.deletePaths) * base.Keys == {}
    ensures PlainOutcome(rules, globs, w, req, base, ran, status, w')
  {
  }

  lemma PlainStamped(rules: seq<Rule>, globs: Glob, w: World, req: SyncRequest, base: Tree,
                     ran: seq<string>, status: nat, w': World)
    requires w'.checkpoints == w.checkpoints && w'.stored.Kept? && w'.disk == base - {TMP}
    requires WellFormed(w.stored)
    requires var managed := PlainManaged(Found(w.stored), Bundle(req.files).Keys, req.deletePaths);
             && Stamped(Found(w.stored), base, managed, w'.stored.manifest)
             && (Found(w.stored).None? ==> managed * base.Keys != {})
    requires Left(w'.stored.manifest, Commands(rules, globs, Found(w.stored), PlainTouched(w, req)), ran)
    ensures WellFormed(w'.stored)
    ensures PlainOutcome(rules, globs, w, req, base, ran, status, w')
  {
    hide InOrder, TreeDigest, Bundle, Manageable, Restrict, TrimSpace, Commands, PlainTouched, Found, PlainManaged,
      Stamped, StoredAdvances, PendingCarried, PendingBounded, WellFormed;
    var m := w'.stored.manifest;
    PlanKept(rules, globs, w.stored, PlainTouched(w, req), m, ran);
    StampAdvances(w.stored, base, Bundle(req.files).Keys, req.deletePaths, m);
  }

  lemma StampAdvances(s: Stored, base: Tree, written: set<Path>, deletePaths: seq<Path>, m: Manifest)
    requires WellFormed(s) && Stamped(Found(s), base, PlainManaged(Found(s), written, deletePaths), m)
    ensures StoredAdvances(s, Kept(m)) && WellFormed(Kept(m))
  {
    hide InOrder, TreeDigest, Manageable, Restrict, Beneath;
    var managed := PlainManaged(Found(s), written, deletePaths);
    InOrderAscends(managed * base.Keys);
    forall p | p in m.files
      ensures Manageable(p)
    {
      assert p in managed;
    }
  }

  lemma BeneathNext(ps: seq<Path>, i: nat)
    requires i < |ps|
    ensures forall q :: Beneath(q, ps[..i + 1]) <==> Beneath(q, ps[..i]) || q == ps[i] || HasPrefix(q, ps[i] + "/")
  {
    TakeNext(ps, i);
    forall q
      ensures Beneath(q, ps[..i + 1]) <==> Beneath(q, ps[..i]) || q == ps[i] || HasPrefix(q, ps[i] + "/")
    {
      assert ps[i] in ps[..i + 1];
      assert forall p :: p in ps[..i + 1] <==> p in ps[..i] || p == ps[i];
    }
  }

  lemma EmptyAscends()
    ensures Ascending([])
  {
  }

  lemma AscendingAppend(ps: seq<Path>, i: nat, live: seq<Path>)
    requires i < |ps| && Ascending(ps) && Ascending(live) && forall q | q in live :: q in ps[..i]
    ensures Ascending(live + [ps[i]])
  {
    forall j | 0 <= j < |live|
      ensures Less(live[j], ps[i])
    {
      assert live[j] in ps[..i];
    }
  }

  lemma NextAdvances(s: Stored, m: Manifest)
    requires Found(s).Some? && m.revision == Found(s).value.revision + 1
    requires Ascending(m.files) && AllManageable(m.files)
    ensures StoredAdvances(s, Kept(m)) && WellFormed(Kept(m))
  {
  }

  lemma StoredStays(s: Stored)
    ensures StoredAdvances(s, s)
  {
  }

  lemma NoEdits(utf8: Bytes -> bool, edits: seq<Edit>, t: Tree)
    ensures Editable(utf8, edits[..0]) && EditTree(t, edits[..0]) == t
  {
  }

  lemma EditableNext(utf8: Bytes -> bool, edits: seq<Edit>, i: nat)
    requires i < |edits|
    ensures Editable(utf8, edits) ==> Editable(utf8, edits[..i + 1])
    ensures Editable(utf8, edits[..i + 1]) <==>
            && Editable(utf8, edits[..i]) && Manageable(edits[i].path)
            && (forall j | 0 <= j < i :: edits[j].path != edits[i].path)
            && (edits[i].Write? ==>
                  |edits[i].content| <= 0x10_0000 && utf8(edits[i].content) && NUL !in edits[i].content)
  {
    hide Manageable;
    TakeNext(edits, i);
    var next := edits[..i + 1];
    assert next[i] == edits[i] && edits[i] in next;
    assert forall e :: e in next <==> e in edits[..i] || e == edits[i];
  }

  lemma CurrentEdited(files: map<Path, WorkspaceFile>, disk: Tree, p: Path)
    requires Current(files, disk)
    ensures forall c :: Current(files[p := InMemory(c)], disk)
    ensures Current(files - {p}, disk)
  {
  }

  lemma ContentsEdited(files: map<Path, WorkspaceFile>, disk: Tree, p: Path)
    ensures forall c :: Contents(files[p := InMemory(c)], disk) == Contents(files, disk)[p := c]
    ensures Contents(files - {p}, disk) == Contents(files, disk) - {p}
  {
  }

  lemma ContentsKeys(files: map<Path, WorkspaceFile>, disk: Tree)
    ensures Contents(files, disk).Keys == files.Keys
  {
  }

  lemma RestrictNone(before: Tree, t: Tree)
    ensures before + Restrict(t, []) == before
  {
  }

  lemma RestrictNext(t: Tree, ps: seq<Path>, i: nat)
    requires i < |ps| && ps[i] in t
    ensures Restrict(t, ps[..i + 1]) == Restrict(t, ps[..i])[ps[i] := t[ps[i]]]
  {
    TakeNext(ps, i);
  }

  lemma ViewAt(files: map<Path, WorkspaceFile>, before: Tree, ps: seq<Path>, p: Path)
    requires Current(files, before) && p in files
    ensures Contents(files, before)[p] == if files[p].InMemory? then files[p].content else before[p]
    ensures files[p].OnDisk? ==>
              p in before && (before + Restrict(Contents(files, before), ps))[p] == Contents(files, before)[p]
  {
  }

  lemma ReadRecords(utf8: Bytes -> bool, files: map<Path, WorkspaceFile>, disk: Tree, ps: seq<Path>)
    requires files.Keys == PathSet(ps)
    requires forall p | p in files :: p in disk && files[p] == Classify(utf8, disk[p])
    ensures Current(files, disk) && Contents(files, disk) == Restrict(disk, ps)
    ensures Records(files, Restrict(disk, ps))
  {
  }

  /** Views that still match the disk hold the tree they stand for. */
  lemma CurrentRecords(files: map<Path, WorkspaceFile>, disk: Tree)
    requires Current(files, disk)
    ensures Records(files, Contents(files, disk))
  {
  }

  lemma Reordered(t: Tree, gone: set<Path>, target: Tree)
    requires gone !! target.Keys
    ensures (t + target) - gone == (t - gone) + target
  {
  }

  /** The write loop does not touch the doomed files. */
  lemma DoomedBefore(previous: Option<Manifest>, req: SyncRequest, before: Tree)
    ensures var doomed := Doomed(previous, req.deletePaths, Bundle(req.files).Keys);
            doomed * (before + Bundle(req.files)).Keys == doomed * before.Keys
  {
  }

  /** A sync is acceptable when its bundle, its deletions and its digest are right and its revision is
      later than the applied one, or the same with the same digest. */
  ghost predicate Acceptable(utf8: Bytes -> bool, req: SyncRequest, previous: Option<Manifest>) {
    && req.revision != 0 && AllManageable(req.deletePaths) && WellFormedBundle(utf8, req.files)
    && Permitted(req, previous)
  }

  /** Edits of different unreserved paths that write only NUL-free UTF-8 text of at most 1 MiB. */
  ghost predicate Editable(utf8: Bytes -> bool, edits: seq<Edit>) {
    && (forall i, j | 0 <= i < j < |edits| :: edits[i].path != edits[j].path)
    && forall e | e in edits ::
         Manageable(e.path) && (e.Write? ==> |e.content| <= 0x10_0000 && utf8(e.content) && NUL !in e.content)
  }

  /** The workspace is verified, at the expected revision and digest where these are named. */
  ghost predicate Expected(w: World, revision: Revision, digest: Option<DigestText>) {
    && Found(w.stored).Some? && Verifies(Found(w.stored).value, w.disk)
    && (revision == 0 || Found(w.stored).value.revision == revision)
    && (digest.Some? ==> Found(w.stored).value.digest.digest == digest.value.digest)
  }

  /** What a mutation needs. */
  ghost predicate Mutable(utf8: Bytes -> bool, w: World, req: MutateRequest) {
    && req.expectedRevision != 0 && req.expectedDigest.Some? && Expected(w, req.expectedRevision, req.expectedDigest)
    && 0 < |req.edits| <= 256 && Editable(utf8, req.edits)
    && var m := Found(w.stored).value;
       var target := EditTree(Restrict(w.disk, m.files), req.edits);
       |target| <= 512 && (TreeDigest(target) == m.digest.digest || m.revision < MAX_REVISION)
  }

  /** What a checkpoint needs: the same one again, or room for a new one. */
  ghost predicate Recordable(w: World, id: string, revision: Revision, digest: Option<DigestText>) {
    && Expected(w, revision, digest)
    && var m := Found(w.stored).value;
       if id in w.checkpoints then
         w.checkpoints[id].revision == m.revision && w.checkpoints[id].digest.digest == m.digest.digest
       else |w.checkpoints| < 64 && |Restrict(w.disk, m.files)| <= 512
  }

  /** What a restore needs: a checkpoint whose opaque files are still on disk, and a next revision. */
  ghost predicate Restorable(w: World, id: string, revision: Revision, digest: Option<DigestText>) {
    && Expected(w, revision, digest) && CanAdvance(Found(w.stored)) && id in w.checkpoints
    && var files := w.checkpoints[id].files;
       && Current(files, w.disk) && (forall p | p in files :: Manageable(p))
       && TreeDigest(Contents(files, w.disk)) == w.checkpoints[id].digest.digest
  }

  /** There is a next revision. */
  predicate CanAdvance(previous: Option<Manifest>) {
    previous.Some? ==> previous.value.revision < MAX_REVISION
  }

  /** Every access of the sync succeeds, and so do the runtime's status and restart. */
  predicate Undisturbed(env: SyncEnv) {
    && env.writeIo.refused == {} && env.deleteIo.refused == {} && env.firstManifest.Renamed?
    && env.restoreIo.refused == {} && env.secondManifest.Renamed? && env.redeleteIo.refused == {}
    && env.verifyIo.refused == {} && env.thirdManifest.Renamed?
    && env.statusOk && env.restartOk
  }

  datatype Verdict = Refused(status: nat) | Already | Proceed

  /** The revision rule of an authoritative sync; its digest is that of its files. */
  ghost predicate Permitted(req: SyncRequest, previous: Option<Manifest>) {
    && req.digest.Some?
    && req.digest.value.digest == TreeDigest(Bundle(req.files))
    && (previous.Some? ==>
          || previous.value.revision < req.revision
          || (previous.value.revision == req.revision && previous.value.digest.digest == req.digest.value.digest))
  }

  ghost predicate Bounded(rules: seq<Rule>, commands: seq<string>) {
    |commands| <= |rules| && forall c | c in commands :: SomeRule(rules, TrimSpace(c))
  }

  /** A plan holds every unfinished command, and nothing but commands of rules if these do. */
  ghost predicate Planned(rules: seq<Rule>, previous: Option<Manifest>, commands: seq<string>) {
    && (previous.Some? ==> forall c | c in previous.value.pending :: c in commands)
    && ((previous.Some? ==> Bounded(rules, previous.value.pending)) ==> Bounded(rules, commands))
  }

  lemma CommandsPlanned(rules: seq<Rule>, globs: Glob, s: Stored, touched: seq<Path>)
    ensures Planned(rules, Found(s), Commands(rules, globs, Found(s), touched))
  {
    hide Matched, Deduplicated, Fires, Found, TrimAll, TrimSpace;
    var matched := Matched(rules, globs, touched);
    MatchedFacts(rules, globs, touched);
    if Found(s).None? {
      MatchedPlanned(rules, matched);
    } else {
      DeduplicatedFacts(TrimAll(Found(s).value.pending + matched));
      MergedPlanned(rules, s, matched, Commands(rules, globs, Found(s), touched));
    }
  }

  lemma MatchedPlanned(rules: seq<Rule>, matched: seq<string>)
    requires |matched| <= |rules| && forall c | c in matched :: exists r :: r in rules && r.command == c
    ensures Planned(rules, None, matched)
  {
    forall c | c in matched
      ensures SomeRule(rules, TrimSpace(c))
    {
      var r :| r in rules && r.command == c;
    }
  }

  lemma MergedPlanned(rules: seq<Rule>, s: Stored, matched: seq<string>, commands: seq<string>)
    requires Found(s).Some?
    requires forall c | c in matched :: exists r :: r in rules && r.command == c
    requires Distinct(commands)
    requires forall c :: c in commands <==> c != "" && c in TrimAll(Found(s).value.pending + matched)
    ensures Planned(rules, Found(s), commands)
  {
    var before := Found(s).value.pending;
    forall c | c in before
      ensures c in commands
    {
      FoundTrimmed(s, c);
      TrimmedIn(before + matched, c);
    }
    if Bounded(rules, before) {
      forall c | c in commands
        ensures SomeRule(rules, c) && SomeRule(rules, TrimSpace(c))
      {
        MergedFromRules(rules, before, matched, c);
      }
      CommandsBounded(rules, commands);
    }
  }

  lemma MergedFromRules(rules: seq<Rule>, before: seq<string>, matched: seq<string>, c: string)
    requires forall x | x in before :: SomeRule(rules, TrimSpace(x))
    requires forall x | x in matched :: exists r :: r in rules && r.command == x
    requires c in TrimAll(before + matched)
    ensures SomeRule(rules, c) && SomeRule(rules, TrimSpace(c))
  {
    var x := Untrim(before + matched, c);
    if x in matched {
      var r :| r in rules && r.command == x;
      assert TrimSpace(r.command) == c;
    }
  }

  lemma ChangesNext(disk: Tree, files: seq<SourceFile>, i: nat)
    requires i < |files|
    ensures var f, before := files[i], disk + Bundle(files[..i]);
            Changes(disk, files[..i + 1]) ==
            Changes(disk, files[..i]) + if f.path in before && before[f.path] == f.content then [] else [f.path]
  {
    assert files[..i + 1][..i] == files[..i];
  }

  lemma Overlay(before: Tree, done: Tree, p: Path, content: Bytes)
    ensures before + done[p := content] == (before + done)[p := content]
    ensures p in before + done && (before + done)[p] == content ==> before + done[p := content] == before + done
  {
  }

  /** The doomed paths among `done` are gone, the rest is as before. */
  ghost predicate Culled(before: Tree, after: Tree, done: seq<Path>, doomed: set<Path>) {
    && (forall q :: q in after <==> q in before && !(q in done && q in doomed))
    && (forall q | q in after :: after[q] == before[q])
  }

  lemma DoomedIs(previous: Option<Manifest>, deletePaths: seq<Path>, incoming: set<Path>, managed: set<Path>,
                 candidates: set<Path>)
    requires managed == if previous.Some? then PathSet(previous.value.files) else {}
    requires candidates == managed + PathSet(deletePaths)
    ensures Doomed(previous, deletePaths, incoming) <= candidates
    ensures forall p | p in candidates ::
              p in Doomed(previous, deletePaths, incoming) <==> p !in incoming && (previous.None? || p in managed)
  {
  }

  lemma CullNone(before: Tree, doomed: set<Path>)
    ensures Culled(before, before, [], doomed)
  {
  }

  lemma CullAll(before: Tree, after: Tree, ps: seq<Path>, doomed: set<Path>)
    requires Culled(before, after, ps, doomed) && forall p | p in doomed :: p in ps
    ensures after == before - doomed
  {
  }

  lemma CullAgree(before: Tree, after: Tree, ps: seq<Path>, doomed: set<Path>)
    requires Culled(before, after, ps, doomed)
    ensures Agree(before, after, doomed)
  {
  }

  /** A path not yet reached is as before. */
  lemma CullAt(before: Tree, after: Tree, ps: seq<Path>, i: nat, doomed: set<Path>)
    requires i < |ps| && Ascending(ps) && Culled(before, after, ps[..i], doomed)
    ensures ps[i] in after <==> ps[i] in before
  {
    if ps[i] in ps[..i] {
      var j :| 0 <= j < i && ps[j] == ps[i];
      LessTotal(ps[i], ps[i]);
    }
  }

  lemma CullNext(before: Tree, after: Tree, ps: seq<Path>, i: nat, doomed: set<Path>)
    requires i < |ps| && Culled(before, after, ps[..i], doomed)
    ensures ps[i] in doomed ==> Culled(before, after - {ps[i]}, ps[..i + 1], doomed)
    ensures ps[i] !in doomed || ps[i] !in after ==> Culled(before, after, ps[..i + 1], doomed)
  {
    TakeNext(ps, i);
  }

  lemma BundleGrows(files: seq<SourceFile>, i: nat)
    requires i <= |files|
    ensures Bundle(files[..i]).Keys <= Bundle(files).Keys
    decreases |files| - i
  {
    if i == |files| {
      TakeAll(files);
    } else {
      BundleNext(files, i);
      BundleGrows(files, i + 1);
    }
  }
}
