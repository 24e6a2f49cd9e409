/** Values of the workspace revision store: the manifest, requests, and what each operation
    promises about the disk and the manifest it leaves (dev-agent/main.go, workspace.go). */
module WorkspaceModel {
  import opened Collections
  import opened WorkspaceDigest
  import opened GoStrings

  const MAX_REVISION: nat := 0xFFFF_FFFF_FFFF_FFFF
  type Revision = n: nat | n <= MAX_REVISION

  /** The manifest is written to this name and renamed over the manifest. */
  const TMP: Path := ".railgrid-workspace-manifest.json.tmp"

  /** validateManagedWorkspacePath: no reserved component. */
  predicate Manageable(p: Path) {
    forall part | part in Split(p, '/') ::
      ToLower(part) != ".git" && ToLower(part) != "node_modules" && ToLower(part) != ".assistant-snapshots"
  }

  predicate AllManageable(ps: seq<Path>) {
    forall p | p in ps :: Manageable(p)
  }

  /** A digest as spelled on the wire, with or without the "sha256:" prefix. */
  datatype DigestText = DigestText(prefixed: bool, digest: Digest)

  datatype Manifest = Manifest(revision: Revision, digest: DigestText, files: seq<Path>, pending: seq<string>)

  /** What the manifest file holds. Nobody but the agent writes it. */
  datatype Stored = Absent | Corrupt | Kept(manifest: Manifest)

  const MAX_PENDING: nat := 32
  const MAX_COMMAND: nat := 4096

  predicate FitCommand(c: string) {
    TrimSpace(c) != "" && |TrimSpace(c)| <= MAX_COMMAND
  }

  /** What readWorkspaceManifest accepts of a manifest the agent wrote. */
  predicate Readable(m: Manifest) {
    && m.revision != 0
    && AllManageable(m.files)
    && |m.pending| <= MAX_PENDING
    && forall c | c in m.pending :: FitCommand(c)
  }

  function Found(s: Stored): Option<Manifest> {
    if s.Kept? && Readable(s.manifest) then Some(s.manifest.(pending := TrimAll(s.manifest.pending))) else None
  }

  ghost predicate WellFormed(s: Stored) {
    s.Kept? ==> Ascending(s.manifest.files)
  }

  ghost function PathSet(ps: seq<Path>): set<Path> { set p | p in ps }

  function Restrict(t: Tree, ps: seq<Path>): Tree {
    map p | p in t && p in ps :: t[p]
  }

  /** verifyWorkspaceManifest */
  ghost predicate Verifies(m: Manifest, disk: Tree) {
    && m.revision != 0
    && AllManageable(m.files)
    && (forall p | p in m.files :: p in disk)
    && m.digest.digest == TreeDigest(Restrict(disk, m.files))
  }

  /** Workspace state: regular files outside the manifest, the manifest, the checkpoints. */
  datatype World = World(disk: Tree, stored: Stored, checkpoints: map<string, Checkpoint>)

  // ----- managed files as the workspace verbs see them -----

  /** Text carries its bytes; anything else is known by digest and size, its bytes on disk. */
  datatype WorkspaceFile = InMemory(content: Bytes) | OnDisk(digest: Digest, size: nat)

  datatype Checkpoint = Checkpoint(revision: Revision, digest: DigestText, files: map<Path, WorkspaceFile>)

  const MAX_TEXT: nat := 0x10_0000
  const MAX_FILES: nat := 512
  const MAX_EDITS: nat := 256
  const MAX_CHECKPOINTS: nat := 64

  /** isWorkspaceText */
  predicate IsText(utf8: Bytes -> bool, content: Bytes) {
    |content| <= MAX_TEXT && utf8(content) && NUL !in content
  }

  /** classifyWorkspaceBytes of bytes read from disk. */
  function Classify(utf8: Bytes -> bool, content: Bytes): WorkspaceFile {
    if IsText(utf8, content) then InMemory(content) else OnDisk(Sha256(content), |content|)
  }

  predicate Describes(f: WorkspaceFile, content: Bytes) {
    match f
    case InMemory(c) => c == content
    case OnDisk(d, n) => d == Sha256(content) && n == |content|
  }

  /** The file views hold exactly the tree. */
  ghost predicate Records(files: map<Path, WorkspaceFile>, t: Tree) {
    files.Keys == t.Keys && forall p | p in files :: Describes(files[p], t[p])
  }

  /** A view describes one tree only: opaque files too, by their own digest. */
  lemma RecordsUnique(files: map<Path, WorkspaceFile>, t: Tree, u: Tree)
    requires Records(files, t) && Records(files, u)
    ensures t == u
  {
    forall p | p in t ensures t[p] == u[p] { assert Describes(files[p], t[p]) && Describes(files[p], u[p]); }
  }

  // ----- requests -----

  /** `binary` entries were sent as base64 and may hold any bytes. */
  datatype SourceFile = SourceFile(path: Path, content: Bytes, binary: bool)

  /** The files of a request; a later entry for the same path wins. */
  function Bundle(files: seq<SourceFile>): Tree {
    if files == [] then map[]
    else Bundle(files[..|files| - 1])[files[|files| - 1].path := files[|files| - 1].content]
  }

  lemma BundleNext(files: seq<SourceFile>, i: nat)
    requires i < |files|
    ensures Bundle(files[..i + 1]) == Bundle(files[..i])[files[i].path := files[i].content]
  {
    assert files[..i + 1][..i] == files[..i];
  }

  predicate DistinctPaths(files: seq<SourceFile>) {
    forall i, j | 0 <= i < j < |files| :: files[i].path != files[j].path
  }

  /** A sync is authoritative when it names a revision or a digest; it then has to name both. */
  datatype SyncRequest = SyncRequest(
    files: seq<SourceFile>, deletePaths: seq<Path>, revision: Revision, digest: Option<DigestText>)

  /** validateAuthoritativeSyncFiles */
  predicate WellFormedBundle(utf8: Bytes -> bool, files: seq<SourceFile>) {
    && DistinctPaths(files)
    && forall f | f in files :: Manageable(f.path) && (f.binary || (utf8(f.content) && NUL !in f.content))
  }

  datatype Edit = Write(path: Path, content: Bytes) | Delete(path: Path)

  datatype MutateRequest = MutateRequest(edits: seq<Edit>, expectedRevision: Revision,
                                         expectedDigest: Option<DigestText>)

  /** The tree after the edits, in order. */
  function EditTree(t: Tree, edits: seq<Edit>): Tree {
    if edits == [] then t
    else
      var before := EditTree(t, edits[..|edits| - 1]);
      match edits[|edits| - 1]
      case Write(p, c) => before[p := c]
      case Delete(p) => before - {p}
  }

  lemma EditNext(t: Tree, edits: seq<Edit>, i: nat)
    requires i < |edits|
    ensures EditTree(t, edits[..i + 1]) ==
            match edits[i]
            case Write(p, c) => EditTree(t, edits[..i])[p := c]
            case Delete(p) => EditTree(t, edits[..i]) - {p}
  {
    assert edits[..i + 1][..i] == edits[..i];
  }

  lemma BundleManageable(utf8: Bytes -> bool, files: seq<SourceFile>, ps: seq<Path>)
    requires WellFormedBundle(utf8, files) && Lists(ps, Bundle(files).Keys)
    ensures AllManageable(ps)
  {
    forall p | p in ps
      ensures Manageable(p)
    {
      SourceManageable(files, p);
    }
  }

  lemma SourceManageable(files: seq<SourceFile>, p: Path)
    requires forall f | f in files :: Manageable(f.path)
    requires p in Bundle(files)
    ensures Manageable(p)
  {
    var f := BundleSource(files, p);
  }

  lemma BundleSource(files: seq<SourceFile>, p: Path) returns (f: SourceFile)
    requires p in Bundle(files)
    ensures f in files && f.path == p
  {
    f := files[|files| - 1];
    if f.path != p { f := BundleSource(files[..|files| - 1], p); }
  }

  // ----- trees -----

  /** The trees hold the same files outside `off`. */
  ghost predicate Agree(t: Tree, u: Tree, off: set<Path>) {
    forall p | p !in off :: (p in t <==> p in u) && (p in t && p in u ==> t[p] == u[p])
  }

  /** `q` is one of the paths or lies beneath one of them. */
  predicate Beneath(q: Path, ps: seq<Path>) {
    exists p :: p in ps && (q == p || HasPrefix(q, p + "/"))
  }

  function Pruned(t: Tree, ps: seq<Path>): Tree {
    map q | q in t && !Beneath(q, ps) :: t[q]
  }

  // ----- reload rules -----

  datatype Rule = Rule(paths: seq<string>, command: string)

  type Glob = (string, Path) -> bool

  /** The rule fires for one of the touched paths. */
  ghost predicate Fires(globs: Glob, r: Rule, touched: seq<Path>) {
    exists pattern, p :: pattern in r.paths && p in touched && globs(pattern, p)
  }

  /** The commands of the rules that fire, each once, in declaration order. */
  ghost function Matched(rules: seq<Rule>, globs: Glob, touched: seq<Path>): seq<string> {
    if rules == [] then []
    else
      var front := Matched(rules[..|rules| - 1], globs, touched);
      var rule := rules[|rules| - 1];
      if rule.command !in front && Fires(globs, rule, touched) then front + [rule.command] else front
  }

  /** The non-empty strings of a list, each once, in order. */
  function Deduplicated(all: seq<string>): seq<string> {
    if all == [] then []
    else
      var front := Deduplicated(all[..|all| - 1]);
      var last := all[|all| - 1];
      if last != "" && last !in front then front + [last] else front
  }

  /** What a sync has to run: the commands left unfinished, then those of the rules that fire. */
  ghost function Commands(rules: seq<Rule>, globs: Glob, previous: Option<Manifest>, touched: seq<Path>): seq<string> {
    var matched := Matched(rules, globs, touched);
    if previous.None? then matched else Deduplicated(TrimAll(previous.value.pending + matched))
  }

  ghost predicate SomeRule(rules: seq<Rule>, command: string) {
    exists r :: r in rules && TrimSpace(r.command) == command
  }

  /** The manifest's unfinished commands all come from the rules. */
  ghost predicate FromRules(rules: seq<Rule>, m: Manifest) {
    |m.pending| <= |rules| && forall c | c in m.pending :: SomeRule(rules, TrimSpace(c))
  }

  ghost predicate FitRules(rules: seq<Rule>) {
    |rules| <= MAX_PENDING && forall r | r in rules :: FitCommand(r.command)
  }

  lemma Untrim(cs: seq<string>, c: string) returns (x: string)
    requires c in TrimAll(cs)
    ensures x in cs && TrimSpace(x) == c && TrimSpace(c) == c
  {
    var i :| 0 <= i < |cs| && TrimAll(cs)[i] == c;
    x := cs[i];
    TrimSpaceFixes(x);
  }

  lemma FoundTrimmed(s: Stored, c: string)
    requires Found(s).Some? && c in Found(s).value.pending
    ensures c != "" && TrimSpace(c) == c
  {
    AllTrimmed(s.manifest.pending, c);
  }

  lemma AllTrimmed(cs: seq<string>, c: string)
    requires forall x | x in cs :: FitCommand(x)
    requires c in TrimAll(cs)
    ensures c != "" && TrimSpace(c) == c
  {
    var x := Untrim(cs, c);
    assert FitCommand(x);
  }

  lemma TrimmedIn(cs: seq<string>, c: string)
    requires c in cs
    ensures TrimSpace(c) in TrimAll(cs)
  {
    var i :| 0 <= i < |cs| && cs[i] == c;
    assert TrimAll(cs)[i] == TrimSpace(c);
  }

  // ----- what the operations promise -----

  /** The revision rule: later, or the same with the same content digest. */
  predicate Advances(m: Manifest, m': Manifest) {
    m.revision < m'.revision || (m.revision == m'.revision && m.digest.digest == m'.digest.digest)
  }

  /** What every operation keeps of the manifest, whatever it answers. */
  ghost predicate StoredAdvances(s: Stored, s': Stored) {
    s' == s || (s'.Kept? && s'.manifest.revision != 0 && Ascending(s'.manifest.files) &&
                AllManageable(s'.manifest.files) &&
                (Found(s).Some? ==> Advances(Found(s).value, s'.manifest)))
  }

  /** Unfinished reload commands survive unless this operation ran them successfully. */
  ghost predicate PendingCarried(s: Stored, s': Stored, ran: seq<string>) {
    s' == s || (s'.Kept? && (Found(s).Some? ==>
      forall c | c in Found(s).value.pending :: c in s'.manifest.pending || c in ran))
  }

  /** Nothing was run and all commands are pending, or all were run and none is. */
  predicate Left(m: Manifest, commands: seq<string>, ran: seq<string>) {
    (m.pending == commands && ran == []) || (m.pending == [] && ran == commands)
  }

  /** The paths the write loop of a sync writes: those whose content differs when their turn comes. */
  function Changes(disk: Tree, files: seq<SourceFile>): seq<Path> {
    if files == [] then []
    else
      var front, last := files[..|files| - 1], files[|files| - 1];
      var before := disk + Bundle(front);
      Changes(disk, front) +
      if last.path in before && before[last.path] == last.content then [] else [last.path]
  }

  ghost predicate PendingBounded(rules: seq<Rule>, s: Stored, s': Stored) {
    s' == s || (s'.Kept? && ((Found(s).Some? ==> FromRules(rules, Found(s).value)) ==> FromRules(rules, s'.manifest)))
  }

  /** Files a sync may delete: what the last manifest managed, or without a readable manifest what
      the request names, but never a file of the bundle. */
  ghost function Doomed(previous: Option<Manifest>, deletePaths: seq<Path>, incoming: set<Path>): set<Path> {
    (if previous.Some? then PathSet(previous.value.files) else PathSet(deletePaths)) - incoming
  }

  /** The disk a full authoritative sync leaves, from the disk its last hook left. */
  ghost function Synced(base: Tree, doomed: set<Path>, bundle: Tree): Tree {
    ((base - doomed) + bundle) - {TMP}
  }

  /** The repeated sync of an already applied revision changes nothing. */
  ghost predicate RepeatSync(w: World, req: SyncRequest, w': World) {
    && w' == w
    && Found(w.stored).Some?
    && var m := Found(w.stored).value;
       && m.revision == req.revision && m.pending == []
       && m.digest.digest == TreeDigest(Bundle(req.files))
       && Verifies(m, w.disk)
  }

  /** `base` is the disk as the reload hook left it, or the disk before the sync when none ran. */
  ghost predicate FullSync(w: World, req: SyncRequest, base: Tree, w': World) {
    var bundle := Bundle(req.files);
    && w'.disk == Synced(base, Doomed(Found(w.stored), req.deletePaths, bundle.Keys), bundle)
    && w'.stored.Kept?
    && w'.stored.manifest.revision == req.revision
    && Some(w'.stored.manifest.digest) == req.digest
    && w'.stored.manifest.digest.digest == TreeDigest(bundle)
    && w'.stored.manifest.files == InOrder(bundle.Keys)
  }

  /** The paths an authoritative sync alters: what it writes, then what it deletes. */
  ghost function SyncTouched(w: World, req: SyncRequest): seq<Path> {
    Changes(w.disk, req.files) +
    InOrder(Doomed(Found(w.stored), req.deletePaths, Bundle(req.files).Keys) * w.disk.Keys)
  }

  ghost predicate AuthoritativeOutcome(rules: seq<Rule>, globs: Glob, utf8: Bytes -> bool, w: World, req: SyncRequest,
                                       base: Tree, ran: seq<string>, status: nat, w': World) {
    && w'.checkpoints == w.checkpoints
    && StoredAdvances(w.stored, w'.stored)
    && PendingCarried(w.stored, w'.stored, ran)
    && PendingBounded(rules, w.stored, w'.stored)
    && (status == 200 ==>
          && req.revision != 0 && req.digest.Some? && WellFormedBundle(utf8, req.files)
          && (|| RepeatSync(w, req, w')
              || (FullSync(w, req, base, w') &&
                  Left(w'.stored.manifest, Commands(rules, globs, Found(w.stored), SyncTouched(w, req)), ran))))
  }

  /** The files a plain sync manages afterwards, before dropping those no longer on disk. */
  ghost function PlainManaged(previous: Option<Manifest>, written: set<Path>, deletePaths: seq<Path>): set<Path> {
    var listed := if previous.Some? then PathSet(previous.value.files) else {};
    var before := listed + set p | p in written && Manageable(p);
    set p | p in before && !Beneath(p, deletePaths)
  }

  /** The manifest a plain sync stamps over the disk `base`. */
  ghost predicate Stamped(previous: Option<Manifest>, base: Tree, managed: set<Path>, m: Manifest) {
    && m.files == InOrder(managed * base.Keys)
    && m.digest.digest == TreeDigest(Restrict(base, m.files))
    && match previous
       case None => m.revision == 1
       case Some(p) =>
         && m.revision == (if m.digest.digest == p.digest.digest then p.revision else p.revision + 1)
         && (m.revision == p.revision ==> m.digest == p.digest)
  }

  /** The paths a plain sync reports: what it writes, then what it was asked to delete. */
  function PlainTouched(w: World, req: SyncRequest): seq<Path> {
    Changes(w.disk, req.files) + req.deletePaths
  }

  /** `base` is the disk as the reload hook left it, or what writing and deleting made of it when
      none ran. */
  ghost predicate PlainOutcome(rules: seq<Rule>, globs: Glob, w: World, req: SyncRequest, base: Tree,
                               ran: seq<string>, status: nat, w': World) {
    var previous := Found(w.stored);
    var managed := PlainManaged(previous, Bundle(req.files).Keys, req.deletePaths);
    && w'.checkpoints == w.checkpoints
    && StoredAdvances(w.stored, w'.stored)
    && PendingCarried(w.stored, w'.stored, ran)
    && PendingBounded(rules, w.stored, w'.stored)
    && (status == 200 ==>
          if previous.None? && managed * base.Keys == {} then w'.stored == w.stored && w'.disk == base
          else
            && w'.stored.Kept? && w'.disk == base - {TMP}
            && Stamped(previous, base, managed, w'.stored.manifest)
            && Left(w'.stored.manifest, Commands(rules, globs, previous, PlainTouched(w, req)), ran))
  }

  ghost predicate PendingCleared(s: Stored, s': Stored) {
    s' == s || (s'.Kept? && s'.manifest.pending == [])
  }

  /** An operation that ends in a manifest for `target`, one revision on. */
  ghost predicate Replaced(w: World, m: Manifest, target: Tree, w': World) {
    && w'.stored.Kept?
    && w'.stored.manifest.revision == m.revision + 1
    && w'.stored.manifest.digest.digest == TreeDigest(target)
    && w'.stored.manifest.files == InOrder(target.Keys)
    && w'.stored.manifest.pending == []
    && w'.disk == ((w.disk - (PathSet(m.files) - target.Keys)) + target) - {TMP}
  }

  /** A mutation applies to exactly the revision and digest its caller expects. */
  ghost predicate MutateOutcome(w: World, req: MutateRequest, status: nat, w': World) {
    && w'.checkpoints == w.checkpoints
    && StoredAdvances(w.stored, w'.stored)
    && PendingCleared(w.stored, w'.stored)
    && (status == 200 ==>
          && Found(w.stored).Some?
          && var m := Found(w.stored).value;
             var target := EditTree(Restrict(w.disk, m.files), req.edits);
             && Verifies(m, w.disk)
             && m.revision == req.expectedRevision
             && req.expectedDigest.Some? && req.expectedDigest.value.digest == m.digest.digest
             && if TreeDigest(target) == m.digest.digest then w' == w else Replaced(w, m, target, w'))
  }

  ghost predicate RestoreOutcome(w: World, id: string, status: nat, w': World) {
    && w'.checkpoints == w.checkpoints
    && StoredAdvances(w.stored, w'.stored)
    && PendingCleared(w.stored, w'.stored)
    && (status == 200 ==>
          && id in w.checkpoints && Found(w.stored).Some?
          && Verifies(Found(w.stored).value, w.disk)
          && exists target ::
             && TreeDigest(target) == w.checkpoints[id].digest.digest
             && Records(w.checkpoints[id].files, target) && Replaced(w, Found(w.stored).value, target, w'))
  }

  /** What admits a command. */
  ghost predicate Admitted(w: World, revision: Revision, digest: Digest) {
    && Found(w.stored).Some?
    && var m := Found(w.stored).value;
       m.revision == revision && m.digest.digest == digest && m.pending == [] && Verifies(m, w.disk)
  }

  /** A checkpoint is taken of a verified workspace; an existing one is never overwritten. */
  ghost predicate CheckpointOutcome(w: World, id: string, status: nat, w': World) {
    && w'.disk == w.disk && w'.stored == w.stored
    && (forall k | k in w.checkpoints :: k in w'.checkpoints && w'.checkpoints[k] == w.checkpoints[k])
    && (forall k | k in w'.checkpoints && k != id :: k in w.checkpoints)
    && (status == 200 ==>
          && Found(w.stored).Some? && id in w'.checkpoints
          && var m := Found(w.stored).value;
             && Verifies(m, w.disk)
             && w'.checkpoints[id].revision == m.revision
             && w'.checkpoints[id].digest.digest == m.digest.digest
             && (id !in w.checkpoints ==> Records(w'.checkpoints[id].files, Restrict(w.disk, m.files))))
  }
}
