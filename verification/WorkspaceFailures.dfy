/** Runs of the workspace store in which a sync answers 200 and yet goes wrong: one because the digest
    is ambiguous, one because a file has the manifest's temporary name, one because the manifest cannot
    be read back. */
module WorkspaceFailures {
  import opened Collections
  import opened GoStrings
  import opened WorkspaceDigest
  import opened WorkspaceModel
  import opened WorkspaceStore
  import opened WorkspaceAgent
  import opened WorkspaceRuns

  const EMPTY := World(map[], Absent, map[])

  lemma OneLetterManageable(p: Path)
    requires |p| == 1 && p != "/"
    ensures Manageable(p)
  {
    SplitHead(p, "", '/');
    assert p + "" == p && Split("", '/') == [""];
  }

  lemma OnePath(p: Path)
    ensures InOrder({p}) == [p] && InOrder({}) == []
  {
    AscendingUnique([p], {p});
  }

  lemma OneFile(f: SourceFile)
    ensures Bundle([f]) == map[f.path := f.content]
    ensures Changes(map[], [f]) == [f.path]
  {
    assert [f][..0] == [];
  }

  lemma RestrictOne(p: Path, content: Bytes)
    ensures Restrict(map[p := content], [p]) == map[p := content]
  {
  }

  /** A first authoritative sync of one file, without a reload. */
  lemma FirstSync(c: Config, f: SourceFile, revision: Revision) returns (op: Op, w: World)
    requires revision != 0 && WellFormedBundle(c.utf8, [f])
    ensures op.AuthoritativeSync? && op.status == 200 && op.req.files == [f] && Step(c, EMPTY, op, w)
    ensures w.disk == Bundle([f]) - {TMP} && w.checkpoints == map[] && w.stored.Kept?
    ensures w.stored.manifest ==
            Manifest(revision, DigestText(false, TreeDigest(Bundle([f]))), [f.path],
                     Commands(c.rules, c.globs, None, [f.path]))
  {
    hide TreeDigest, Bundle, Commands, Step, WellFormedBundle, StoredAdvances, SyncTouched, FullSync;
    OneFile(f);
    var digest := DigestText(false, TreeDigest(Bundle([f])));
    var req := SyncRequest([f], [], revision, Some(digest));
    op := AuthoritativeSync(req, false, map[], [], 200);
    var m := Manifest(revision, digest, [f.path], Commands(c.rules, c.globs, None, [f.path]));
    w := World(Bundle([f]) - {TMP}, Kept(m), map[]);
    FirstTouched(f, req);
    PlanKept(c.rules, c.globs, Absent, [f.path], m, []);
    FirstAdvances(c, f, m);
    FirstIsFull(f, req, w);
    FirstFull(c, req, w, m);
  }

  lemma FirstTouched(f: SourceFile, req: SyncRequest)
    requires req.files == [f] && req.deletePaths == []
    ensures SyncTouched(EMPTY, req) == [f.path]
  {
    hide InOrder, Bundle, Changes;
    OneFile(f);
    OnePath(f.path);
  }

  lemma FirstAdvances(c: Config, f: SourceFile, m: Manifest)
    requires WellFormedBundle(c.utf8, [f]) && m.files == [f.path] && m.revision != 0
    ensures StoredAdvances(Absent, Kept(m))
  {
    hide Manageable;
    assert f in [f];
  }

  lemma FirstIsFull(f: SourceFile, req: SyncRequest, w: World)
    requires req.files == [f] && req.deletePaths == [] && w.disk == Bundle([f]) - {TMP} && w.stored.Kept?
    requires w.stored.manifest.revision == req.revision && Some(w.stored.manifest.digest) == req.digest
    requires w.stored.manifest.digest.digest == TreeDigest(Bundle([f])) && w.stored.manifest.files == [f.path]
    ensures FullSync(EMPTY, req, map[], w)
  {
    hide InOrder, TreeDigest, Bundle, Synced, Doomed, Found;
    NothingFound();
    OneFile(f);
    OnePath(f.path);
    assert Bundle([f]).Keys == {f.path};
    SyncedFirst(Bundle([f]));
  }

  lemma NothingFound()
    ensures Found(Absent) == None
  {
  }

  lemma SyncedFirst(t: Tree)
    ensures Doomed(None, [], t.Keys) == {} && Synced(map[], {}, t) == t - {TMP}
  {
  }

  lemma FirstFull(c: Config, req: SyncRequest, w: World, m: Manifest)
    requires req.revision != 0 && req.digest.Some? && WellFormedBundle(c.utf8, req.files)
    requires w == World(w.disk, Kept(m), map[])
    requires StoredAdvances(Absent, w.stored) && PendingCarried(Absent, w.stored, []) &&
             PendingBounded(c.rules, Absent, w.stored)
    requires FullSync(EMPTY, req, map[], w)
    requires Left(m, Commands(c.rules, c.globs, None, SyncTouched(EMPTY, req)), [])
    ensures Step(c, EMPTY, AuthoritativeSync(req, false, map[], [], 200), w)
  {
    hide InOrder, TreeDigest, Bundle, Manageable, Commands, SyncTouched, WellFormedBundle, FullSync, StoredAdvances,
      PendingCarried, PendingBounded;
  }

  // ----- a repeated sync that changes nothing -----

  /** A binary file is synced; then a bundle of two text files with the same digest is sent at the same
      revision. That sync answers 200, and one of its files is not on disk. */
  lemma RepeatSyncShort() returns (c: Config, ws: seq<World>, ops: seq<Op>)
    ensures Run(c, ws, ops) && |ops| == 2
    ensures ops[1].AuthoritativeSync? && ops[1].status == 200
    ensures Textual(Bundle(ops[1].req.files)) && exists p :: p in Bundle(ops[1].req.files) && p !in ws[2].disk
  {
    hide Step, TreeDigest, Bundle, Manageable, WellFormedBundle, Commands, Textual, Changes;
    var t, u := DigestAmbiguous();
    c := Config([], (_, _) => false, _ => true);
    OneLetterManageable("a");
    OneLetterManageable("b");
    OneWellFormed(c, SourceFile("a", u["a"], true));
    var op, w := FirstSync(c, SourceFile("a", u["a"], true), 1);
    OneFile(SourceFile("a", u["a"], true));
    assert Bundle([SourceFile("a", u["a"], true)]) == u && w.disk == u;
    var files := [SourceFile("a", "x", false), SourceFile("b", "y", false)];
    TwoFiles(files, t);
    var req := SyncRequest(files, [], 1, Some(DigestText(false, TreeDigest(t))));
    var again := AuthoritativeSync(req, false, map[], [], 200);
    RepeatsShort(c, w, req, t);
    ws, ops := [EMPTY, w, w], [op, again];
    assert "b" in t && "b" !in u;
  }

  lemma OneWellFormed(c: Config, f: SourceFile)
    requires Manageable(f.path) && (f.binary || (c.utf8(f.content) && NUL !in f.content))
    ensures WellFormedBundle(c.utf8, [f])
  {
    hide Manageable;
  }

  lemma TwoFiles(files: seq<SourceFile>, t: Tree)
    requires files == [SourceFile("a", "x", false), SourceFile("b", "y", false)] && t == map["a" := "x", "b" := "y"]
    ensures Bundle(files) == t
  {
    assert files[..1] == [files[0]] && files[..1][..0] == [];
    assert Bundle(files[..1]) == map["a" := "x"];
  }

  lemma RepeatsShort(c: Config, w: World, req: SyncRequest, t: Tree)
    requires c.rules == [] && (forall b :: c.utf8(b)) && w.stored.Kept? && w.disk.Keys == {"a"}
    requires w.stored.manifest ==
             Manifest(1, DigestText(false, TreeDigest(w.disk)), ["a"], Commands(c.rules, c.globs, None, ["a"]))
    requires req.files == [SourceFile("a", "x", false), SourceFile("b", "y", false)] && Bundle(req.files) == t
    requires req.revision == 1 && req.digest == Some(DigestText(false, TreeDigest(t))) &&
             TreeDigest(t) == TreeDigest(w.disk)
    requires Manageable("a") && Manageable("b")
    ensures Step(c, w, AuthoritativeSync(req, false, map[], [], 200), w)
  {
    hide InOrder, TreeDigest, Manageable, TrimSpace, Bundle;
    assert TrimAll([]) == [];
    RestrictOne("a", w.disk["a"]);
    assert w.disk == map["a" := w.disk["a"]];
    assert AllManageable(["a"]);
    assert RepeatSync(w, req, w);
  }

  // ----- a file with the manifest's temporary name -----

  lemma TmpIsOneName()
    ensures '/' !in TMP
  {
    assert forall i | 0 <= i < |TMP| :: TMP[i] != '/';
  }

  lemma OneNameManageable(p: Path)
    requires '/' !in p && |p| > |".assistant-snapshots"|
    ensures Manageable(p)
  {
    SplitHead(p, "", '/');
    assert p + "" == p && Split("", '/') == [""];
  }

  /** A first sync of one text file with the manifest's temporary name answers 200. The manifest lists
      the file, the disk has lost it, and the workspace does not verify. */
  lemma TmpLost() returns (c: Config, ws: seq<World>, ops: seq<Op>)
    ensures Run(c, ws, ops) && |ops| == 1 && ops[0].AuthoritativeSync? && ops[0].status == 200
    ensures TMP in Bundle(ops[0].req.files) && TMP !in ws[1].disk
    ensures Found(ws[1].stored).Some? && TMP in Found(ws[1].stored).value.files
    ensures !Verifies(Found(ws[1].stored).value, ws[1].disk)
    ensures !Holds(ws[1], Bundle(ops[0].req.files))
  {
    hide Step, TreeDigest, Bundle, Manageable, WellFormedBundle, Commands, TrimSpace;
    c := Config([], (_, _) => false, _ => true);
    var f := SourceFile(TMP, "x", false);
    TmpIsOneName();
    OneNameManageable(TMP);
    PlainText();
    OneWellFormed(c, f);
    OneFile(f);
    var op, w := FirstSync(c, f, 1);
    ws, ops := [EMPTY, w], [op];
    NoCommands(c.globs, [TMP]);
    FoundFirst(w.stored);
  }

  lemma NoCommands(globs: Glob, touched: seq<Path>)
    ensures Commands([], globs, None, touched) == []
  {
  }

  lemma FoundFirst(s: Stored)
    requires s.Kept? && s.manifest.revision != 0 && s.manifest.files == [TMP] && s.manifest.pending == []
    requires Manageable(TMP)
    ensures Found(s) == Some(s.manifest)
  {
    hide Manageable;
    assert TrimAll([]) == [];
  }

  // ----- a manifest that cannot be read back -----

  /** A command of `n + 1` letters. */
  function Command(n: nat): string { seq(n + 1, _ => 'x') }

  function ManyRules(): seq<Rule> { seq(33, n requires 0 <= n < 33 => Rule(["*"], Command(n))) }

  lemma CommandFits(n: nat)
    requires n < 33
    ensures FitCommand(Command(n))
  {
    TrimSpaceFixes(Command(n));
  }

  lemma AllFire(globs: Glob, touched: seq<Path>)
    requires touched != [] && forall pattern, p :: globs(pattern, p)
    ensures |Matched(ManyRules(), globs, touched)| > MAX_PENDING
  {
    var rules := ManyRules();
    var all := seq(33, n requires 0 <= n < 33 => Command(n));
    MatchedFacts(rules, globs, touched);
    hide Matched;
    forall x | x in all
      ensures x in Matched(rules, globs, touched)
    {
      var n :| 0 <= n < 33 && all[n] == x;
      assert rules[n] in rules && "*" in rules[n].paths && touched[0] in touched && globs("*", touched[0]);
      assert Fires(globs, rules[n], touched);
    }
    forall i, j | 0 <= i < j < 33
      ensures all[i] != all[j]
    {
      assert |all[i]| != |all[j]|;
    }
    ElementsIn(all, Matched(rules, globs, touched));
  }

  /** With 33 reload rules an authoritative sync at revision 2 leaves a manifest that cannot be read,
      and the next plain sync starts again at revision 1. */
  lemma UnreadableRun() returns (c: Config, ws: seq<World>, ops: seq<Op>)
    ensures Run(c, ws, ops) && |ops| == 2 && ops[0].AuthoritativeSync? && ops[1].PlainSync?
    ensures |c.rules| == MAX_PENDING + 1 && forall r | r in c.rules :: FitCommand(r.command)
    ensures ops[0].status == 200 && ws[1].stored.Kept? && ws[1].stored.manifest.revision == 2 &&
            Found(ws[1].stored).None?
    ensures ops[1].status == 200 && ws[2].stored.Kept? && ws[2].stored.manifest.revision == 1
  {
    hide Step, FitCommand, ManyRules, Found, Matched, Manageable, WellFormedBundle, TreeDigest;
    c := ManyConfig();
    OneLetterManageable("b");
    PlainText();
    OneWellFormed(c, SourceFile("b", "x", false));
    var op, w := FirstSync(c, SourceFile("b", "x", false), 2);
    OneFile(SourceFile("b", "x", false));
    assert w.disk == map["b" := "x"];
    AllFire(c.globs, ["b"]);
    TooMany(w.stored);
    var next, w' := NextPlain(c, w);
    ws, ops := [EMPTY, w, w'], [op, next];
  }

  lemma ManyConfig() returns (c: Config)
    ensures c.rules == ManyRules() && |c.rules| == MAX_PENDING + 1 && forall r | r in c.rules :: FitCommand(r.command)
    ensures (forall pattern, p :: c.globs(pattern, p)) && forall b :: c.utf8(b)
  {
    hide FitCommand;
    c := Config(ManyRules(), (_, _) => true, _ => true);
    forall r | r in c.rules
      ensures FitCommand(r.command)
    {
      var n :| 0 <= n < 33 && c.rules[n] == r;
      CommandFits(n);
    }
  }

  lemma PlainText()
    ensures NUL !in "x"
  {
  }

  lemma TooMany(s: Stored)
    requires s.Kept? && |s.manifest.pending| > MAX_PENDING
    ensures Found(s).None?
  {
    hide TrimAll, FitCommand, Manageable;
  }

  /** A plain sync that rewrites the one file, over a manifest that cannot be read. */
  lemma NextPlain(c: Config, w: World) returns (op: Op, w': World)
    requires w.disk == map["b" := "x"] && w.checkpoints == map[] && Found(w.stored).None? && Manageable("b")
    ensures op.PlainSync? && op.status == 200 && Step(c, w, op, w')
    ensures w'.stored.Kept? && w'.stored.manifest.revision == 1
  {
    hide InOrder, TreeDigest, Bundle, Manageable, Commands, Found, PlainTouched, Stamped, StoredAdvances, PlainManaged,
      PendingCarried, PendingBounded, Pruned, Restrict;
    var files := [SourceFile("b", "y", false)];
    var req := SyncRequest(files, [], 0, None);
    OneFile(files[0]);
    var base: Tree := map["b" := "y"];
    op := PlainSync(req, false, map[], [], 200);
    var m := Manifest(1, DigestText(false, TreeDigest(base)), ["b"],
                      Commands(c.rules, c.globs, None, PlainTouched(w, req)));
    w' := World(base, Kept(m), map[]);
    PlanKept(c.rules, c.globs, w.stored, PlainTouched(w, req), m, []);
    PlainOne(req);
    OneBase(w.disk, req);
    OneStamped(m, w.stored);
    assert base - {TMP} == base;
  }

  lemma OneBase(disk: Tree, req: SyncRequest)
    requires disk == map["b" := "x"] && Bundle(req.files) == map["b" := "y"] && req.deletePaths == []
    ensures Pruned(disk + Bundle(req.files), req.deletePaths) == map["b" := "y"]
  {
    hide Bundle;
  }

  lemma OneStamped(m: Manifest, s: Stored)
    requires Found(s).None? && m.revision == 1 && m.files == ["b"] && Manageable("b")
    requires m.digest.digest == TreeDigest(map["b" := "y"])
    ensures Stamped(None, map["b" := "y"], {"b"}, m) && StoredAdvances(s, Kept(m))
  {
    hide InOrder, TreeDigest, Manageable, Found;
    OnePath("b");
    RestrictOne("b", "y");
    var base: Tree := map["b" := "y"];
    assert {"b"} * base.Keys == {"b"};
  }

  lemma PlainOne(req: SyncRequest)
    requires Bundle(req.files).Keys == {"b"} && req.deletePaths == [] && Manageable("b")
    ensures PlainManaged(None, Bundle(req.files).Keys, req.deletePaths) == {"b"}
  {
    hide Manageable, Bundle;
  }
}
