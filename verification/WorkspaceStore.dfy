/** The parts of the workspace agent that do not change the disk: sorting, the digester with its
    three users, the managed files as views, and the choice of reload commands. */
module WorkspaceStore {
  import opened Collections
  import opened GoStrings
  import opened WorkspaceDigest
  import opened WorkspaceModel

  /** Accesses to these paths fail; a failed write may leave other bytes behind. */
  datatype Io = Io(refused: set<Path>, mangled: Tree)

  datatype ManifestIo = Renamed | TmpFails(left: Option<Bytes>) | RenameFails

  // ----- sorting -----

  /** Insertion into an ascending list. */
  method InsertPath(ps: seq<Path>, p: Path) returns (out: seq<Path>)
    requires Ascending(ps) && p !in ps
    ensures Ascending(out) && forall q :: q in out <==> q in ps || q == p
  {
    var i := 0;
    while i < |ps| && Less(ps[i], p)
      invariant 0 <= i <= |ps|
      invariant forall j | 0 <= j < i :: Less(ps[j], p)
    {
      i := i + 1;
    }
    InsertAscends(ps, i, p);
    out := ps[..i] + [p] + ps[i..];
    assert ps == ps[..i] + ps[i..];
  }

  lemma InsertAscends(ps: seq<Path>, i: nat, p: Path)
    requires Ascending(ps) && p !in ps && i <= |ps|
    requires forall j | 0 <= j < i :: Less(ps[j], p)
    requires i < |ps| ==> !Less(ps[i], p)
    ensures Ascending(ps[..i] + [p] + ps[i..])
  {
    if i < |ps| {
      LessTotal(p, ps[i]);
      assert ps[i] in ps;
      forall k | i < k < |ps| ensures Less(p, ps[k]) { LessTransitive(p, ps[i], ps[k]); }
    }
    var out := ps[..i] + [p] + ps[i..];
    forall j, k | 0 <= j < k < |out|
      ensures Less(out[j], out[k])
    {
      if j < i < k { assert out[j] == ps[j] && out[k] == ps[k - 1]; }
    }
  }

  /** slices.Sort of a set of paths. */
  method SortPaths(s: set<Path>) returns (ps: seq<Path>)
    ensures Ascending(ps) && Lists(ps, s) && ps == InOrder(s)
  {
    ps := [];
    var todo := s;
    while todo != {}
      invariant todo <= s && Ascending(ps)
      invariant forall q :: q in ps <==> q in s && q !in todo
      decreases todo
    {
      var p :| p in todo;
      ps := InsertPath(ps, p);
      todo := todo - {p};
    }
    AscendingUnique(ps, s);
  }

  // ----- the digester and its three users -----

  class SyncDigester {
    var written: Bytes

    constructor ()
      ensures written == []
    {
      written := [];
    }

    method Add(p: Path, content: Bytes)
      modifies this
      ensures written == old(written) + Entry(p, content)
    {
      written := written + p;
      written := written + [NUL];
      written := written + content;
      written := written + [NUL];
    }

    method Sum() returns (d: Digest)
      ensures d == Sha256(written)
    {
      d := Sha256(written);
    }
  }

  /** digestDecodedSyncFiles and the streamed digest of verification and stamping: the files of `t`
      named by the ascending list `ps`. */
  method DigestListed(ps: seq<Path>, t: Tree) returns (d: Digest)
    requires Ascending(ps) && forall p | p in ps :: p in t
    ensures d == TreeDigest(Restrict(t, ps))
  {
    var digester := new SyncDigester();
    assert ps[..0] == [];
    for i := 0 to |ps|
      invariant digester.written == Encode(ps[..i], t)
    {
      TakeNext(ps, i);
      EncodeAppend(ps[..i], ps[i], t);
      digester.Add(ps[i], t[ps[i]]);
    }
    TakeAll(ps);
    ListedDigest(ps, t);
    d := digester.Sum();
  }

  lemma ListedDigest(ps: seq<Path>, t: Tree)
    requires Ascending(ps) && forall p | p in ps :: p in t
    ensures Sha256(Encode(ps, t)) == TreeDigest(Restrict(t, ps))
  {
    var u := Restrict(t, ps);
    AscendingUnique(ps, u.Keys);
    EncodeFrame(ps, t, u);
  }

  lemma RestrictAll(t: Tree, ps: seq<Path>)
    requires Lists(ps, t.Keys)
    ensures Restrict(t, ps) == t
  {
  }

  method DigestBundle(files: seq<SourceFile>) returns (d: Digest)
    ensures d == TreeDigest(Bundle(files))
  {
    var t := Bundle(files);
    var ps := SortPaths(t.Keys);
    d := DigestListed(ps, t);
    RestrictAll(t, ps);
  }

  function ContentOf(f: WorkspaceFile, p: Path, disk: Tree): Bytes {
    match f
    case InMemory(c) => c
    case OnDisk(_, _) => if p in disk then disk[p] else []
  }

  /** The tree a set of file views stands for, opaque bytes taken from disk. */
  function Contents(files: map<Path, WorkspaceFile>, disk: Tree): Tree {
    map p | p in files :: ContentOf(files[p], p, disk)
  }

  /** Every opaque view still matches the bytes on disk. */
  ghost predicate Current(files: map<Path, WorkspaceFile>, disk: Tree) {
    forall p | p in files && files[p].OnDisk? :: p in disk && Describes(files[p], disk[p])
  }

  method Load(f: WorkspaceFile, p: Path, disk: Tree, io: Io) returns (ok: bool, content: Bytes)
    ensures ok ==> Describes(f, content) && content == ContentOf(f, p, disk) && (f.OnDisk? ==> p in disk)
    ensures !ok ==> f.OnDisk? && (p in io.refused || p !in disk || !Describes(f, disk[p]))
  {
    match f {
      case InMemory(c) => return true, c;
      case OnDisk(digest, size) =>
        if p in io.refused || p !in disk { return false, []; }
        content := disk[p];
        ok := Sha256(content) == digest && |content| == size;
    }
  }

  /** digestWorkspaceFiles: text from memory, opaque files streamed from disk and checked. */
  method DigestFiles(files: map<Path, WorkspaceFile>, disk: Tree, io: Io) returns (ok: bool, d: Digest)
    ensures ok ==> Current(files, disk) && d == TreeDigest(Contents(files, disk))
    ensures ok ==> forall p | p in files :: Manageable(p)
    ensures io.refused == {} && Current(files, disk) && (forall p | p in files :: Manageable(p)) ==> ok
  {
    hide Manageable, InOrder, Contents, Restrict, Current, Describes, Encode, Ascending;
    if exists p | p in files :: !Manageable(p) { return false, Sha256([]); }
    ContentsAre(files, disk);
    var ps := SortPaths(files.Keys);
    var digester := new SyncDigester();
    ghost var t := Contents(files, disk);
    assert ps[..0] == [];
    EncodeNone(t);
    for i := 0 to |ps|
      invariant forall j | 0 <= j < i && files[ps[j]].OnDisk? :: ps[j] in disk && Describes(files[ps[j]], disk[ps[j]])
      invariant digester.written == Encode(ps[..i], t)
    {
      var p := ps[i];
      TakeNext(ps, i);
      var loaded, content := Load(files[p], p, disk, io);
      if !loaded {
        Stale(files, disk, p);
        return false, Sha256([]);
      }
      EncodeAppend(ps[..i], p, t);
      digester.Add(p, content);
    }
    TakeAll(ps);
    ListedDigest(ps, t);
    RestrictAll(t, ps);
    AllCurrent(files, disk, ps);
    ok := true;
    d := digester.Sum();
  }

  lemma EncodeNone(t: Tree)
    ensures Encode([], t) == []
  {
  }

  lemma Stale(files: map<Path, WorkspaceFile>, disk: Tree, p: Path)
    requires p in files && files[p].OnDisk?
    ensures p !in disk || !Describes(files[p], disk[p]) ==> !Current(files, disk)
  {
  }

  lemma AllCurrent(files: map<Path, WorkspaceFile>, disk: Tree, ps: seq<Path>)
    requires Lists(ps, files.Keys)
    requires forall j | 0 <= j < |ps| && files[ps[j]].OnDisk? :: ps[j] in disk && Describes(files[ps[j]], disk[ps[j]])
    ensures Current(files, disk)
  {
    hide Describes;
    forall p | p in files && files[p].OnDisk?
      ensures p in disk && Describes(files[p], disk[p])
    {
      var j :| 0 <= j < |ps| && ps[j] == p;
    }
  }

  lemma ContentsAre(files: map<Path, WorkspaceFile>, disk: Tree)
    ensures Contents(files, disk).Keys == files.Keys
    ensures forall p | p in files :: Contents(files, disk)[p] == ContentOf(files[p], p, disk)
  {
  }

  // ----- reload commands -----

  /** matchReloadRules */
  method MatchReloadRules(rules: seq<Rule>, globs: Glob, touched: seq<Path>) returns (commands: seq<string>)
    ensures commands == Matched(rules, globs, touched)
  {
    commands := [];
    for i := 0 to |rules|
      invariant commands == Matched(rules[..i], globs, touched)
    {
      var rule := rules[i];
      assert rules[..i + 1][..i] == rules[..i];
      if rule.command !in commands {
        var fires := RuleFires(rule, globs, touched);
        if fires { commands := commands + [rule.command]; }
      }
    }
    TakeAll(rules);
  }

  method RuleFires(rule: Rule, globs: Glob, touched: seq<Path>) returns (b: bool)
    ensures b <==> Fires(globs, rule, touched)
  {
    for i := 0 to |rule.paths|
      invariant forall j, p | 0 <= j < i && p in touched :: !globs(rule.paths[j], p)
    {
      for k := 0 to |touched|
        invariant forall l | 0 <= l < k :: !globs(rule.paths[i], touched[l])
      {
        if globs(rule.paths[i], touched[k]) {
          assert rule.paths[i] in rule.paths && touched[k] in touched;
          return true;
        }
      }
    }
    return false;
  }

  method Deduplicate(all: seq<string>) returns (out: seq<string>)
    ensures out == Deduplicated(all)
  {
    out := [];
    for i := 0 to |all|
      invariant out == Deduplicated(all[..i])
    {
      assert all[..i + 1][..i] == all[..i];
      if all[i] != "" && all[i] !in out { out := out + [all[i]]; }
    }
    TakeAll(all);
  }

  /** mergeReloadCommands of two groups: trimmed, non-empty, each once, in order. */
  method MergeReloadCommands(first: seq<string>, second: seq<string>) returns (commands: seq<string>)
    ensures commands == Deduplicated(TrimAll(first + second))
  {
    commands := Deduplicate(TrimAll(first + second));
  }

  /** Exactly the commands of the rules that fire, each once. */
  lemma {:induction false} MatchedFacts(rules: seq<Rule>, globs: Glob, touched: seq<Path>)
    ensures var matched := Matched(rules, globs, touched);
            && |matched| <= |rules| && Distinct(matched)
            && (forall c | c in matched :: exists r :: r in rules && r.command == c && Fires(globs, r, touched))
            && (forall r | r in rules && Fires(globs, r, touched) :: r.command in matched)
  {
    if rules != [] {
      var front, last := rules[..|rules| - 1], rules[|rules| - 1];
      MatchedFacts(front, globs, touched);
      hide Fires;
      assert rules == front + [last];
      var matched := Matched(rules, globs, touched);
      forall c | c in matched
        ensures exists r :: r in rules && r.command == c && Fires(globs, r, touched)
      {
        if c in Matched(front, globs, touched) {
          var r :| r in front && r.command == c && Fires(globs, r, touched);
          assert r in rules;
        } else {
          assert last in rules;
        }
      }
    }
  }

  /** Exactly the non-empty strings, each once. */
  lemma {:induction false} DeduplicatedFacts(all: seq<string>)
    ensures Distinct(Deduplicated(all)) && forall c :: c in Deduplicated(all) <==> c != "" && c in all
  {
    if all != [] {
      DeduplicatedFacts(all[..|all| - 1]);
      assert all == all[..|all| - 1] + [all[|all| - 1]];
    }
  }

  /** Distinct trimmed rule commands are no more than the rules. */
  lemma CommandsBounded(rules: seq<Rule>, commands: seq<string>)
    requires Distinct(commands) && forall c | c in commands :: SomeRule(rules, c)
    ensures |commands| <= |rules|
  {
    var trimmed := seq(|rules|, i requires 0 <= i < |rules| => TrimSpace(rules[i].command));
    forall c | c in commands
      ensures c in trimmed
    {
      var r :| r in rules && TrimSpace(r.command) == c;
      var i :| 0 <= i < |rules| && rules[i] == r;
      assert trimmed[i] == c;
    }
    ElementsIn(commands, trimmed);
  }
}
