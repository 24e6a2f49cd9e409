/** Development templates: the validator of component workspace paths
    (apis/v1alpha1/template_validation.go) and the router that hands synced files to components
    (mcpserver/tools_dev.go). path.Clean is a parameter. */
module Routing {
  import opened Collections
  import opened GoStrings

  type Clean = string -> string

  datatype File = File(path: string, content: string)

  /** normalizeWorkspacePath */
  function Normalize(clean: Clean, raw: string): Option<string> {
    var p := TrimSpace(raw);
    if p == "" || HasPrefix(p, "/") then None
    else if clean(p) == ".." || HasPrefix(clean(p), "../") then None
    else Some(clean(p))
  }

  /** The path the router and devWorkspacePath work with. */
  function Workspace(clean: Clean, raw: string): string { clean(TrimSpace(raw)) }

  type Components = map<string, string>

  function PathOf(clean: Clean, components: Components, name: string): string
    requires name in components
  {
    Workspace(clean, components[name])
  }

  /** No component path is the root beside others, or lies at or under another. */
  ghost predicate Disjoint(clean: Clean, components: Components) {
    forall a, b | a in components && b in components && a != b ::
      var p, q := PathOf(clean, components, a), PathOf(clean, components, b);
      p != "." && q != "." && !HasPrefix(q + "/", p + "/")
  }

  ghost predicate Accepted(clean: Clean, components: Components) {
    && (forall name | name in components :: Normalize(clean, components[name]).Some?)
    && Disjoint(clean, components)
  }

  // ----- the validator -----

  /** The path is relative and, once cleaned, does not leave the workspace. */
  predicate Confined(clean: Clean, p: string) {
    && p != "" && p[0] != '/'
    && clean(p) != ".." && !(|clean(p)| >= 3 && clean(p)[..3] == "../")
  }

  /** Neither path is the root, and they are different, neither an ancestor of the other. */
  predicate Apart(p: string, q: string) {
    && p != "." && q != "." && p != q
    && !(|q| > |p| && q[..|p|] == p && q[|p|] == '/') && !(|p| > |q| && p[..|q|] == q && p[|q|] == '/')
  }

  /** Accepted components have relative paths inside the workspace, none of them the root beside others, the
      same as another, or above another. */
  lemma AcceptedIs(clean: Clean, components: Components)
    ensures Accepted(clean, components) <==>
            && (forall name | name in components :: Confined(clean, TrimSpace(components[name])))
            && (forall a, b | a in components && b in components && a != b ::
                  Apart(clean(TrimSpace(components[a])), clean(TrimSpace(components[b]))))
  {
    hide TrimSpace;
    forall name | name in components
      ensures Normalize(clean, components[name]).Some? <==> Confined(clean, TrimSpace(components[name]))
    {
      NormalizeIs(clean, components[name]);
    }
    hide Normalize, Confined, HasPrefix;
    forall a, b | a in components && b in components && a != b
      ensures var p, q := PathOf(clean, components, a), PathOf(clean, components, b);
              (p != "." && q != "." && !HasPrefix(q + "/", p + "/") && !HasPrefix(p + "/", q + "/")) <==> Apart(p, q)
    {
      ApartIs(PathOf(clean, components, a), PathOf(clean, components, b));
    }
    hide Apart;
    DisjointIs(clean, components);
  }

  lemma NormalizeIs(clean: Clean, raw: string)
    ensures Normalize(clean, raw).Some? <==> Confined(clean, TrimSpace(raw))
    ensures Normalize(clean, raw).Some? ==> Normalize(clean, raw).value == clean(TrimSpace(raw))
  {
    hide TrimSpace;
    var p := TrimSpace(raw);
    assert "../" <= clean(p) <==> |clean(p)| >= 3 && clean(p)[..3] == "../";
    assert "/" <= p <==> p != "" && p[0] == '/';
  }

  lemma ApartIs(p: string, q: string)
    ensures HasPrefix(q + "/", p + "/") <==> p == q || (|q| > |p| && q[..|p|] == p && q[|p|] == '/')
    ensures p != "." && q != "." && !HasPrefix(q + "/", p + "/") && !HasPrefix(p + "/", q + "/") <==> Apart(p, q)
  {
    UnderIs(p, q);
    UnderIs(q, p);
  }

  lemma UnderIs(p: string, q: string)
    ensures HasPrefix(q + "/", p + "/") <==> p == q || (|q| > |p| && q[..|p|] == p && q[|p|] == '/')
  {
    var a, b := q + "/", p + "/";
    if |p| <= |q| {
      assert b <= a <==> a[..|b|] == b;
      assert a[..|b|] == a[..|p|] + [a[|p|]] && a[..|p|] == q[..|p|];
      assert b == p + ['/'];
      assert a[..|p|] + [a[|p|]] == b <==> q[..|p|] == p && a[|p|] == '/';
    }
  }

  lemma DisjointIs(clean: Clean, components: Components)
    ensures Disjoint(clean, components) <==>
            forall a, b | a in components && b in components && a != b ::
              var p, q := PathOf(clean, components, a), PathOf(clean, components, b);
              p != "." && q != "." && !HasPrefix(q + "/", p + "/") && !HasPrefix(p + "/", q + "/")
  {
    hide Workspace, HasPrefix;
  }

  /** An accepted path is the one the router works with. */
  lemma NormalIsPath(clean: Clean, components: Components, name: string)
    requires name in components && Normalize(clean, components[name]).Some?
    ensures Normalize(clean, components[name]).value == PathOf(clean, components, name)
  {
  }

  /** The first loop of ValidateDevelopment: every path normalizes and none is declared twice. */
  method CollectPaths(clean: Clean, components: Components) returns (ok: bool, seen: map<string, string>)
    ensures ok ==> forall name | name in components ::
                     && Normalize(clean, components[name]).Some?
                     && PathOf(clean, components, name) in seen && seen[PathOf(clean, components, name)] == name
    ensures ok ==> forall p | p in seen :: seen[p] in components && PathOf(clean, components, seen[p]) == p
    ensures !ok ==> (exists name :: name in components && Normalize(clean, components[name]).None?)
                    || (exists a, b :: a in components && b in components && a != b
                                       && PathOf(clean, components, a) == PathOf(clean, components, b))
  {
    hide Normalize, PathOf;
    seen := map[];
    var todo := components.Keys;
    while todo != {}
      invariant todo <= components.Keys
      invariant forall name | name in components && name !in todo ::
                  && Normalize(clean, components[name]).Some?
                  && PathOf(clean, components, name) in seen && seen[PathOf(clean, components, name)] == name
      invariant forall p | p in seen ::
                  seen[p] in components && seen[p] !in todo && PathOf(clean, components, seen[p]) == p
      decreases |todo|
    {
      var name :| name in todo;
      var wp := Normalize(clean, components[name]);
      if wp.None? { return false, seen; }
      NormalIsPath(clean, components, name);
      if wp.value in seen { return false, seen; }
      seen := seen[wp.value := name];
      todo := todo - {name};
    }
    return true, seen;
  }

  predicate PairOk(a: string, b: string) {
    a == b || a == "." || b == "." || !HasPrefix(b + "/", a + "/")
  }

  /** What the nested loops check of the collected paths. */
  ghost predicate Checked(seen: map<string, string>) {
    forall a | a in seen :: (a == "." ==> |seen| <= 1) && forall b | b in seen :: PairOk(a, b)
  }

  /** The collected paths are those of the components, one each. */
  ghost predicate Collects(clean: Clean, components: Components, seen: map<string, string>) {
    && (forall name | name in components ::
          PathOf(clean, components, name) in seen && seen[PathOf(clean, components, name)] == name)
    && (forall p | p in seen :: seen[p] in components && PathOf(clean, components, seen[p]) == p)
  }

  lemma CheckedIff(clean: Clean, components: Components, seen: map<string, string>)
    requires Collects(clean, components, seen)
    ensures Checked(seen) <==> Disjoint(clean, components)
  {
    hide HasPrefix, Workspace;
    if Checked(seen) {
      forall a, b | a in components && b in components && a != b
        ensures var p, q := PathOf(clean, components, a), PathOf(clean, components, b);
                p != "." && q != "." && !HasPrefix(q + "/", p + "/")
      {
        var p, q := PathOf(clean, components, a), PathOf(clean, components, b);
        TwoKeys(seen, p, q);
        assert PairOk(p, q);
      }
    }
    if Disjoint(clean, components) {
      forall p | p in seen
        ensures (p == "." ==> |seen| <= 1) && forall q | q in seen :: PairOk(p, q)
      {
        if |seen| > 1 {
          var q := Another(seen, p);
          assert seen[p] != seen[q];
        }
        forall q | q in seen && p != q
          ensures PairOk(p, q)
        {
          assert seen[p] != seen[q];
        }
      }
    }
  }

  lemma TwoKeys(m: map<string, string>, p: string, q: string)
    requires p in m && q in m && p != q
    ensures |m| > 1
  {
    assert |{p, q}| == 2 && {p, q} <= m.Keys;
    assert m.Keys == {p, q} + (m.Keys - {p, q});
    assert |m| == |m.Keys|;
  }

  lemma Another(m: map<string, string>, p: string) returns (q: string)
    requires p in m && |m| > 1
    ensures q in m && q != p
  {
    assert |m| == |m.Keys|;
    assert m.Keys - {p} == {} ==> m.Keys == {p};
    q :| q in m.Keys - {p};
  }

  /** The path part of ValidateDevelopment accepts exactly the templates whose component paths are
      valid and disjoint. */
  method ValidatePaths(clean: Clean, components: Components) returns (ok: bool)
    ensures ok <==> Accepted(clean, components)
    ensures ok <==> (forall name | name in components :: Confined(clean, TrimSpace(components[name])))
                    && (forall a, b | a in components && b in components && a != b ::
                          Apart(clean(TrimSpace(components[a])), clean(TrimSpace(components[b]))))
  {
    hide Normalize, Workspace, HasPrefix, Checked, Disjoint;
    AcceptedIs(clean, components);
    var collected, seen := CollectPaths(clean, components);
    if !collected {
      NotCollected(clean, components);
      return false;
    }
    CheckedIff(clean, components, seen);
    ok := CheckPaths(seen);
  }

  lemma NotCollected(clean: Clean, components: Components)
    requires (exists name :: name in components && Normalize(clean, components[name]).None?)
             || (exists a, b :: a in components && b in components && a != b
                                && PathOf(clean, components, a) == PathOf(clean, components, b))
    ensures !Accepted(clean, components)
  {
    hide Normalize, Workspace;
    if a, b :| a in components && b in components && a != b &&
               PathOf(clean, components, a) == PathOf(clean, components, b)
    {
      var p := PathOf(clean, components, a);
      assert HasPrefix(p + "/", p + "/");
    }
  }

  /** The nested loops over the collected paths. */
  method CheckPaths(seen: map<string, string>) returns (ok: bool)
    ensures ok <==> Checked(seen)
  {
    var outer := seen.Keys;
    while outer != {}
      invariant outer <= seen.Keys
      invariant forall a | a in seen && a !in outer ::
                  (a == "." ==> |seen| <= 1) && forall b | b in seen :: PairOk(a, b)
      decreases |outer|
    {
      var a :| a in outer;
      if a == "." && |seen| > 1 { return false; }
      var inner := seen.Keys;
      while inner != {}
        invariant inner <= seen.Keys
        invariant forall b | b in seen && b !in inner :: PairOk(a, b)
        decreases |inner|
      {
        var b :| b in inner;
        if !(a == b || a == "." || b == ".") && HasPrefix(b + "/", a + "/") {
          assert !PairOk(a, b);
          return false;
        }
        inner := inner - {b};
      }
      outer := outer - {a};
    }
    return true;
  }

  // ----- the router -----

  predicate Takes(wp: string, path: string) { wp == "." || HasPrefix(path, wp + "/") }

  /** The file as the component sees it. */
  function Strip(wp: string, f: File): File
    requires Takes(wp, f.path)
  {
    if wp == "." then f else File(f.path[|wp| + 1..], f.content)
  }

  /** devWorkspacePath */
  function WorkspacePath(wp: string, rel: string): string {
    if wp == "." then rel else wp + "/" + rel
  }

  function RouteTo(wp: string, files: seq<File>): seq<File> {
    if files == [] then []
    else
      var front, last := files[..|files| - 1], files[|files| - 1];
      RouteTo(wp, front) + if Takes(wp, last.path) then [Strip(wp, last)] else []
  }

  type Routed = map<string, seq<File>>

  function FilesFor(routed: Routed, name: string): seq<File> {
    if name in routed then routed[name] else []
  }

  /** routeDevSyncFiles: components in any order; a component no file belongs to has no entry. */
  method RouteFiles(clean: Clean, files: seq<File>, components: Components) returns (routed: Routed)
    ensures routed.Keys <= components.Keys
    ensures forall name | name in components ::
            FilesFor(routed, name) == RouteTo(PathOf(clean, components, name), files)
  {
    hide Workspace, RouteTo;
    routed := map[];
    var todo := components.Keys;
    while todo != {}
      invariant todo <= components.Keys && routed.Keys <= components.Keys - todo
      invariant forall name | name in components && name !in todo ::
                  FilesFor(routed, name) == RouteTo(PathOf(clean, components, name), files)
      decreases |todo|
    {
      var name :| name in todo;
      var mine := RouteOne(PathOf(clean, components, name), files);
      if PathOf(clean, components, name) == "." || mine != [] { routed := routed[name := mine]; }
      todo := todo - {name};
    }
  }

  method RouteOne(wp: string, files: seq<File>) returns (mine: seq<File>)
    ensures mine == RouteTo(wp, files)
  {
    if wp == "." {
      RootTakesAll(files);
      return files;
    }
    mine := [];
    for i := 0 to |files|
      invariant mine == RouteTo(wp, files[..i])
    {
      assert files[..i + 1][..i] == files[..i];
      if HasPrefix(files[i].path, wp + "/") {
        mine := mine + [File(files[i].path[|wp| + 1..], files[i].content)];
      }
    }
    assert files[..|files|] == files;
  }

  lemma {:induction false} RootTakesAll(files: seq<File>)
    ensures RouteTo(".", files) == files
  {
    if files != [] {
      RootTakesAll(files[..|files| - 1]);
      assert files == files[..|files| - 1] + [files[|files| - 1]];
    }
  }

  // ----- theorems -----

  /** A workspace path has at most one component. */
  lemma OneComponent(clean: Clean, components: Components, path: string, a: string, b: string)
    requires Disjoint(clean, components) && a in components && b in components
    requires Takes(PathOf(clean, components, a), path) && Takes(PathOf(clean, components, b), path)
    ensures a == b
  {
    hide Workspace;
    if a != b {
      var p, q := PathOf(clean, components, a), PathOf(clean, components, b);
      BothPrefixes(path, p + "/", q + "/");
    }
  }

  lemma BothPrefixes(s: string, p: string, q: string)
    requires HasPrefix(s, p) && HasPrefix(s, q)
    ensures HasPrefix(q, p) || HasPrefix(p, q)
  {
    if |p| <= |q| { assert q[..|p|] == s[..|p|] == p; } else { assert p[..|q|] == s[..|q|] == q; }
  }

  /** The files a component takes, with their own paths. */
  function Kept(wp: string, files: seq<File>): seq<File> {
    if files == [] then []
    else
      var front, last := files[..|files| - 1], files[|files| - 1];
      Kept(wp, front) + if Takes(wp, last.path) then [last] else []
  }

  function Back(wp: string, files: seq<File>): (r: seq<File>)
    ensures |r| == |files|
  {
    seq(|files|, i requires 0 <= i < |files| => File(WorkspacePath(wp, files[i].path), files[i].content))
  }

  /** devWorkspacePath undoes the routing: a component's files, mapped back, are exactly the synced
      files under its path, in order and with their contents. */
  lemma {:induction false} RoutingUndone(wp: string, files: seq<File>)
    ensures Back(wp, RouteTo(wp, files)) == Kept(wp, files)
  {
    if files != [] {
      var front, last := files[..|files| - 1], files[|files| - 1];
      RoutingUndone(wp, front);
      if Takes(wp, last.path) {
        StripBack(wp, last);
        var r := RouteTo(wp, front);
        assert Back(wp, r + [Strip(wp, last)]) == Back(wp, r) + [last];
      } else {
        assert RouteTo(wp, files) == RouteTo(wp, front);
      }
    }
  }

  /** A component below the root gets exactly the files under its path, without that path. */
  lemma {:induction false} RouteToIs(wp: string, files: seq<File>, f: File)
    requires wp != "."
    ensures f in RouteTo(wp, files) <==> File(wp + "/" + f.path, f.content) in files
  {
    if files != [] {
      var front, last := files[..|files| - 1], files[|files| - 1];
      RouteToIs(wp, front, f);
      assert files == front + [last];
      assert wp + "/" <= wp + "/" + f.path;
      assert (wp + "/" + f.path)[|wp| + 1..] == f.path;
      if Takes(wp, last.path) { StripBack(wp, last); }
    }
  }

  lemma StripBack(wp: string, f: File)
    requires Takes(wp, f.path)
    ensures File(WorkspacePath(wp, Strip(wp, f).path), Strip(wp, f).content) == f
  {
    if wp != "." { PrefixParts(f.path, wp + "/"); }
  }

  // ----- counting -----

  ghost function Total(routed: Routed): nat {
    if routed == map[] then 0
    else
      var name :| name in routed;
      |routed[name]| + Total(routed - {name})
  }

  /** The order of summation does not matter. */
  lemma {:induction false} TotalWithout(routed: Routed, name: string)
    requires name in routed
    ensures Total(routed) == |routed[name]| + Total(routed - {name})
    decreases |routed|
  {
    var first :| first in routed && Total(routed) == |routed[first]| + Total(routed - {first});
    if first != name {
      assert |routed - {first}| < |routed| by { Smaller(routed, first); }
      assert |routed - {name}| < |routed| by { Smaller(routed, name); }
      TotalWithout(routed - {first}, name);
      TotalWithout(routed - {name}, first);
      assert routed - {first} - {name} == routed - {name} - {first};
    }
  }

  lemma Smaller(routed: Routed, name: string)
    requires name in routed
    ensures |routed - {name}| < |routed|
  {
    assert (routed - {name}).Keys == routed.Keys - {name};
    assert |routed| == |routed.Keys| && |routed - {name}| == |(routed - {name}).Keys|;
  }

  /** countRoutedDevFiles */
  method CountRouted(routed: Routed) returns (total: nat)
    ensures total == Total(routed)
  {
    total := 0;
    var left := routed;
    while left != map[]
      invariant left.Keys <= routed.Keys && (forall name | name in left :: left[name] == routed[name])
      invariant total + Total(left) == Total(routed)
      decreases |left|
    {
      var name :| name in left;
      TotalWithout(left, name);
      Smaller(left, name);
      total := total + |left[name]|;
      left := left - {name};
    }
  }

  /** The positions of the files a component takes. */
  ghost function Positions(wp: string, files: seq<File>): set<nat> {
    set i | 0 <= i < |files| && Takes(wp, files[i].path)
  }

  lemma {:induction false} RouteLength(wp: string, files: seq<File>)
    ensures |RouteTo(wp, files)| == |Positions(wp, files)|
  {
    hide HasPrefix, Strip;
    if files == [] {
      assert Positions(wp, files) == {};
    } else {
      var front, n := files[..|files| - 1], |files| - 1;
      RouteLength(wp, front);
      assert forall i | 0 <= i < n :: front[i] == files[i];
      if Takes(wp, files[n].path) {
        assert Positions(wp, files) == Positions(wp, front) + {n};
      } else {
        assert Positions(wp, files) == Positions(wp, front);
      }
    }
  }

  /** The positions taken by the components of a partial routing. */
  ghost function Claimed(clean: Clean, components: Components, files: seq<File>, routed: Routed): set<nat>
    requires routed.Keys <= components.Keys
  {
    set i, name | name in routed && i in Positions(PathOf(clean, components, name), files) :: i
  }

  lemma {:induction false} TotalClaimed(clean: Clean, components: Components, files: seq<File>, routed: Routed)
    requires Disjoint(clean, components) && routed.Keys <= components.Keys
    requires forall name | name in routed :: routed[name] == RouteTo(PathOf(clean, components, name), files)
    ensures Total(routed) == |Claimed(clean, components, files, routed)|
    decreases |routed|
  {
    hide Workspace, RouteTo, Disjoint;
    if routed == map[] {
      assert Claimed(clean, components, files, routed) == {};
    } else {
      var name :| name in routed;
      var rest := routed - {name};
      Smaller(routed, name);
      TotalWithout(routed, name);
      TotalClaimed(clean, components, files, rest);
      RouteLength(PathOf(clean, components, name), files);
      var mine := Positions(PathOf(clean, components, name), files);
      var others := Claimed(clean, components, files, rest);
      forall i | i in mine
        ensures i !in others
      {
        if i in others {
          var other :| other in rest && i in Positions(PathOf(clean, components, other), files);
          OneComponent(clean, components, files[i].path, name, other);
          assert false;
        }
      }
      assert Claimed(clean, components, files, routed) == mine + others;
    }
  }

  /** The positions of the files that belong to some component. */
  ghost function Taken(clean: Clean, components: Components, files: seq<File>): set<nat> {
    set i | 0 <= i < |files| && exists name ::
              name in components && Takes(PathOf(clean, components, name), files[i].path)
  }

  /** For an accepted template no file is routed twice: the routed count is at most the file count,
      and it is the number of files some component takes. */
  lemma RoutedCount(clean: Clean, components: Components, files: seq<File>, routed: Routed)
    requires Accepted(clean, components) && routed.Keys <= components.Keys
    requires forall name | name in components ::
             FilesFor(routed, name) == RouteTo(PathOf(clean, components, name), files)
    ensures Total(routed) <= |files|
    ensures Total(routed) == |Taken(clean, components, files)|
  {
    hide Normalize, Workspace, RouteTo, Disjoint;
    forall name | name in routed
      ensures routed[name] == RouteTo(PathOf(clean, components, name), files)
    {
      assert FilesFor(routed, name) == routed[name];
    }
    TotalClaimed(clean, components, files, routed);
    var claimed := Claimed(clean, components, files, routed);
    var taken := Taken(clean, components, files);
    forall i | i in taken
      ensures i in claimed
    {
      var name :| name in components && Takes(PathOf(clean, components, name), files[i].path);
      RouteLength(PathOf(clean, components, name), files);
      assert i in Positions(PathOf(clean, components, name), files);
      assert |FilesFor(routed, name)| > 0;
    }
    assert claimed == taken;
    Bounded(taken, |files|);
  }

  lemma {:induction false} Bounded(s: set<nat>, n: nat)
    requires forall i | i in s :: i < n
    ensures |s| <= n
  {
    if n > 0 {
      Bounded(s - {n - 1}, n - 1);
    } else {
      assert s == {};
    }
  }
}
