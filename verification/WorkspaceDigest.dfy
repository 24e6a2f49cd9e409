/** The workspace source digest: sha256 over `path NUL bytes NUL` for every managed file in path
    order (dev-agent/main.go, syncDigester). Go strings and byte slices are modelled as `seq<char>`,
    one char per byte; the hash is modelled as an injective constructor over its input. */
module WorkspaceDigest {

  type Bytes = seq<char>
  type Path = seq<char>
  type Tree = map<Path, Bytes>

  const NUL: char := '\0'

  datatype Digest = Sha256(preimage: Bytes)

  // ----- path order (bytewise, as strings.Compare) -----

  predicate Less(a: Path, b: Path) {
    if b == [] then false
    else if a == [] then true
    else a[0] < b[0] || (a[0] == b[0] && Less(a[1..], b[1..]))
  }

  /** Bytewise order: at the first difference the smaller byte comes first, and a prefix before the rest. */
  lemma {:induction false} LessIs(a: Path, b: Path)
    ensures Less(a, b) <==>
            exists i :: 0 <= i <= |a| && i < |b| && a[..i] == b[..i] && (i == |a| || a[i] < b[i])
    decreases |a|
  {
    if Less(a, b) {
      if a == [] {
        assert a[..0] == b[..0];
      } else if a[0] < b[0] {
        assert a[..0] == b[..0];
      } else {
        LessIs(a[1..], b[1..]);
        var i :| 0 <= i <= |a| - 1 && i < |b| - 1 && a[1..][..i] == b[1..][..i] &&
          (i == |a| - 1 || a[1..][i] < b[1..][i]);
        assert a[..i + 1] == [a[0]] + a[1..][..i] && b[..i + 1] == [b[0]] + b[1..][..i];
        assert a[..i + 1] == b[..i + 1] && (i + 1 == |a| || a[i + 1] < b[i + 1]);
      }
    }
    if i :| 0 <= i <= |a| && i < |b| && a[..i] == b[..i] && (i == |a| || a[i] < b[i]) {
      if a != [] && i > 0 {
        assert a[..i][0] == b[..i][0];
        assert a[1..][..i - 1] == a[..i][1..] && b[1..][..i - 1] == b[..i][1..];
        assert i - 1 == |a[1..]| || a[1..][i - 1] < b[1..][i - 1];
        LessIs(a[1..], b[1..]);
      }
    }
  }

  lemma {:induction false} LessTotal(a: Path, b: Path)
    ensures a == b || Less(a, b) || Less(b, a)
    ensures !(Less(a, b) && Less(b, a))
    ensures !Less(a, a)
  {
    if a != [] && b != [] {
      LessTotal(a[1..], b[1..]);
      if a[0] == b[0] && a[1..] == b[1..] {
        assert a == [a[0]] + a[1..] == b;
      }
    }
    if a != [] { LessTotal(a[1..], a[1..]); }
  }

  lemma {:induction false} LessTransitive(a: Path, b: Path, c: Path)
    requires Less(a, b) && Less(b, c)
    ensures Less(a, c)
  {
    if a != [] {
      if a[0] == b[0] == c[0] { LessTransitive(a[1..], b[1..], c[1..]); }
    }
  }

  ghost predicate Ascending(ps: seq<Path>) {
    forall i, j | 0 <= i < j < |ps| :: Less(ps[i], ps[j])
  }

  ghost predicate Lists(ps: seq<Path>, s: set<Path>) {
    forall p :: p in ps <==> p in s
  }

  /** The first path in order. */
  lemma {:induction false} LeastExists(s: set<Path>) returns (m: Path)
    requires s != {}
    ensures m in s && forall p | p in s && p != m :: Less(m, p)
  {
    var x :| x in s;
    if s == {x} {
      m := x;
    } else {
      var rest := s - {x};
      assert s == {x} + rest;
      m := LeastExists(rest);
      LessTotal(x, m);
      if Less(x, m) {
        forall p | p in s && p != x
          ensures Less(x, p)
        {
          if p != m { LessTransitive(x, m, p); }
        }
        m := x;
      }
    }
  }

  ghost function Least(s: set<Path>): (m: Path)
    requires s != {}
    ensures m in s && forall p | p in s && p != m :: Less(m, p)
  {
    LeastUnique(s);
    var m :| m in s && forall p | p in s && p != m :: Less(m, p);
    m
  }

  lemma LeastUnique(s: set<Path>)
    requires s != {}
    ensures exists m :: m in s && forall p | p in s && p != m :: Less(m, p)
  {
    var m := LeastExists(s);
  }

  /** The paths of a set in ascending order. */
  ghost function InOrder(s: set<Path>): (ps: seq<Path>)
    ensures Lists(ps, s) && |ps| == |s|
    decreases |s|
  {
    if s == {} then []
    else var m := Least(s); [m] + InOrder(s - {m})
  }

  lemma {:induction false} InOrderAscends(s: set<Path>)
    ensures Ascending(InOrder(s))
    decreases |s|
  {
    if s != {} {
      var m := Least(s);
      InOrderAscends(s - {m});
      var tail := InOrder(s - {m});
      forall i, j | 0 <= i < j < |InOrder(s)|
        ensures Less(InOrder(s)[i], InOrder(s)[j])
      {
        if i == 0 {
          assert tail[j - 1] in tail;
        }
      }
    }
  }

  /** There is only one ascending listing of a set, so any sort computes InOrder. */
  lemma {:induction false} AscendingUnique(ps: seq<Path>, s: set<Path>)
    requires Ascending(ps) && Lists(ps, s)
    ensures ps == InOrder(s)
    decreases |ps|
  {
    if ps == [] {
      assert s == {} by { assert forall p | p in s :: p in ps; }
    } else {
      assert ps[0] in s;
      var m := Least(s);
      assert ps[0] == m by {
        assert m in ps;
        var i :| 0 <= i < |ps| && ps[i] == m;
        LessTotal(m, ps[0]);
      }
      TailLists(ps, s);
      AscendingUnique(ps[1..], s - {m});
      assert ps == [ps[0]] + ps[1..];
    }
  }

  lemma TailLists(ps: seq<Path>, s: set<Path>)
    requires ps != [] && Ascending(ps) && Lists(ps, s)
    ensures Ascending(ps[1..]) && Lists(ps[1..], s - {ps[0]})
  {
    LessTotal(ps[0], ps[0]);
    forall p
      ensures p in ps[1..] <==> p in s - {ps[0]}
    {
      assert p in ps <==> p == ps[0] || p in ps[1..];
      if p in ps[1..] {
        var i :| 1 <= i < |ps| && ps[i] == p;
        assert Less(ps[0], p);
      }
    }
  }

  // ----- the encoding -----

  function Entry(p: Path, content: Bytes): Bytes {
    p + [NUL] + content + [NUL]
  }

  function Encode(ps: seq<Path>, t: Tree): Bytes
    requires forall p | p in ps :: p in t
  {
    if ps == [] then [] else Entry(ps[0], t[ps[0]]) + Encode(ps[1..], t)
  }

  ghost function EncodeTree(t: Tree): Bytes {
    Encode(InOrder(t.Keys), t)
  }

  /** The digest of a set of files: one function of the path-to-bytes map. */
  ghost function TreeDigest(t: Tree): Digest {
    Sha256(EncodeTree(t))
  }

  /** Two files are hashed in path order as path, NUL, bytes, NUL. */
  lemma DigestOfTwo(p: Path, c: Bytes, q: Path, d: Bytes)
    requires Less(p, q)
    ensures TreeDigest(map[q := d, p := c]) == Sha256(p + [NUL] + c + [NUL] + (q + [NUL] + d + [NUL]))
  {
    LessTotal(p, q);
    var t, ps := map[q := d, p := c], [p, q];
    assert Ascending(ps) && Lists(ps, t.Keys);
    hide Less, Ascending, InOrder;
    AscendingUnique(ps, t.Keys);
    EncodeTwo(p, q, t);
  }

  lemma EncodeTwo(p: Path, q: Path, t: Tree)
    requires p in t && q in t
    ensures Encode([p, q], t) == p + [NUL] + t[p] + [NUL] + (q + [NUL] + t[q] + [NUL])
  {
    assert [p, q][1..] == [q] && [q][1..] == [];
    assert Encode([q], t) == Entry(q, t[q]) + [] == Entry(q, t[q]);
  }

  lemma {:induction false} EncodeAppend(ps: seq<Path>, p: Path, t: Tree)
    requires p in t && forall q | q in ps :: q in t
    ensures Encode(ps + [p], t) == Encode(ps, t) + Entry(p, t[p])
  {
    if ps == [] {
      assert [] + [p] == [p];
      assert [p][1..] == [];
      assert Encode([p], t) == Entry(p, t[p]) + Encode([], t);
    } else {
      assert (ps + [p])[1..] == ps[1..] + [p];
      EncodeAppend(ps[1..], p, t);
    }
  }

  /** The encoding only reads the listed paths. */
  lemma {:induction false} EncodeFrame(ps: seq<Path>, t: Tree, u: Tree)
    requires forall p | p in ps :: p in t && p in u && t[p] == u[p]
    ensures Encode(ps, t) == Encode(ps, u)
  {
    if ps != [] {
      assert forall p | p in ps[1..] :: p in ps;
      EncodeFrame(ps[1..], t, u);
    }
  }

  // ----- when the encoding determines the files -----

  /** The same paths with files of the same sizes. */
  predicate SameShape(t: Tree, u: Tree) {
    t.Keys == u.Keys && forall p | p in t :: |t[p]| == |u[p]|
  }

  lemma {:induction false} EncodeShape(ps: seq<Path>, t: Tree, u: Tree)
    requires forall p | p in ps :: p in t && p in u && |t[p]| == |u[p]|
    requires Encode(ps, t) == Encode(ps, u)
    ensures forall p | p in ps :: t[p] == u[p]
  {
    if ps != [] {
      var p, rest := ps[0], ps[1..];
      assert forall q | q in rest :: q in ps;
      SameHead(Entry(p, t[p]), Encode(rest, t), Entry(p, u[p]), Encode(rest, u));
      SameEntry(p, t[p], u[p]);
      EncodeShape(rest, t, u);
    }
  }

  lemma SameHead(a: Bytes, b: Bytes, c: Bytes, d: Bytes)
    requires |a| == |c| && a + b == c + d
    ensures a == c && b == d
  {
    assert a == (a + b)[..|a|] && b == (a + b)[|a|..];
    assert c == (c + d)[..|c|] && d == (c + d)[|c|..];
  }

  lemma SameEntry(p: Path, a: Bytes, b: Bytes)
    requires |a| == |b| && Entry(p, a) == Entry(p, b)
    ensures a == b
  {
    assert Entry(p, a)[|p| + 1..|p| + 1 + |a|] == a;
    assert Entry(p, b)[|p| + 1..|p| + 1 + |b|] == b;
  }

  /** Two workspaces with one digest hold the same files exactly when they have the same paths with
      files of the same sizes, whatever the bytes. */
  lemma DigestDetermines(t: Tree, u: Tree)
    requires TreeDigest(t) == TreeDigest(u)
    ensures t == u <==> SameShape(t, u)
  {
    if SameShape(t, u) {
      hide InOrder, Encode;
      EncodeShape(InOrder(t.Keys), t, u);
      assert forall p :: p in t <==> p in InOrder(t.Keys);
    }
  }

  predicate Plain(b: Bytes) { NUL !in b }

  function Nuls(b: Bytes): nat { multiset(b)[NUL] }

  lemma NulsAppend(a: Bytes, b: Bytes)
    ensures Nuls(a + b) == Nuls(a) + Nuls(b)
  {
    assert multiset(a + b) == multiset(a) + multiset(b);
  }

  lemma EntryNuls(p: Path, content: Bytes)
    requires Plain(p)
    ensures Nuls(Entry(p, content)) == 2 + Nuls(content)
  {
    NulsAppend(p, [NUL]);
    NulsAppend(p + [NUL], content);
    NulsAppend(p + [NUL] + content, [NUL]);
  }

  /** Every file contributes two NULs, and more exactly when its content has some. */
  lemma {:induction false} EncodeNuls(ps: seq<Path>, t: Tree)
    requires forall p | p in ps :: p in t && Plain(p)
    ensures Nuls(Encode(ps, t)) >= 2 * |ps|
    ensures Nuls(Encode(ps, t)) == 2 * |ps| <==> forall p | p in ps :: Plain(t[p])
  {
    if ps != [] {
      assert forall p | p in ps :: p == ps[0] || p in ps[1..];
      assert forall p | p in ps[1..] :: p in ps;
      EncodeNuls(ps[1..], t);
      EntryNuls(ps[0], t[ps[0]]);
      NulsAppend(Entry(ps[0], t[ps[0]]), Encode(ps[1..], t));
      assert ps[0] in ps;
    }
  }

  /** Up to the first NUL there is only one way to read a byte string. */
  lemma {:induction false} FirstField(a: Bytes, x: Bytes, b: Bytes, y: Bytes)
    requires Plain(a) && Plain(b) && a + [NUL] + x == b + [NUL] + y
    ensures a == b && x == y
  {
    var l, r := a + [NUL] + x, b + [NUL] + y;
    assert l[0] == r[0];
    if a != [] { assert a[0] in a; }
    if b != [] { assert b[0] in b; }
    if a == [] {
      assert x == l[1..] && y == r[1..];
    } else {
      assert l[1..] == a[1..] + [NUL] + x && r[1..] == b[1..] + [NUL] + y;
      FirstField(a[1..], x, b[1..], y);
      assert a == [a[0]] + a[1..] && b == [b[0]] + b[1..];
    }
  }

  lemma FirstEntry(p: Path, c: Bytes, x: Bytes, q: Path, d: Bytes, y: Bytes)
    requires Plain(p) && Plain(c) && Plain(q) && Plain(d)
    requires Entry(p, c) + x == Entry(q, d) + y
    ensures p == q && c == d && x == y
  {
    assert Entry(p, c) + x == p + [NUL] + (c + [NUL] + x);
    assert Entry(q, d) + y == q + [NUL] + (d + [NUL] + y);
    FirstField(p, c + [NUL] + x, q, d + [NUL] + y);
    FirstField(c, x, d, y);
  }

  ghost predicate TextIn(ps: seq<Path>, t: Tree) {
    forall i | 0 <= i < |ps| :: ps[i] in t && Plain(ps[i]) && Plain(t[ps[i]])
  }

  lemma {:induction false} TextListsEqual(ps: seq<Path>, t: Tree, qs: seq<Path>, u: Tree)
    requires TextIn(ps, t) && TextIn(qs, u)
    requires Encode(ps, t) == Encode(qs, u)
    ensures ps == qs && forall i | 0 <= i < |ps| :: t[ps[i]] == u[ps[i]]
  {
    if ps != [] && qs != [] {
      FirstEntry(ps[0], t[ps[0]], Encode(ps[1..], t), qs[0], u[qs[0]], Encode(qs[1..], u));
      TextListsEqual(ps[1..], t, qs[1..], u);
      assert ps == [ps[0]] + ps[1..] && qs == [qs[0]] + qs[1..];
    } else {
      assert |Encode(ps, t)| == |Encode(qs, u)|;
    }
  }

  /** No path or content has a NUL byte. */
  ghost predicate Textual(t: Tree) {
    forall p | p in t :: Plain(p) && Plain(t[p])
  }

  ghost predicate PlainPaths(t: Tree) {
    forall p | p in t :: Plain(p)
  }

  lemma TreeNuls(t: Tree)
    requires PlainPaths(t)
    ensures Nuls(EncodeTree(t)) >= 2 * |t|
    ensures Nuls(EncodeTree(t)) == 2 * |t| <==> Textual(t)
  {
    var ps := InOrder(t.Keys);
    assert |ps| == |t.Keys| == |t|;
    EncodeNuls(ps, t);
    assert forall p | p in t :: p in ps;
  }

  lemma TextTreesEqual(t: Tree, u: Tree)
    requires Textual(t) && Textual(u) && EncodeTree(t) == EncodeTree(u)
    ensures t == u
  {
    var ps := InOrder(t.Keys);
    TextListsEqual(ps, t, InOrder(u.Keys), u);
    assert forall p :: p in t <==> p in ps;
    assert forall p :: p in u <==> p in ps;
    assert t.Keys == u.Keys;
    forall p | p in t
      ensures t[p] == u[p]
    {
      var i :| 0 <= i < |ps| && ps[i] == p;
    }
  }

  /** A NUL-free workspace shares its digest with another workspace only if they hold the same
      files, or the other one holds fewer, with NUL bytes inside a file. */
  lemma TextDigestDetermines(t: Tree, u: Tree)
    requires Textual(t) && PlainPaths(u) && TreeDigest(t) == TreeDigest(u)
    ensures t == u <==> |t| == |u|
    ensures t == u <==> Textual(u)
    ensures |u| <= |t|
  {
    TreeNuls(t);
    TreeNuls(u);
    if Textual(u) { TextTreesEqual(t, u); }
  }

  /** A binary file can imitate two text files: the digest alone does not tell them apart. */
  lemma DigestAmbiguous() returns (t: Tree, u: Tree)
    ensures t == map["a" := "x", "b" := "y"] && u.Keys == {"a"} && TreeDigest(t) == TreeDigest(u)
    ensures PlainPaths(t) && PlainPaths(u) && Textual(t) && !Textual(u)
  {
    hide InOrder, Encode;
    t := map["a" := "x", "b" := "y"];
    u := map["a" := "x" + [NUL] + "b" + [NUL] + "y"];
    assert Less("a", "b");
    AscendingUnique(["a", "b"], t.Keys);
    AscendingUnique(["a"], u.Keys);
    EncodeOne("a", u);
    EncodePair("a", "b", t);
    assert Entry("a", "x") + Entry("b", "y") == Entry("a", u["a"]);
    assert u["a"][1] == NUL;
  }

  lemma EncodeOne(p: Path, t: Tree)
    requires p in t
    ensures Encode([p], t) == Entry(p, t[p])
  {
    assert Encode([p][1..], t) == [];
  }

  lemma EncodePair(p: Path, q: Path, t: Tree)
    requires p in t && q in t
    ensures Encode([p, q], t) == Entry(p, t[p]) + Entry(q, t[q])
  {
    hide Entry;
    EncodeOne(q, t);
    assert [p, q][1..] == [q];
  }

  /** Two binary workspaces with one digest and as many files: counting does not tell them apart. */
  lemma CountNotEnough() returns (t: Tree, u: Tree)
    ensures t != u && |t| == |u| && t.Keys == u.Keys && TreeDigest(t) == TreeDigest(u)
  {
    hide InOrder, Encode;
    t := map["a" := "x" + [NUL] + "b" + [NUL] + "y", "b" := "z"];
    u := map["a" := "x", "b" := "y" + [NUL] + "b" + [NUL] + "z"];
    assert Less("a", "b");
    AscendingUnique(["a", "b"], t.Keys);
    AscendingUnique(["a", "b"], u.Keys);
    EncodePair("a", "b", t);
    EncodePair("a", "b", u);
    assert Entry("a", t["a"]) + Entry("b", "z") == Entry("a", "x") + Entry("b", u["b"]);
    assert |t["a"]| != |u["a"]|;
    assert |t| == |t.Keys| && |u| == |u.Keys|;
  }
}
