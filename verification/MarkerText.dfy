/** The marker section of a SimpleSchema field: printed as `key=value` words, values quoted where
    needed (backend/kro/simpleschema.go), and read back by a quote-aware tokenizer (kro/schema.go). */
module MarkerText {
  import opened Collections
  import opened GoStrings

  // ----- printing -----

  /** strings.ReplaceAll of double by single quotes. */
  function Downgrade(s: string): (r: string)
    ensures |r| == |s| && '"' !in r
    ensures forall i | 0 <= i < |s| :: r[i] == if s[i] == '"' then '\'' else s[i]
  {
    seq(|s|, i requires 0 <= i < |s| => if s[i] == '"' then '\'' else s[i])
  }

  function Quote(s: string): string {
    "\"" + Downgrade(s) + "\""
  }

  /** A marker, its value quoted or bare. */
  datatype Marker = Marker(key: string, text: string, quoted: bool)

  function Show(m: Marker): string {
    m.key + "=" + (if m.quoted then Quote(m.text) else m.text)
  }

  function ShowAll(ms: seq<Marker>): seq<string> {
    seq(|ms|, i requires 0 <= i < |ms| => Show(ms[i]))
  }

  // ----- tokenizing -----

  function Flush(cur: string): seq<string> {
    if TrimSpace(cur) == "" then [] else [TrimSpace(cur)]
  }

  predicate IsQuote(c: char) { c == '"' || c == '\'' }

  predicate IsBreak(c: char) { c == ' ' || c == '\t' || c == '|' }

  /** The tokens of `s`, with `cur` read so far and `q` the open quote. */
  function Scan(s: string, cur: string, q: Option<char>): seq<string>
    decreases |s|
  {
    if s == "" then Flush(cur)
    else
      var c, rest := s[0], s[1..];
      if q.Some? then
        if c == q.value then Scan(rest, cur, None) else Scan(rest, cur + [c], q)
      else if IsQuote(c) then Scan(rest, cur, Some(c))
      else if IsBreak(c) then Flush(cur) + Scan(rest, "", None)
      else Scan(rest, cur + [c], None)
  }

  /** tokenizeMarkers: one pass over the bytes with a builder and a quote state. */
  method TokenizeMarkers(s: string) returns (out: seq<string>)
    ensures out == Scan(s, "", None)
  {
    hide TrimSpace;
    out := [];
    if s == "" { return; }
    var cur, inQuote: Option<char> := "", None;
    assert s[0..] == s;
    for i := 0 to |s|
      invariant out + Scan(s[i..], cur, inQuote) == Scan(s, "", None)
    {
      var c := s[i];
      assert s[i..][0] == c && s[i..][1..] == s[i + 1..];
      if inQuote.Some? {
        if c == inQuote.value {
          inQuote := None;
        } else {
          cur := cur + [c];
        }
      } else if c == '"' || c == '\'' {
        inQuote := Some(c);
      } else if c == ' ' || c == '\t' || c == '|' {
        assert out + (Flush(cur) + Scan(s[i + 1..], "", None)) == (out + Flush(cur)) + Scan(s[i + 1..], "", None);
        if TrimSpace(cur) != "" { out := out + [TrimSpace(cur)]; }
        cur := "";
      } else {
        cur := cur + [c];
      }
    }
    if TrimSpace(cur) != "" { out := out + [TrimSpace(cur)]; }
  }

  /** splitKV */
  function SplitKV(s: string): Option<(string, string)> {
    var t := TrimSpace(s);
    if '=' in t then Some((TrimSpace(Before(t)), TrimSpace(t[|Before(t)| + 1..]))) else None
  }

  /** The part before the first '='. */
  function Before(t: string): (r: string)
    requires '=' in t
    ensures |r| < |t| && r == t[..|r|] && t[|r|] == '=' && '=' !in r
  {
    if t[0] == '=' then "" else [t[0]] + Before(t[1..])
  }

  // ----- reading back what was printed -----

  predicate Bare(c: char) { !IsQuote(c) && !IsBreak(c) }

  lemma {:induction false} ScanBare(t: string, cur: string, rest: string)
    requires forall c | c in t :: Bare(c)
    ensures Scan(t + rest, cur, None) == Scan(rest, cur + t, None)
    decreases |t|
  {
    if t == "" {
      assert t + rest == rest && cur + t == cur;
    } else {
      assert (t + rest)[0] == t[0] && (t + rest)[1..] == t[1..] + rest && t[0] in t;
      ScanBare(t[1..], cur + [t[0]], rest);
      assert cur + [t[0]] + t[1..] == cur + t;
    }
  }

  lemma {:induction false} ScanInside(t: string, cur: string, rest: string)
    requires '"' !in t
    ensures Scan(t + "\"" + rest, cur, Some('"')) == Scan(rest, cur + t, None)
    decreases |t|
  {
    var s := t + "\"" + rest;
    if t == "" {
      assert s[0] == '"' && s[1..] == rest && cur + t == cur;
    } else {
      assert s[0] == t[0] && s[1..] == t[1..] + "\"" + rest && t[0] in t;
      ScanInside(t[1..], cur + [t[0]], rest);
      assert cur + [t[0]] + t[1..] == cur + t;
    }
  }

  lemma ScanQuoted(t: string, cur: string, rest: string)
    ensures Scan(Quote(t) + rest, cur, None) == Scan(rest, cur + Downgrade(t), None)
  {
    var s := Quote(t) + rest;
    assert s[0] == '"' && s[1..] == Downgrade(t) + "\"" + rest;
    ScanInside(Downgrade(t), cur, rest);
  }

  /** What the tokenizer sees of a marker. */
  function Plain(m: Marker): string {
    m.key + "=" + Text(m)
  }

  function Text(m: Marker): string {
    if m.quoted then Downgrade(m.text) else m.text
  }

  function Tokens(ms: seq<Marker>): (r: seq<string>)
    ensures |r| == |ms| && forall i | 0 <= i < |ms| :: r[i] == TrimSpace(Plain(ms[i]))
  {
    seq(|ms|, i requires 0 <= i < |ms| => TrimSpace(Plain(ms[i])))
  }

  predicate Printable(m: Marker) {
    && m.key != "" && Trimmed(m.key) && '=' !in m.key && (forall c | c in m.key :: Bare(c))
    && (!m.quoted ==> forall c | c in m.text :: Bare(c))
  }

  lemma ScanMarker(m: Marker, rest: string)
    requires Printable(m)
    ensures Scan(Show(m) + rest, "", None) == Scan(rest, Plain(m), None)
  {
    var head := m.key + "=";
    assert forall c | c in head :: Bare(c);
    if m.quoted {
      assert Show(m) + rest == head + (Quote(m.text) + rest);
      ScanBare(head, "", Quote(m.text) + rest);
      ScanQuoted(m.text, head, rest);
    } else {
      assert forall c | c in head + m.text :: Bare(c);
      ScanBare(head + m.text, "", rest);
      assert Show(m) == head + m.text;
    }
    assert "" + head == head && "" + (head + m.text) == head + m.text;
  }

  /** Printed markers, joined by spaces, are read back one token each. */
  lemma {:induction false} ScanAll(ms: seq<Marker>)
    requires ms != [] && forall m | m in ms :: Printable(m)
    ensures Scan(Join(ShowAll(ms), ' '), "", None) == Tokens(ms)
    decreases |ms|
  {
    hide TrimSpace, Show, Scan, Printable, Plain, TrimRight;
    var m, rest := ms[0], ms[1..];
    var tokens := Tokens(ms);
    assert m in ms && Printable(m);
    PrintableTrimmed(m);
    assert ShowAll(ms)[0] == Show(m) && ShowAll(ms)[1..] == ShowAll(rest);
    if rest == [] {
      assert Show(m) + "" == Show(m);
      ScanMarker(m, "");
      ScanEnd(Plain(m));
      assert tokens == [TrimSpace(Plain(m))];
    } else {
      assert forall x | x in rest :: x in ms;
      ScanAll(rest);
      var tail := Join(ShowAll(rest), ' ');
      assert Show(m) + [' '] + tail == Show(m) + (" " + tail);
      ScanMarker(m, " " + tail);
      ScanBreak(Plain(m), tail);
      assert tokens == [TrimSpace(Plain(m))] + Tokens(rest);
    }
  }

  lemma PrintableTrimmed(m: Marker)
    requires Printable(m)
    ensures TrimSpace(Plain(m)) != ""
  {
    PlainTrimmed(m);
  }

  lemma ScanEnd(cur: string)
    ensures Scan("", cur, None) == Flush(cur)
  {
  }

  lemma ScanBreak(cur: string, tail: string)
    ensures Scan(" " + tail, cur, None) == Flush(cur) + Scan(tail, "", None)
  {
    assert (" " + tail)[0] == ' ' && (" " + tail)[1..] == tail;
  }

  /** Trimming a marker trims its value on the right only. */
  lemma PlainTrimmed(m: Marker)
    requires m.key != "" && Trimmed(m.key)
    ensures TrimSpace(Plain(m)) == m.key + "=" + TrimRight(Text(m))
    ensures TrimSpace(Plain(m)) != ""
  {
    var head := m.key + "=";
    TrimLeftFixes(head + Text(m));
    TrimRightTail(head, Text(m));
  }

  lemma {:induction false} TrimRightTail(head: string, t: string)
    requires head != "" && !IsSpace(head[|head| - 1])
    ensures TrimRight(head + t) == head + TrimRight(t)
    decreases |t|
  {
    if t == "" {
      assert head + t == head && head + TrimRight(t) == head;
    } else {
      assert (head + t)[|head + t| - 1] == t[|t| - 1] && (head + t)[..|head + t| - 1] == head + t[..|t| - 1];
      if IsSpace(t[|t| - 1]) { TrimRightTail(head, t[..|t| - 1]); }
    }
  }

  /** Trimming on the right first changes nothing. */
  lemma {:induction false} TrimAfterRight(t: string)
    ensures TrimSpace(TrimRight(t)) == TrimSpace(t)
    decreases |t|
  {
    if t != "" && IsSpace(t[|t| - 1]) {
      TrimAfterRight(t[..|t| - 1]);
      TrimDropsLast(t);
    }
  }

  lemma TrimDropsLast(t: string)
    requires t != "" && IsSpace(t[|t| - 1])
    ensures TrimSpace(t[..|t| - 1]) == TrimSpace(t)
  {
    LeftDropsLast(t);
  }

  lemma {:induction false} LeftDropsLast(t: string)
    requires t != "" && IsSpace(t[|t| - 1])
    ensures TrimRight(TrimLeft(t[..|t| - 1])) == TrimRight(TrimLeft(t))
    decreases |t|
  {
    hide TrimLeft, TrimRight;
    var front := t[..|t| - 1];
    if IsSpace(t[0]) {
      LeftStep(t);
      if |t| > 1 {
        LeftStep(front);
        assert front[1..] == t[1..][..|t| - 2];
        LeftDropsLast(t[1..]);
      } else {
        assert t[1..] == "" == front;
      }
    } else {
      TrimLeftFixes(t);
      TrimLeftFixes(front);
      RightStep(t);
    }
  }

  lemma LeftStep(t: string)
    requires t != "" && IsSpace(t[0])
    ensures TrimLeft(t) == TrimLeft(t[1..])
  {
  }

  lemma RightStep(t: string)
    requires t != "" && IsSpace(t[|t| - 1])
    ensures TrimRight(t) == TrimRight(t[..|t| - 1])
  {
  }

  /** A printed marker is read back as its key and its trimmed value. */
  lemma MarkerRead(m: Marker)
    requires m.key != "" && Trimmed(m.key) && '=' !in m.key
    ensures SplitKV(TrimSpace(Plain(m))) == Some((m.key, TrimSpace(Text(m))))
  {
    PlainTrimmed(m);
    hide TrimSpace, SplitKV, Plain, Text, TrimRight;
    TrimSpaceFixes(Plain(m));
    TrimSpaceFixes(m.key);
    SplitAt(m.key, TrimRight(Text(m)));
    TrimAfterRight(Text(m));
  }

  lemma SplitAt(key: string, value: string)
    requires '=' !in key && TrimSpace(key + "=" + value) == key + "=" + value
    ensures SplitKV(key + "=" + value) == Some((TrimSpace(key), TrimSpace(value)))
  {
    hide TrimSpace;
    var t := key + "=" + value;
    assert t[|key|] == '=' && t[..|key|] == key && t[|key| + 1..] == value;
    FirstEquals(t, |key|);
  }

  lemma FirstEquals(t: string, k: nat)
    requires k < |t| && t[k] == '=' && '=' !in t[..k]
    ensures Before(t) == t[..k]
  {
    var b := Before(t);
    assert forall i | 0 <= i < |b| :: t[i] in b;
    assert forall i | 0 <= i < k :: t[i] in t[..k];
  }
}
