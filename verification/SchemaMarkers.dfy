/** What the SimpleSchema parser makes of a field: the type for every spelling, and every marker however the
    markers are separated and quoted (kro/schema.go). */
module SchemaMarkers {
  import opened Collections
  import opened GoStrings
  import opened MarkerText
  import opened MarkerLines
  import opened SimpleSchema

  // ----- types -----

  predicate Blanks(s: string) { forall c | c in s :: IsSpace(c) }

  lemma {:induction false} TrimBefore(pre: string, s: string)
    requires Blanks(pre)
    ensures TrimLeft(pre + s) == TrimLeft(s)
    decreases |pre|
  {
    if pre == "" {
      assert pre + s == s;
    } else {
      assert pre[0] in pre && (pre + s)[0] == pre[0] && (pre + s)[1..] == pre[1..] + s;
      TrimBefore(pre[1..], s);
    }
  }

  lemma {:induction false} TrimAfter(s: string, post: string)
    requires Blanks(post)
    ensures TrimRight(s + post) == TrimRight(s)
    decreases |post|
  {
    if post == "" {
      assert s + post == s;
    } else {
      var n := |post| - 1;
      assert post[n] in post && (s + post)[|s| + n] == post[n] && (s + post)[..|s| + n] == s + post[..n];
      TrimAfter(s, post[..n]);
    }
  }

  /** White space around a trimmed text is dropped. */
  lemma TrimPadded(pre: string, s: string, post: string)
    requires Blanks(pre) && Blanks(post) && Trimmed(s) && s != ""
    ensures TrimSpace(pre + s + post) == s
  {
    hide TrimLeft, TrimRight;
    assert pre + s + post == pre + (s + post);
    TrimBefore(pre, s + post);
    TrimLeftFixes(s + post);
    TrimAfter(s, post);
    TrimRightFixes(s);
  }

  /** The JSON type of every accepted spelling, white space around it or not; any other text is a string. */
  lemma TypeSpellings(pre: string, name: string, post: string)
    requires Blanks(pre) && Blanks(post) && Trimmed(name) && name != ""
    ensures name in {"integer", "int", "int32", "int64"} <==> JsonType(pre + name + post) == "integer"
    ensures name in {"number", "float", "double"} <==> JsonType(pre + name + post) == "number"
    ensures name in {"boolean", "bool"} <==> JsonType(pre + name + post) == "boolean"
    ensures name in {"object", "map"} <==> JsonType(pre + name + post) == "object"
    ensures name in {"array", "[]string", "[]integer", "[]any"} <==> JsonType(pre + name + post) == "array"
    ensures JsonType(pre + name + post) in {"integer", "number", "boolean", "object", "array", "string"}
  {
    TrimPadded(pre, name, post);
    hide TrimSpace, JsonTypeOf;
    TypeTable(name);
  }

  lemma TypeTable(t: string)
    ensures t in {"integer", "int", "int32", "int64"} <==> JsonTypeOf(t) == "integer"
    ensures t in {"number", "float", "double"} <==> JsonTypeOf(t) == "number"
    ensures t in {"boolean", "bool"} <==> JsonTypeOf(t) == "boolean"
    ensures t in {"object", "map"} <==> JsonTypeOf(t) == "object"
    ensures t in {"array", "[]string", "[]integer", "[]any"} <==> JsonTypeOf(t) == "array"
    ensures JsonTypeOf(t) in {"integer", "number", "boolean", "object", "array", "string"}
  {
    assert "integer"[0] == 'i' && "number"[0] == 'n' && "boolean"[0] == 'b' && "object"[0] == 'o' &&
           "array"[0] == 'a' && "string"[0] == 's';
  }

  /** The type names that are printed. */
  lemma KroNames(t: Type)
    ensures KroType(Str) == "string" && KroType(Integer) == "integer" && KroType(Number) == "number"
    ensures KroType(Boolean) == "boolean" && KroType(Object) == "object" && KroType(Array(None)) == "[]string"
    ensures KroType(Array(Some(Integer))) == "[]integer" && KroType(MapOf(Str)) == "map[string]string"
    ensures KroType(Array(Some(t))) == "[]" + KroType(t) && KroType(MapOf(t)) == "map[string]" + KroType(t)
  {
    assert "[]" + "string" == "[]string" && "[]" + "integer" == "[]integer";
    assert "map[string]" + "string" == "map[string]string";
  }

  // ----- the parse loop -----

  type Pair = (string, string)

  /** The parse loop over markers already split. */
  function Filled(f: NumberFormat, acc: Parsed, kvs: seq<Pair>): Parsed {
    if kvs == [] then acc
    else Apply(f, Filled(f, acc, kvs[..|kvs| - 1]), kvs[|kvs| - 1].0, kvs[|kvs| - 1].1)
  }

  /** Marker `i` is the last with this key. */
  predicate LastOf(kvs: seq<Pair>, key: string, i: nat) {
    i < |kvs| && kvs[i].0 == key && forall j | i < j < |kvs| :: kvs[j].0 != key
  }

  predicate Lacks(kvs: seq<Pair>, key: string) {
    forall i | 0 <= i < |kvs| :: kvs[i].0 != key
  }

  lemma LastFront(kvs: seq<Pair>, key: string)
    requires kvs != []
    ensures var front, last := kvs[..|kvs| - 1], kvs[|kvs| - 1];
            && (last.0 == key ==> forall i: nat :: LastOf(kvs, key, i) ==> i == |kvs| - 1)
            && (last.0 != key ==>
                  && (forall i: nat :: LastOf(kvs, key, i) <==> LastOf(front, key, i))
                  && (forall i: nat :: LastOf(kvs, key, i) ==> i < |front|)
                  && (Lacks(kvs, key) <==> Lacks(front, key)))
            && (last.0 == key ==> !Lacks(kvs, key))
  {
    var front, last := kvs[..|kvs| - 1], kvs[|kvs| - 1];
    if last.0 != key {
      forall i: nat
        ensures LastOf(kvs, key, i) <==> LastOf(front, key, i)
      {
        assert i < |front| ==> forall j | i < j < |front| :: front[j] == kvs[j];
      }
      assert forall i | 0 <= i < |front| :: front[i] == kvs[i];
    }
  }

  /** What one marker does to each part of the field. */
  lemma ApplyParts(f: NumberFormat, acc: Parsed, k: string, v: string)
    ensures var p, p' := acc.prop, Apply(f, acc, k, v).prop;
            && p'.typ == p.typ && p'.items == p.items
            && p'.default == (if k == "default" then Some(Coerce(f, v, p.typ)) else p.default)
            && p'.enums == (if k == "enum" then Some(Texts(TrimAll(Split(v, ',')))) else p.enums)
            && p'.description == (if k == "description" then Some(v) else p.description)
            && p'.pattern == (if k == "pattern" then Some(v) else p.pattern)
            && p'.minimum == (if k == "minimum" && f.parse(v).Some? then f.parse(v) else p.minimum)
            && p'.maximum == (if k == "maximum" && f.parse(v).Some? then f.parse(v) else p.maximum)
    ensures Apply(f, acc, k, v).required == (acc.required || (k == "required" && v == "true"))
  {
    hide Coerce, Split, TrimAll, Texts;
    assert "required"[0] == 'r' && "default"[..3] == "def" && "description"[..3] == "des" && "enum"[0] == 'e';
    assert "minimum"[..2] == "mi" && "maximum"[..2] == "ma" && "pattern"[0] == 'p';
  }

  /** A part of the field that markers of one key overwrite and no others touch is set by the last of
      them. */
  lemma {:induction false} LastDecides<T>(f: NumberFormat, typ: string, kvs: seq<Pair>, key: string,
                                          part: Prop -> Option<T>, read: string -> T)
    requires part(Blank(typ).prop) == None
    requires forall acc: Parsed, k: string, v: string | acc.prop.typ == typ ::
               part(Apply(f, acc, k, v).prop) == if k == key then Some(read(v)) else part(acc.prop)
    ensures var p := Filled(f, Blank(typ), kvs).prop;
            && p.typ == typ
            && (Lacks(kvs, key) ==> part(p) == None)
            && (forall i: nat | i < |kvs| && LastOf(kvs, key, i) :: part(p) == Some(read(kvs[i].1)))
    decreases |kvs|
  {
    if kvs != [] {
      hide Apply, LastOf, Lacks, Filled, Coerce, Split, TrimAll, Texts;
      var front, last := kvs[..|kvs| - 1], kvs[|kvs| - 1];
      LastDecides(f, typ, front, key, part, read);
      LastFront(kvs, key);
      var before := Filled(f, Blank(typ), front);
      FilledNext(f, typ, kvs);
      ApplyParts(f, before, last.0, last.1);
      var after := Apply(f, before, last.0, last.1);
      assert part(after.prop) == if last.0 == key then Some(read(last.1)) else part(before.prop);
      forall i: nat | i < |kvs| && LastOf(kvs, key, i)
        ensures part(after.prop) == Some(read(kvs[i].1))
      {
        if last.0 != key { assert i < |front| && front[i] == kvs[i]; }
      }
    }
  }

  lemma FilledNext(f: NumberFormat, typ: string, kvs: seq<Pair>)
    requires kvs != []
    ensures var front, last := kvs[..|kvs| - 1], kvs[|kvs| - 1];
            Filled(f, Blank(typ), kvs) == Apply(f, Filled(f, Blank(typ), front), last.0, last.1)
  {
    hide Apply;
  }

  /** Marker `i` is the last with this key whose value is a number. */
  predicate LastNumber(f: NumberFormat, kvs: seq<Pair>, key: string, i: nat) {
    && i < |kvs| && kvs[i].0 == key && f.parse(kvs[i].1).Some?
    && forall j | i < j < |kvs| && kvs[j].0 == key :: f.parse(kvs[j].1).None?
  }

  predicate LacksNumber(f: NumberFormat, kvs: seq<Pair>, key: string) {
    forall i | 0 <= i < |kvs| && kvs[i].0 == key :: f.parse(kvs[i].1).None?
  }

  lemma NumberFront(f: NumberFormat, kvs: seq<Pair>, key: string)
    requires kvs != []
    ensures var front, last := kvs[..|kvs| - 1], kvs[|kvs| - 1];
            var counts := last.0 == key && f.parse(last.1).Some?;
            && (counts ==> !LacksNumber(f, kvs, key) && forall i: nat :: LastNumber(f, kvs, key, i) ==> i == |kvs| - 1)
            && (!counts ==>
                  && (forall i: nat :: LastNumber(f, kvs, key, i) <==> LastNumber(f, front, key, i))
                  && (LacksNumber(f, kvs, key) <==> LacksNumber(f, front, key)))
  {
    var front, last := kvs[..|kvs| - 1], kvs[|kvs| - 1];
    assert forall i | 0 <= i < |front| :: front[i] == kvs[i];
    if !(last.0 == key && f.parse(last.1).Some?) {
      forall i: nat
        ensures LastNumber(f, kvs, key, i) <==> LastNumber(f, front, key, i)
      {
        assert i < |front| ==> forall j | i < j < |front| :: front[j] == kvs[j];
      }
    }
  }

  /** A bound is set by the last marker of its key that is a number. */
  lemma {:induction false} LastNumberDecides(f: NumberFormat, typ: string, kvs: seq<Pair>, key: string,
                                             part: Prop -> Option<int>)
    requires part(Blank(typ).prop) == None
    requires forall acc: Parsed, k: string, v: string ::
               part(Apply(f, acc, k, v).prop) == if k == key && f.parse(v).Some? then f.parse(v) else part(acc.prop)
    ensures var p := Filled(f, Blank(typ), kvs).prop;
            && (LacksNumber(f, kvs, key) ==> part(p) == None)
            && (forall i: nat | i < |kvs| && LastNumber(f, kvs, key, i) :: part(p) == f.parse(kvs[i].1))
    decreases |kvs|
  {
    if kvs != [] {
      hide Apply, LastNumber, LacksNumber;
      var front := kvs[..|kvs| - 1];
      LastNumberDecides(f, typ, front, key, part);
      NumberFront(f, kvs, key);
      assert forall i: nat | i < |front| :: front[i] == kvs[i];
      NumberInFront(f, kvs, key);
    }
  }

  lemma NumberInFront(f: NumberFormat, kvs: seq<Pair>, key: string)
    requires kvs != []
    ensures !(kvs[|kvs| - 1].0 == key && f.parse(kvs[|kvs| - 1].1).Some?) ==>
              forall i: nat | i < |kvs| && LastNumber(f, kvs, key, i) ::
                i < |kvs| - 1 && LastNumber(f, kvs[..|kvs| - 1], key, i)
  {
    NumberFront(f, kvs, key);
  }

  /** The parsed field, part by part: texts, default and enum by the last marker of their key, bounds by the
      last that is a number, required by any that says so. */
  lemma FilledIs(f: NumberFormat, typ: string, kvs: seq<Pair>)
    ensures var r := Filled(f, Blank(typ), kvs);
            && r.prop.typ == typ
            && (Lacks(kvs, "description") ==> r.prop.description == None)
            && (Lacks(kvs, "pattern") ==> r.prop.pattern == None)
            && (Lacks(kvs, "default") ==> r.prop.default == None)
            && (Lacks(kvs, "enum") ==> r.prop.enums == None)
            && (LacksNumber(f, kvs, "minimum") ==> r.prop.minimum == None)
            && (LacksNumber(f, kvs, "maximum") ==> r.prop.maximum == None)
    ensures var r := Filled(f, Blank(typ), kvs);
            forall i: nat | i < |kvs| ::
              && (LastOf(kvs, "description", i) ==> r.prop.description == Some(kvs[i].1))
              && (LastOf(kvs, "pattern", i) ==> r.prop.pattern == Some(kvs[i].1))
              && (LastOf(kvs, "default", i) ==> r.prop.default == Some(Coerce(f, kvs[i].1, typ)))
              && (LastOf(kvs, "enum", i) ==> r.prop.enums == Some(Texts(TrimAll(Split(kvs[i].1, ',')))))
              && (LastNumber(f, kvs, "minimum", i) ==> r.prop.minimum == f.parse(kvs[i].1))
              && (LastNumber(f, kvs, "maximum", i) ==> r.prop.maximum == f.parse(kvs[i].1))
    ensures Filled(f, Blank(typ), kvs).required <==> exists i :: 0 <= i < |kvs| && kvs[i] == ("required", "true")
  {
    hide Apply, LastOf, Lacks, LastNumber, LacksNumber, Coerce, Split, TrimAll, Texts, Filled;
    forall acc: Parsed, k: string, v: string
      ensures var p, p' := acc.prop, Apply(f, acc, k, v).prop;
              && p'.default == (if k == "default" then Some(Coerce(f, v, p.typ)) else p.default)
              && p'.enums == (if k == "enum" then Some(Texts(TrimAll(Split(v, ',')))) else p.enums)
              && p'.description == (if k == "description" then Some(v) else p.description)
              && p'.pattern == (if k == "pattern" then Some(v) else p.pattern)
              && p'.minimum == (if k == "minimum" && f.parse(v).Some? then f.parse(v) else p.minimum)
              && p'.maximum == (if k == "maximum" && f.parse(v).Some? then f.parse(v) else p.maximum)
    {
      ApplyParts(f, acc, k, v);
    }
    LastDecides(f, typ, kvs, "description", (p: Prop) => p.description, (v: string) => v);
    LastDecides(f, typ, kvs, "pattern", (p: Prop) => p.pattern, (v: string) => v);
    LastDecides(f, typ, kvs, "default", (p: Prop) => p.default, (v: string) => Coerce(f, v, typ));
    LastDecides(f, typ, kvs, "enum", (p: Prop) => p.enums, (v: string) => Texts(TrimAll(Split(v, ','))));
    LastNumberDecides(f, typ, kvs, "minimum", (p: Prop) => p.minimum);
    LastNumberDecides(f, typ, kvs, "maximum", (p: Prop) => p.maximum);
    FilledRequired(f, typ, kvs);
  }

  /** A field is required when some marker says so; no other marker takes that back. */
  lemma {:induction false} FilledRequired(f: NumberFormat, typ: string, kvs: seq<Pair>)
    ensures Filled(f, Blank(typ), kvs).required <==> exists i :: 0 <= i < |kvs| && kvs[i] == ("required", "true")
    decreases |kvs|
  {
    if kvs != [] {
      hide Apply;
      var front, last := kvs[..|kvs| - 1], kvs[|kvs| - 1];
      FilledRequired(f, typ, front);
      assert forall i | 0 <= i < |front| :: front[i] == kvs[i];
      ApplyParts(f, Filled(f, Blank(typ), front), last.0, last.1);
    }
  }

  // ----- the whole field -----

  /** A marker as written: its key, '=', and a value of bare and quoted pieces. */
  datatype Entry = Entry(key: string, value: Word)

  predicate Keyed(e: Entry) {
    e.key != "" && Trimmed(e.key) && '=' !in e.key && Spellable(Raw(e.key))
  }

  function ValueOf(e: Entry): string { TrimSpace(Meaning(e.value)) }

  function EntryWord(e: Entry): Word { [Raw(e.key + "=")] + e.value }

  function Words(es: seq<Entry>): (r: seq<Word>)
    ensures |r| == |es| && forall i | 0 <= i < |es| :: r[i] == EntryWord(es[i])
  {
    seq(|es|, i requires 0 <= i < |es| => EntryWord(es[i]))
  }

  function Pairs(es: seq<Entry>): (r: seq<Pair>)
    ensures |r| == |es| && forall i | 0 <= i < |es| :: r[i] == (es[i].key, ValueOf(es[i]))
  {
    seq(|es|, i requires 0 <= i < |es| => (es[i].key, ValueOf(es[i])))
  }

  /** A marker is read as its key and its trimmed value. */
  lemma EntryRead(e: Entry)
    requires Keyed(e)
    ensures TrimSpace(Meaning(EntryWord(e))) != ""
    ensures SplitKV(TrimSpace(Meaning(EntryWord(e)))) == Some((e.key, ValueOf(e)))
  {
    hide TrimSpace, SplitKV;
    var m := Marker(e.key, Meaning(e.value), false);
    assert EntryWord(e)[1..] == e.value;
    assert Meaning(EntryWord(e)) == Plain(m);
    MarkerRead(m);
    PlainTrimmed(m);
  }

  lemma {:induction false} TokensFill(f: NumberFormat, acc: Parsed, tokens: seq<string>, kvs: seq<Pair>)
    requires |tokens| == |kvs| && forall i | 0 <= i < |tokens| :: SplitKV(tokens[i]) == Some(kvs[i])
    ensures ApplyTokens(f, acc, tokens) == Filled(f, acc, kvs)
    decreases |tokens|
  {
    if tokens != [] {
      hide Apply, SplitKV;
      TokensFill(f, acc, tokens[..|tokens| - 1], kvs[..|kvs| - 1]);
    }
  }

  /** A field is its type up to the first bar and the markers after it, whatever separates these. */
  lemma ParseFills(f: NumberFormat, typeText: string, gaps: seq<string>, es: seq<Entry>)
    requires '|' !in typeText && (forall e | e in es :: Keyed(e)) && Proper(gaps, Words(es))
    ensures ParseLeaf(f, typeText + "|" + Line(gaps, Words(es))) ==
            Filled(f, Blank(JsonType(typeText)), Pairs(es))
  {
    hide Scan, Apply, SplitKV, TrimSpace, JsonType, Meaning, Line, Keyed, ValueOf, Spellable, Gap;
    CutAt(typeText, Line(gaps, Words(es)));
    ScanLine(gaps, Words(es));
    forall i | 0 <= i < |es|
      ensures TrimSpace(Meaning(Words(es)[i])) != ""
      ensures SplitKV(TrimSpace(Meaning(Words(es)[i]))) == Some(Pairs(es)[i])
    {
      EntryRead(es[i]);
    }
    ReadingsAt(Words(es));
    TokensFill(f, Blank(JsonType(typeText)), Readings(Words(es)), Pairs(es));
  }

  /** A field without a bar has only a type, and a word without '=' says nothing. */
  lemma ParsePlain(f: NumberFormat, typeText: string, acc: Parsed, token: string)
    requires '|' !in typeText && '=' !in token
    ensures ParseLeaf(f, typeText) == Blank(JsonType(typeText))
    ensures ApplyToken(f, acc, token) == acc
  {
    hide JsonType, Apply;
    CutNone(typeText);
    assert Scan("", "", None) == [];
    TrimInside(token);
  }

  lemma TrimInside(s: string)
    ensures forall c | c in TrimSpace(s) :: c in s
  {
    var l := TrimLeft(s);
    assert forall c | c in TrimRight(l) :: c in l;
  }

  /** A default without outer quotes: a number for the two number types where it reads as one, a truth value
      for booleans, else the text itself. */
  lemma CoerceIs(f: NumberFormat, v: string, typ: string)
    requires v == "" || (!Mark(v[0]) && !Mark(v[|v| - 1]))
    ensures (typ == "integer" || typ == "number") && f.parse(v).Some? ==> Coerce(f, v, typ) == Int(f.parse(v).value)
    ensures (typ == "integer" || typ == "number") && f.parse(v).None? ==> Coerce(f, v, typ) == SimpleSchema.Text(v)
    ensures typ == "boolean" ==> Coerce(f, v, typ) == Truth(v == "true")
    ensures typ !in {"integer", "number", "boolean"} ==> Coerce(f, v, typ) == SimpleSchema.Text(v)
  {
    assert TrimQuotes(v) == v;
    assert "integer"[0] == 'i' && "number"[0] == 'n' && "boolean"[0] == 'b';
  }

  /** The parsed field of any text with keyed markers, separated by any mix of spaces, tabs and bars and
      with values bare or in either kind of quote: the type before the first bar, and of every key what
      its last marker says. */
  lemma ParseIs(f: NumberFormat, typeText: string, gaps: seq<string>, es: seq<Entry>)
    requires '|' !in typeText && (forall e | e in es :: Keyed(e)) && Proper(gaps, Words(es))
    ensures var r, kvs := ParseLeaf(f, typeText + "|" + Line(gaps, Words(es))), Pairs(es);
            && r.prop.typ == JsonType(typeText)
            && (r.required <==> exists i :: 0 <= i < |es| && es[i].key == "required" && ValueOf(es[i]) == "true")
            && (Lacks(kvs, "description") ==> r.prop.description == None)
            && (Lacks(kvs, "pattern") ==> r.prop.pattern == None)
            && (Lacks(kvs, "default") ==> r.prop.default == None)
            && (Lacks(kvs, "enum") ==> r.prop.enums == None)
            && (LacksNumber(f, kvs, "minimum") ==> r.prop.minimum == None)
            && (LacksNumber(f, kvs, "maximum") ==> r.prop.maximum == None)
    ensures var r, kvs := ParseLeaf(f, typeText + "|" + Line(gaps, Words(es))), Pairs(es);
            forall i: nat | i < |es| ::
              && (LastOf(kvs, "description", i) ==> r.prop.description == Some(ValueOf(es[i])))
              && (LastOf(kvs, "pattern", i) ==> r.prop.pattern == Some(ValueOf(es[i])))
              && (LastOf(kvs, "default", i) ==> r.prop.default == Some(Coerce(f, ValueOf(es[i]), JsonType(typeText))))
              && (LastOf(kvs, "enum", i) ==> r.prop.enums == Some(Texts(TrimAll(Split(ValueOf(es[i]), ',')))))
              && (LastNumber(f, kvs, "minimum", i) ==> r.prop.minimum == f.parse(ValueOf(es[i])))
              && (LastNumber(f, kvs, "maximum", i) ==> r.prop.maximum == f.parse(ValueOf(es[i])))
  {
    hide ParseLeaf, Filled, LastOf, Lacks, LastNumber, LacksNumber, Coerce, Split, TrimAll, Texts, JsonType, ValueOf,
      Line, Proper, Keyed;
    ParseFills(f, typeText, gaps, es);
    FilledIs(f, JsonType(typeText), Pairs(es));
    var kvs := Pairs(es);
    forall i | 0 <= i < |es|
      ensures kvs[i] == ("required", "true") <==> es[i].key == "required" && ValueOf(es[i]) == "true"
    {
    }
  }

  // ----- what is printed -----

  /** The place of a marker in a printed field. */
  function Place(key: string): nat {
    if key == "required" then 0
    else if key == "enum" then 1
    else if key == "default" then 2
    else if key == "minimum" then 3
    else if key == "maximum" then 4
    else if key == "pattern" then 5
    else if key == "description" then 6
    else 7
  }

  /** Markers of places from `lo` up to `hi`, in order. */
  predicate Placed(ms: seq<Marker>, lo: nat, hi: nat) {
    && (forall m | m in ms :: lo <= Place(m.key) < hi)
    && forall i, j | 0 <= i < j < |ms| :: Place(ms[i].key) < Place(ms[j].key)
  }

  lemma PlacedBoth(a: seq<Marker>, b: seq<Marker>, lo: nat, mid: nat, hi: nat)
    requires lo <= mid <= hi && Placed(a, lo, mid) && Placed(b, mid, hi)
    ensures Placed(a + b, lo, hi)
  {
    hide Place;
    var ms := a + b;
    forall i, j | 0 <= i < j < |ms|
      ensures Place(ms[i].key) < Place(ms[j].key)
    {
      if i < |a| <= j { assert ms[i] in a && ms[j] in b; }
    }
  }

  lemma OnePlaced(ms: seq<Marker>, key: string)
    requires |ms| <= 1 && forall m | m in ms :: m.key == key
    ensures Placed(ms, Place(key), Place(key) + 1)
  {
    hide Place;
  }

  /** A printed field has every marker at most once, in one fixed order: required, enum, default, minimum,
      maximum, pattern, description. */
  lemma PrintedOrder(f: NumberFormat, p: Leaf, required: bool)
    ensures Placed(Markers(f, p, required), 0, 7)
  {
    hide Markers, DefaultMarkers, Placed, Place;
    var m1 := if required then [Marker("required", "true", false)] else [];
    var m2 := if p.enums != [] then [Marker("enum", Join(SpellAll(f, p.enums), ','), true)] else [];
    var m3, m4 := DefaultMarkers(f, p.default), NumberMarkers(f, "minimum", p.minimum);
    var m5, m6 := NumberMarkers(f, "maximum", p.maximum), TextMarkers("pattern", p.pattern);
    var m7 := TextMarkers("description", p.description);
    OnePlaced(m1, "required");
    OnePlaced(m2, "enum");
    DefaultOnce(f, p.default);
    OnePlaced(m3, "default");
    OnePlaced(m4, "minimum");
    OnePlaced(m5, "maximum");
    OnePlaced(m6, "pattern");
    OnePlaced(m7, "description");
    Places();
    PlacedBoth(m1, m2, 0, 1, 2);
    PlacedBoth(m1 + m2, m3, 0, 2, 3);
    PlacedBoth(m1 + m2 + m3, m4, 0, 3, 4);
    PlacedBoth(m1 + m2 + m3 + m4, m5, 0, 4, 5);
    PlacedBoth(m1 + m2 + m3 + m4 + m5, m6, 0, 5, 6);
    PlacedBoth(m1 + m2 + m3 + m4 + m5 + m6, m7, 0, 6, 7);
    MarkersAre(f, p, required);
  }

  lemma DefaultOnce(f: NumberFormat, d: Option<Value>)
    ensures |DefaultMarkers(f, d)| <= 1 && forall m | m in DefaultMarkers(f, d) :: m.key == "default"
  {
  }

  lemma Places()
    ensures Place("required") == 0 && Place("enum") == 1 && Place("default") == 2 && Place("minimum") == 3
    ensures Place("maximum") == 4 && Place("pattern") == 5 && Place("description") == 6
  {
    assert "required"[0] == 'r' && "enum"[0] == 'e' && "default"[..3] == "def" && "minimum"[..2] == "mi";
    assert "maximum"[..2] == "ma" && "pattern"[0] == 'p' && "description"[..3] == "des";
  }

  lemma MarkersAre(f: NumberFormat, p: Leaf, required: bool)
    ensures Markers(f, p, required) ==
            (if required then [Marker("required", "true", false)] else [])
            + (if p.enums != [] then [Marker("enum", Join(SpellAll(f, p.enums), ','), true)] else [])
            + DefaultMarkers(f, p.default) + NumberMarkers(f, "minimum", p.minimum)
            + NumberMarkers(f, "maximum", p.maximum) + TextMarkers("pattern", p.pattern)
            + TextMarkers("description", p.description)
  {
  }

  // ----- a field of the repository's own catalog (kro/stub.go) -----

  /** A marker with a bare value. */
  function Plainly(key: string, value: string): Entry { Entry(key, [Raw(value)]) }

  lemma PlainlyIs(key: string, value: string)
    requires value != "" && Trimmed(value)
    ensures WordSpelling(EntryWord(Plainly(key, value))) == key + "=" + value
    ensures ValueOf(Plainly(key, value)) == value
  {
    hide TrimSpace;
    var w := EntryWord(Plainly(key, value));
    RawWord(value);
    assert w[1..] == [Raw(value)];
    TrimSpaceFixes(value);
  }

  lemma RawWord(t: string)
    ensures WordSpelling([Raw(t)]) == t && Meaning([Raw(t)]) == t
  {
    var w := [Raw(t)];
    assert w[1..] == [] && w[0] == Raw(t);
    assert WordSpelling(w) == t + "" && Meaning(w) == t + "";
    assert t + "" == t;
  }

  lemma ThreeWords(gaps: seq<string>, es: seq<Entry>)
    requires |gaps| == 4 && |es| == 3
    ensures Line(gaps, Words(es)) ==
            gaps[0] + (WordSpelling(EntryWord(es[0])) + (gaps[1] + (WordSpelling(EntryWord(es[1])) +
            (gaps[2] + (WordSpelling(EntryWord(es[2])) + gaps[3])))))
  {
    hide WordSpelling, EntryWord;
    var ws := Words(es);
    var g1, w1, g2, w2, g3, w3 := gaps[1..], ws[1..], gaps[2..], ws[2..], gaps[3..], ws[3..];
    assert g1[1..] == g2 && w1[1..] == w2 && g2[1..] == g3 && w2[1..] == w3 == [];
    assert Line(g2, w2) == g2[0] + (WordSpelling(w2[0]) + Line(g3, w3));
    assert Line(g1, w1) == g1[0] + (WordSpelling(w1[0]) + Line(g2, w2));
  }

  lemma ReplicasFilled(f: NumberFormat)
    ensures ParseLeaf(f, "integer | default=2 | minimum=1 | maximum=10") ==
            Filled(f, Blank(JsonType("integer ")), [("default", "2"), ("minimum", "1"), ("maximum", "10")])
  {
    hide ParseLeaf, WordSpelling, Line, EntryWord, ValueOf, JsonType, Keyed, Proper, Filled, Blank;
    var es := [Plainly("default", "2"), Plainly("minimum", "1"), Plainly("maximum", "10")];
    var gaps := [" ", " | ", " | ", ""];
    PlainlyIs("default", "2");
    PlainlyIs("minimum", "1");
    PlainlyIs("maximum", "10");
    ThreeWords(gaps, es);
    assert "default" + "=" + "2" == "default=2" && "minimum" + "=" + "1" == "minimum=1";
    assert "maximum" + "=" + "10" == "maximum=10";
    assert Line(gaps, Words(es)) == " " + ("default=2" + (" | " + ("minimum=1" + (" | " + ("maximum=10" + "")))));
    ReplicasText();
    ReplicasProper(es, gaps);
    ParseFills(f, "integer ", gaps, es);
    assert Pairs(es) == [("default", "2"), ("minimum", "1"), ("maximum", "10")];
  }

  /** Bars between the markers of a number field. */
  lemma CatalogReplicas(f: NumberFormat)
    requires f.parse("2") == Some(2) && f.parse("1") == Some(1) && f.parse("10") == Some(10)
    ensures var p := ParseLeaf(f, "integer | default=2 | minimum=1 | maximum=10").prop;
            p.typ == "integer" && p.default == Some(Int(2)) && p.minimum == Some(1) && p.maximum == Some(10)
  {
    hide ParseLeaf, Filled, Blank, JsonType, Coerce, LastOf, LastNumber, Lacks, LacksNumber;
    var kvs := [("default", "2"), ("minimum", "1"), ("maximum", "10")];
    ReplicasFilled(f);
    assert "" + "integer" + " " == "integer ";
    TypeSpellings("", "integer", " ");
    FilledIs(f, "integer", kvs);
    ReplicasMarkers(f, kvs);
    CoerceIs(f, "2", "integer");
  }

  lemma ReplicasText()
    ensures "integer " + "|" + (" " + ("default=2" + (" | " + ("minimum=1" + (" | " + ("maximum=10" + "")))))) ==
            "integer | default=2 | minimum=1 | maximum=10"
  {
  }

  predicate Letters(s: string) { s != "" && forall c | c in s :: 'a' <= c <= 'z' || '0' <= c <= '9' }

  lemma PlainlyProper(key: string, value: string)
    requires Letters(key) && Letters(value)
    ensures Keyed(Plainly(key, value))
    ensures var w := EntryWord(Plainly(key, value));
            |w| == 2 && Spellable(w[0]) && Spellable(w[1]) && w[0].Raw? && w[1].Raw?
  {
    assert forall c | c in key + "=" :: c in key || c == '=';
    assert key[0] in key && key[|key| - 1] in key;
  }

  lemma ReplicasProper(es: seq<Entry>, gaps: seq<string>)
    requires es == [Plainly("default", "2"), Plainly("minimum", "1"), Plainly("maximum", "10")]
    requires gaps == [" ", " | ", " | ", ""]
    ensures (forall e | e in es :: Keyed(e)) && Proper(gaps, Words(es))
  {
    PlainlyProper("default", "2");
    PlainlyProper("minimum", "1");
    PlainlyProper("maximum", "10");
    hide Keyed, EntryWord, Spellable, Plainly;
  }

  lemma ReplicasMarkers(f: NumberFormat, kvs: seq<Pair>)
    requires f.parse("2") == Some(2) && f.parse("1") == Some(1) && f.parse("10") == Some(10)
    requires kvs == [("default", "2"), ("minimum", "1"), ("maximum", "10")]
    ensures LastOf(kvs, "default", 0) && LastNumber(f, kvs, "minimum", 1) && LastNumber(f, kvs, "maximum", 2)
  {
    assert "default"[0] == 'd' && "minimum"[..2] == "mi" && "maximum"[..2] == "ma";
  }
}
