/** Leaf fields of a template schema: printed as SimpleSchema strings (backend/kro/simpleschema.go)
    and parsed back to JSON schema properties (kro/schema.go). Numbers are integers; their text form
    is a parameter. */
module SimpleSchema {
  import opened Collections
  import opened GoStrings
  import opened MarkerText

  // ----- types -----

  /** An array may declare an item type; `Other` is any type name not listed. */
  datatype Type =
    | Str | Integer | Number | Boolean | Object
    | Array(items: Option<Type>)
    | MapOf(values: Type)
    | Other(name: string)

  /** openAPIToKROType */
  function KroType(t: Type): string {
    match t
    case Str => "string"
    case Integer => "integer"
    case Number => "number"
    case Boolean => "boolean"
    case Object => "object"
    case Array(e) => "[]" + (if e.Some? then KroType(e.value) else "string")
    case MapOf(e) => "map[string]" + KroType(e)
    case Other(_) => "string"
  }

  /** simpleSchemaToJSONType, on trimmed text. */
  function JsonTypeOf(t: string): string {
    if t in ["integer", "int", "int32", "int64"] then "integer"
    else if t in ["number", "float", "double"] then "number"
    else if t in ["boolean", "bool"] then "boolean"
    else if t in ["object", "map"] then "object"
    else if t in ["array", "[]string", "[]integer", "[]any"] then "array"
    else "string"
  }

  function JsonType(text: string): string {
    JsonTypeOf(TrimSpace(text))
  }

  /** The type's own name. */
  function TypeName(t: Type): string {
    match t
    case Str => "string"
    case Integer => "integer"
    case Number => "number"
    case Boolean => "boolean"
    case Object => "object"
    case Array(_) => "array"
    case MapOf(_) => "object"
    case Other(name) => name
  }

  /** The item type of an array, where declared. */
  function ItemsOf(t: Type): Option<Type> {
    if t.Array? then t.items else None
  }

  predicate NameSurvives(t: Type) {
    match t
    case Array(e) => e.None? || e.value.Str? || e.value.Integer? || e.value.Other?
    case MapOf(_) => false
    case Other(name) => name == "string"
    case _ => true
  }

  /** What is read back never has an item type, so an array survives only without one. */
  predicate TypeSurvives(t: Type) {
    NameSurvives(t) && ItemsOf(t) == None
  }

  lemma KroTypeShape(t: Type)
    ensures KroType(t) != "" && Trimmed(KroType(t)) && '|' !in KroType(t)
    ensures KroType(t) != "any"
    ensures KroType(t) == "string" <==> t.Str? || t.Other?
    ensures KroType(t) == "integer" <==> t.Integer?
  {
  }

  /** The name of a type is read back exactly when it is a scalar, a plain object, or an array of strings
      or integers, and the whole type when it declares no items either: maps and other arrays come back
      as strings, and item types are lost. */
  lemma TypeRoundTrip(t: Type)
    ensures JsonTypeOf(KroType(t)) == TypeName(t) <==> NameSurvives(t)
    ensures JsonTypeOf(KroType(t)) == TypeName(t) && None == ItemsOf(t) <==> TypeSurvives(t)
  {
    match t
    case Array(e) =>
      ArrayText(if e.Some? then KroType(e.value) else "string");
      if e.Some? { KroTypeShape(e.value); }
    case MapOf(e) =>
      MapText(KroType(e));
    case _ =>
  }

  lemma ArrayText(e: string)
    ensures JsonTypeOf("[]" + e) == if e in ["string", "integer", "any"] then "array" else "string"
  {
    var t := "[]" + e;
    assert t[0] == '[' && t[2..] == e;
    var literals := ["[]string", "[]integer", "[]any"];
    assert literals[0][2..] == "string" && literals[1][2..] == "integer" && literals[2][2..] == "any";
    assert literals[0] == "[]" + "string" && literals[1] == "[]" + "integer" && literals[2] == "[]" + "any";
  }

  lemma MapText(e: string)
    ensures JsonTypeOf("map[string]" + e) == "string"
  {
    var t := "map[string]" + e;
    assert t[0] == 'm' && |t| >= 11;
  }

  // ----- numbers -----

  /** Integers are printed as decimals in defaults and in the general float form elsewhere. */
  datatype NumberFormat = NumberFormat(decimal: int -> string, general: int -> string, parse: string -> Option<int>)

  predicate NumeralChar(c: char) {
    '0' <= c <= '9' || c == '-' || c == '+' || c == '.' || c == 'e'
  }

  predicate Numeral(s: string) {
    s != "" && forall c | c in s :: NumeralChar(c)
  }

  /** Parsing undoes either way of printing. */
  ghost predicate Faithful(f: NumberFormat) {
    forall n ::
      && f.parse(f.decimal(n)) == Some(n) && Numeral(f.decimal(n))
      && f.parse(f.general(n)) == Some(n) && Numeral(f.general(n))
  }

  // ----- leaves -----

  /** A JSON value as far as printing tells values apart; lists and objects by their printed form. */
  datatype Value =
    | Text(s: string)
    | Int(n: int)
    | Truth(b: bool)
    | Null
    | List(printed: string)
    | Map(printed: string, empty: bool)

  datatype Leaf = Leaf(
    typ: Type, enums: seq<Value>, default: Option<Value>, minimum: Option<int>, maximum: Option<int>,
    pattern: string, description: string)

  datatype Prop = Prop(
    typ: string, items: Option<Type>, enums: Option<seq<Value>>, default: Option<Value>,
    minimum: Option<int>, maximum: Option<int>, pattern: Option<string>, description: Option<string>)

  // ----- printing -----

  /** fmt's %v of an enum item. */
  function Spell(f: NumberFormat, v: Value): string {
    match v
    case Text(s) => s
    case Int(n) => f.general(n)
    case Truth(b) => if b then "true" else "false"
    case Null => "<nil>"
    case List(printed) => printed
    case Map(printed, _) => printed
  }

  function SpellAll(f: NumberFormat, vs: seq<Value>): (r: seq<string>)
    ensures |r| == |vs| && forall i | 0 <= i < |vs| :: r[i] == Spell(f, vs[i])
  {
    seq(|vs|, i requires 0 <= i < |vs| => Spell(f, vs[i]))
  }

  /** Strings and lists are quoted, numbers and booleans bare; a null default is none, and of the maps
      only the empty one has a marker. */
  function DefaultMarkers(f: NumberFormat, d: Option<Value>): seq<Marker> {
    match d
    case None => []
    case Some(Text(s)) => [Marker("default", s, true)]
    case Some(Int(n)) => [Marker("default", f.decimal(n), false)]
    case Some(Truth(b)) => [Marker("default", if b then "true" else "false", false)]
    case Some(Null) => []
    case Some(List(printed)) => [Marker("default", printed, true)]
    case Some(Map(_, empty)) => if empty then [Marker("default", "{}", false)] else []
  }

  function NumberMarkers(f: NumberFormat, key: string, n: Option<int>): seq<Marker> {
    if n.Some? then [Marker(key, f.general(n.value), false)] else []
  }

  function TextMarkers(key: string, s: string): seq<Marker> {
    if s != "" then [Marker(key, s, true)] else []
  }

  /** The markers of a leaf, in their fixed order. */
  function Markers(f: NumberFormat, p: Leaf, required: bool): seq<Marker> {
    (if required then [Marker("required", "true", false)] else [])
    + (if p.enums != [] then [Marker("enum", Join(SpellAll(f, p.enums), ','), true)] else [])
    + DefaultMarkers(f, p.default)
    + NumberMarkers(f, "minimum", p.minimum)
    + NumberMarkers(f, "maximum", p.maximum)
    + TextMarkers("pattern", p.pattern)
    + TextMarkers("description", p.description)
  }

  /** leafToSimpleSchema */
  function PrintLeaf(f: NumberFormat, p: Leaf, required: bool): string {
    var ms := Markers(f, p, required);
    if ms == [] then KroType(p.typ) else KroType(p.typ) + " | " + Join(ShowAll(ms), ' ')
  }

  // ----- parsing -----

  /** strings.Cut at the first bar. */
  function CutBar(s: string): (string, string) {
    if s == "" then ("", "")
    else if s[0] == '|' then ("", s[1..])
    else var r := CutBar(s[1..]); ([s[0]] + r.0, r.1)
  }

  function TrimQuotesLeft(s: string): (r: string)
    ensures |r| <= |s| && r == s[|s| - |r|..]
  {
    if s != "" && IsQuote(s[0]) then TrimQuotesLeft(s[1..]) else s
  }

  function TrimQuotesRight(s: string): (r: string)
    ensures |r| <= |s| && r == s[..|r|]
  {
    if s != "" && IsQuote(s[|s| - 1]) then TrimQuotesRight(s[..|s| - 1]) else s
  }

  /** strings.Trim of quote characters. */
  function TrimQuotes(s: string): (r: string)
    ensures |r| <= |s|
  {
    TrimQuotesRight(TrimQuotesLeft(s))
  }

  /** coerceTo */
  function Coerce(f: NumberFormat, s: string, jsonType: string): Value {
    var t := TrimQuotes(s);
    if jsonType == "integer" || jsonType == "number" then
      if f.parse(t).Some? then Int(f.parse(t).value) else Text(t)
    else if jsonType == "boolean" then Truth(t == "true")
    else Text(t)
  }

  /** A parsed field and whether it is required. */
  datatype Parsed = Parsed(prop: Prop, required: bool)

  /** One marker of the parse loop. */
  function Apply(f: NumberFormat, acc: Parsed, k: string, v: string): Parsed {
    var p := acc.prop;
    if k == "required" then (if v == "true" then Parsed(p, true) else acc)
    else if k == "default" then Parsed(p.(default := Some(Coerce(f, v, p.typ))), acc.required)
    else if k == "description" then Parsed(p.(description := Some(v)), acc.required)
    else if k == "enum" then Parsed(p.(enums := Some(Texts(TrimAll(Split(v, ','))))), acc.required)
    else if k == "minimum" then (if f.parse(v).Some? then Parsed(p.(minimum := f.parse(v)), acc.required) else acc)
    else if k == "maximum" then (if f.parse(v).Some? then Parsed(p.(maximum := f.parse(v)), acc.required) else acc)
    else if k == "pattern" then Parsed(p.(pattern := Some(v)), acc.required)
    else acc
  }

  function Texts(parts: seq<string>): (r: seq<Value>)
    ensures |r| == |parts| && forall i | 0 <= i < |parts| :: r[i] == Text(parts[i])
  {
    seq(|parts|, i requires 0 <= i < |parts| => Text(parts[i]))
  }

  function ApplyToken(f: NumberFormat, acc: Parsed, token: string): Parsed {
    var kv := SplitKV(token);
    if kv.None? then acc else Apply(f, acc, kv.value.0, kv.value.1)
  }

  function ApplyTokens(f: NumberFormat, acc: Parsed, tokens: seq<string>): Parsed
    decreases |tokens|
  {
    if tokens == [] then acc
    else ApplyToken(f, ApplyTokens(f, acc, tokens[..|tokens| - 1]), tokens[|tokens| - 1])
  }

  function Blank(jsonType: string): Parsed {
    Parsed(Prop(jsonType, None, None, None, None, None, None, None), false)
  }

  function ParseLeaf(f: NumberFormat, spec: string): Parsed {
    var cut := CutBar(spec);
    ApplyTokens(f, Blank(JsonType(cut.0)), Scan(cut.1, "", None))
  }

  /** parseSimpleSchemaLeaf: cut, tokenize, then fill in the property marker by marker. */
  method ParseSimpleSchemaLeaf(f: NumberFormat, spec: string) returns (r: Parsed)
    ensures r == ParseLeaf(f, spec)
  {
    hide Scan, JsonType, Apply, SplitKV;
    var cut := CutBar(spec);
    r := Blank(JsonType(cut.0));
    var tokens := TokenizeMarkers(cut.1);
    for i := 0 to |tokens|
      invariant r == ApplyTokens(f, Blank(JsonType(cut.0)), tokens[..i])
    {
      assert tokens[..i + 1][..i] == tokens[..i];
      var kv := SplitKV(tokens[i]);
      if kv.Some? { r := Apply(f, r, kv.value.0, kv.value.1); }
    }
    assert tokens[..|tokens|] == tokens;
  }

  // ----- the round trip -----

  lemma {:induction false} CutAt(a: string, b: string)
    requires '|' !in a
    ensures CutBar(a + "|" + b) == (a, b)
    decreases |a|
  {
    var s := a + "|" + b;
    if a == "" {
      assert s[0] == '|' && s[1..] == b;
    } else {
      assert s[0] == a[0] && s[1..] == a[1..] + "|" + b && a[0] in a;
      CutAt(a[1..], b);
      assert [a[0]] + a[1..] == a;
    }
  }

  lemma {:induction false} CutNone(a: string)
    requires '|' !in a
    ensures CutBar(a) == (a, "")
  {
    if a != "" {
      assert a[0] in a && [a[0]] + a[1..] == a;
      CutNone(a[1..]);
    }
  }

  /** The fold over markers that were printed and read back. */
  function Fold(f: NumberFormat, acc: Parsed, ms: seq<Marker>): Parsed
    decreases |ms|
  {
    if ms == [] then acc
    else Apply(f, Fold(f, acc, ms[..|ms| - 1]), ms[|ms| - 1].key, TrimSpace(MarkerText.Text(ms[|ms| - 1])))
  }

  lemma {:induction false} FoldAppend(f: NumberFormat, acc: Parsed, a: seq<Marker>, b: seq<Marker>)
    ensures Fold(f, acc, a + b) == Fold(f, Fold(f, acc, a), b)
    decreases |b|
  {
    hide Apply, TrimSpace;
    if b == [] {
      assert a + b == a;
    } else {
      assert (a + b)[..|a + b| - 1] == a + b[..|b| - 1];
      FoldAppend(f, acc, a, b[..|b| - 1]);
    }
  }

  lemma {:induction false} TokensFold(f: NumberFormat, acc: Parsed, ms: seq<Marker>)
    requires forall m | m in ms :: Printable(m)
    ensures ApplyTokens(f, acc, Tokens(ms)) == Fold(f, acc, ms)
    decreases |ms|
  {
    hide Apply, TrimSpace, SplitKV, Plain;
    if ms != [] {
      var front, last := ms[..|ms| - 1], ms[|ms| - 1];
      var tokens := Tokens(ms);
      assert forall m | m in front :: m in ms;
      TokensFold(f, acc, front);
      assert tokens[..|ms| - 1] == Tokens(front);
      assert last in ms;
      MarkerRead(last);
    }
  }

  /** Parsing a printed field folds its markers into a blank property of its type. */
  lemma ParsePrinted(f: NumberFormat, p: Leaf, required: bool)
    requires forall m | m in Markers(f, p, required) :: Printable(m)
    ensures ParseLeaf(f, PrintLeaf(f, p, required)) ==
            Fold(f, Blank(JsonTypeOf(KroType(p.typ))), Markers(f, p, required))
  {
    hide Scan, Apply, TrimSpace, SplitKV, Plain, Printable, Markers, JsonTypeOf;
    var t, ms := KroType(p.typ), Markers(f, p, required);
    KroTypeShape(p.typ);
    TrimSpaceFixes(t);
    if ms == [] {
      CutNone(t);
      ScanNothing();
    } else {
      var text := Join(ShowAll(ms), ' ');
      assert t + " | " + text == t + " " + "|" + (" " + text);
      CutAt(t + " ", " " + text);
      TypeTrims(t);
      ScanBreak("", text);
      FlushNothing();
      assert [] + Scan(text, "", None) == Scan(text, "", None);
      ScanAll(ms);
      TokensFold(f, Blank(JsonTypeOf(t)), ms);
    }
  }

  lemma ScanNothing()
    ensures Scan("", "", None) == []
  {
  }

  lemma FlushNothing()
    ensures Flush("") == []
  {
  }

  lemma TypeTrims(t: string)
    requires t != "" && Trimmed(t)
    ensures TrimSpace(t + " ") == t
  {
    var s := t + " ";
    TrimLeftFixes(s);
    assert s[|s| - 1] == ' ' && s[..|s| - 1] == t;
    TrimRightFixes(t);
    RightStep(s);
  }
}
