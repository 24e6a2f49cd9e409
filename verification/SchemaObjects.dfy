/** Whole object schemas: projected to nested SimpleSchema maps and converted back
    (backend/kro/simpleschema.go, kro/schema.go). */
module SchemaObjects {
  import opened Collections
  import opened GoStrings
  import opened MarkerText
  import opened SimpleSchema
  import opened SchemaRoundTrip
  import opened SchemaExact

  /** A template schema: what it says as a leaf, its properties and which of them are required. */
  datatype Schema = Schema(leaf: Leaf, properties: map<string, Schema>, required: seq<string>)

  /** A property is projected to a nested map when it is an object with fixed properties. */
  predicate IsGroup(s: Schema) {
    (s.leaf.typ.Object? || s.leaf.typ.MapOf?) && s.properties != map[]
  }

  datatype Node = Line(text: string) | Block(children: map<string, Node>)

  function Project(f: NumberFormat, s: Schema): map<string, Node>
    decreases s
  {
    map name | name in s.properties ::
      if IsGroup(s.properties[name]) then Block(Project(f, s.properties[name]))
      else Line(PrintLeaf(f, s.properties[name].leaf, name in s.required))
  }

  /** objectToSimpleSchema: fills the output map property by property, in any order. */
  method ObjectToSimpleSchema(f: NumberFormat, s: Schema) returns (out: map<string, Node>)
    ensures out == Project(f, s)
    ensures out.Keys == s.properties.Keys
    ensures forall name | name in s.properties ::
              var prop := s.properties[name];
              if (prop.leaf.typ.Object? || prop.leaf.typ.MapOf?) && prop.properties != map[] then out[name].Block?
              else out[name] == Line(PrintLeaf(f, prop.leaf, name in s.required))
    decreases s
  {
    hide PrintLeaf;
    var required := set r | r in s.required;
    out := map[];
    var todo := s.properties.Keys;
    ghost var goal := Project(f, s);
    while todo != {}
      invariant todo <= s.properties.Keys && out.Keys == s.properties.Keys - todo
      invariant forall name | name in out :: out[name] == goal[name]
      decreases |todo|
    {
      var name :| name in todo;
      var prop := s.properties[name];
      if IsGroup(prop) {
        var nested := ObjectToSimpleSchema(f, prop);
        out := out[name := Block(nested)];
      } else {
        out := out[name := Line(PrintLeaf(f, prop.leaf, name in required))];
      }
      todo := todo - {name};
    }
    assert out.Keys == goal.Keys;
  }

  /** `note` is what an object says besides its fields; the parser never finds any. */
  datatype JsonSchema =
    | Property(prop: Prop)
    | Properties(fields: map<string, JsonSchema>, required: set<string>, note: Option<Prop>)

  predicate Reserved(name: string) { name == "kind" || name == "apiVersion" || name == "group" }

  function ConvertNode(f: NumberFormat, n: Node): JsonSchema
    decreases n
  {
    match n
    case Line(text) => Property(ParseLeaf(f, text).prop)
    case Block(body) =>
      Properties(
        map name | name in body && !Reserved(name) :: ConvertNode(f, body[name]),
        (set name | name in body && !Reserved(name) && body[name].Line? && ParseLeaf(f, body[name].text).required),
        None)
  }

  lemma LineIs(f: NumberFormat, text: string)
    ensures ConvertNode(f, Line(text)) == Property(ParseLeaf(f, text).prop)
  {
  }

  lemma BlockIs(f: NumberFormat, body: map<string, Node>)
    ensures var r := ConvertNode(f, Block(body));
            && r.Properties? && r.note == None
            && r.fields.Keys == (set name | name in body && !Reserved(name))
            && (forall name | name in r.fields :: r.fields[name] == ConvertNode(f, body[name]))
            && (forall name :: name in r.required <==>
                  name in body && !Reserved(name) && body[name].Line? && ParseLeaf(f, body[name].text).required)
  {
    hide ParseLeaf;
  }

  lemma LinesAre(f: NumberFormat, body: map<string, Node>)
    ensures forall name | name in body && body[name].Line? ::
              ConvertNode(f, body[name]) == Property(ParseLeaf(f, body[name].text).prop)
  {
    hide ParseLeaf;
  }

  /** ConvertSimpleSchema: reserved names are skipped, nested maps recurse. */
  method ConvertSimpleSchema(f: NumberFormat, body: map<string, Node>) returns (r: JsonSchema)
    ensures r == ConvertNode(f, Block(body))
    ensures r.Properties?
    ensures forall name :: name in r.fields <==> name in body && name !in {"kind", "apiVersion", "group"}
    ensures forall name | name in r.fields && body[name].Line? ::
              && r.fields[name] == Property(ParseLeaf(f, body[name].text).prop)
              && (name in r.required <==> ParseLeaf(f, body[name].text).required)
    ensures forall name | name in r.required :: name in r.fields && body[name].Line?
    decreases Block(body)
  {
    hide ParseLeaf, ConvertNode;
    var properties: map<string, JsonSchema> := map[];
    var required: set<string> := {};
    var todo := body.Keys;
    BlockIs(f, body);
    LinesAre(f, body);
    ghost var goal := ConvertNode(f, Block(body));
    while todo != {}
      invariant todo <= body.Keys
      invariant properties.Keys == set name | name in body.Keys - todo && !Reserved(name)
      invariant forall name | name in properties :: properties[name] == goal.fields[name]
      invariant forall name :: name in required <==> name in goal.required && name !in todo
      decreases |todo|
    {
      var name :| name in todo;
      todo := todo - {name};
      if Reserved(name) { continue; }
      match body[name] {
        case Block(children) =>
          var nested := ConvertSimpleSchema(f, children);
          properties := properties[name := nested];
        case Line(text) =>
          var parsed := ParseSimpleSchemaLeaf(f, text);
          LineIs(f, text);
          properties := properties[name := Property(parsed.prop)];
          if parsed.required { required := required + {name}; }
      }
    }
    assert properties == goal.fields;
    r := Properties(properties, required, None);
  }

  // ----- the round trip -----

  /** What a schema comes back as: reserved names dropped, leaves in normal form, required leaves. */
  function NormalSchema(f: NumberFormat, s: Schema): JsonSchema
    decreases s
  {
    Properties(
      map name | name in s.properties && !Reserved(name) ::
        if IsGroup(s.properties[name]) then NormalSchema(f, s.properties[name])
        else Property(Normal(f, s.properties[name].leaf)),
      (set name | name in s.properties && !Reserved(name) && !IsGroup(s.properties[name]) && name in s.required),
      None)
  }

  /** Every object schema, printed and parsed back, is its normal form. */
  lemma {:induction false} SchemaRoundTrips(f: NumberFormat, s: Schema)
    requires Faithful(f)
    ensures ConvertNode(f, Block(Project(f, s))) == NormalSchema(f, s)
    decreases s
  {
    hide ParseLeaf, PrintLeaf, Normal, Faithful, ConvertNode;
    var body := Project(f, s);
    BlockIs(f, body);
    forall name | name in s.properties
      ensures !IsGroup(s.properties[name]) ==>
                body[name].Line? && ConvertNode(f, body[name]) == Property(Normal(f, s.properties[name].leaf)) &&
                ParseLeaf(f, body[name].text) == Parsed(Normal(f, s.properties[name].leaf), name in s.required)
      ensures IsGroup(s.properties[name]) ==>
                body[name].Block? && ConvertNode(f, body[name]) == NormalSchema(f, s.properties[name])
    {
      var prop := s.properties[name];
      if IsGroup(prop) {
        SchemaRoundTrips(f, prop);
      } else {
        LeafRoundTrip(f, prop.leaf, name in s.required);
        LineIs(f, body[name].text);
      }
    }
    var r, n := ConvertNode(f, Block(body)), NormalSchema(f, s);
    assert r.fields == n.fields;
    assert r.required == n.required;
  }

  /** An object that says nothing but its fields. */
  predicate Silent(p: Leaf) {
    p == Leaf(Object, [], None, None, None, "", "")
  }

  /** The schema declares fields or requires some. A property that does so need not be a group: its type
      may be another one, or it may only require fields; then it is printed without them. */
  predicate HasBody(s: Schema) {
    s.properties != map[] || s.required != []
  }

  /** The schema as a JSON schema, nothing lost. */
  function VerbatimSchema(s: Schema): (r: JsonSchema)
    ensures r.Properties?
    decreases s
  {
    Properties(
      map name | name in s.properties ::
        if HasBody(s.properties[name]) then VerbatimSchema(s.properties[name])
        else Property(Verbatim(s.properties[name].leaf)),
      (set name | name in s.required),
      if Silent(s.leaf) then None else Some(Verbatim(s.leaf)))
  }

  ghost predicate SchemaSurvives(f: NumberFormat, s: Schema)
    decreases s
  {
    && Silent(s.leaf)
    && (forall name | name in s.required :: name in s.properties)
    && (forall name | name in s.properties ::
          && !Reserved(name)
          && (if IsGroup(s.properties[name]) then
                name !in s.required && SchemaSurvives(f, s.properties[name])
              else !HasBody(s.properties[name]) && LeafSurvives(f, s.properties[name].leaf)))
  }

  lemma GroupHasBody(s: Schema)
    ensures IsGroup(s) ==> HasBody(s)
  {
  }

  lemma {:induction false} NormalSchemaExact(f: NumberFormat, s: Schema)
    requires Faithful(f)
    ensures NormalSchema(f, s) == VerbatimSchema(s) <==> SchemaSurvives(f, s)
    decreases s
  {
    hide Normal, Verbatim, LeafSurvives, Faithful, IsGroup, HasBody;
    var n, v := NormalSchema(f, s), VerbatimSchema(s);
    forall name | name in s.properties
      ensures IsGroup(s.properties[name]) ==>
                HasBody(s.properties[name]) &&
                (NormalSchema(f, s.properties[name]) == VerbatimSchema(s.properties[name]) <==>
                 SchemaSurvives(f, s.properties[name]))
      ensures !IsGroup(s.properties[name]) ==>
                (Normal(f, s.properties[name].leaf) == Verbatim(s.properties[name].leaf) <==>
                 LeafSurvives(f, s.properties[name].leaf))
    {
      GroupHasBody(s.properties[name]);
      if IsGroup(s.properties[name]) {
        NormalSchemaExact(f, s.properties[name]);
      } else {
        NormalExact(f, s.properties[name].leaf);
      }
    }
    hide Silent;
    if SchemaSurvives(f, s) {
      assert n.fields == v.fields;
      assert n.required == v.required;
    }
    if n == v {
      forall name | name in s.required
        ensures name in s.properties
      {
        assert name in v.required && name in n.required;
      }
      forall name | name in s.properties
        ensures !Reserved(name)
        ensures IsGroup(s.properties[name]) ==> name !in s.required && SchemaSurvives(f, s.properties[name])
        ensures !IsGroup(s.properties[name]) ==>
                  !HasBody(s.properties[name]) && LeafSurvives(f, s.properties[name].leaf)
      {
        assert name in v.fields && n.fields[name] == v.fields[name];
        assert name in n.required <==> name in v.required;
      }
    }
  }

  /** Printing an object schema and parsing it back returns the same schema if and only if no field has a
      reserved name, every leaf survives and declares no fields of its own, only declared leaves are
      required, and objects say nothing but their fields. */
  lemma SchemaExactly(f: NumberFormat, s: Schema)
    requires Faithful(f)
    ensures ConvertNode(f, Block(Project(f, s))) == VerbatimSchema(s) <==> SchemaSurvives(f, s)
  {
    hide Project, ConvertNode, NormalSchema, VerbatimSchema, SchemaSurvives, Faithful;
    SchemaRoundTrips(f, s);
    NormalSchemaExact(f, s);
  }
}
