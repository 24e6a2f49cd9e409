/** Exactly when a schema survives being printed and parsed back, field by field and for whole nested
    object schemas. */
module SchemaExact {
  import opened Collections
  import opened GoStrings
  import opened MarkerText
  import opened SimpleSchema
  import opened SchemaRoundTrip

  // ----- texts -----

  predicate TextSurvives(s: string) { '"' !in s && Trimmed(s) }

  lemma DowngradeExact(s: string)
    ensures Downgrade(s) == s <==> '"' !in s
  {
    if '"' !in s { assert forall i | 0 <= i < |s| :: s[i] in s; }
  }

  lemma {:induction false} TrimSpacePart(s: string)
    ensures |TrimSpace(s)| == |s| ==> TrimSpace(s) == s
    ensures forall c | c in TrimSpace(s) :: c in s
  {
    hide TrimLeft, TrimRight;
    var l := TrimLeft(s);
    var r := TrimRight(l);
    var skip := |s| - |l|;
    forall c | c in r
      ensures c in s
    {
      var i :| 0 <= i < |r| && r[i] == c;
      assert l[i] == c && s[skip + i] == c;
    }
    if |r| == |s| { assert l == s && r == l; }
  }

  /** A quoted text comes back unchanged exactly when it has no double quote and no outer space. */
  lemma RereadExact(s: string)
    ensures Reread(s) == s <==> TextSurvives(s)
  {
    hide TrimSpace;
    DowngradeExact(s);
    TrimSpacePart(Downgrade(s));
    TrimSpaceFixes(s);
  }

  // ----- enums -----

  lemma {:induction false} JoinChars(parts: seq<string>, sep: char, c: char)
    requires c != sep && forall p | p in parts :: c !in p
    ensures c !in Join(parts, sep)
    decreases |parts|
  {
    if |parts| > 0 { assert parts[0] in parts; }
    if |parts| > 1 {
      assert forall p | p in parts[1..] :: p in parts;
      JoinChars(parts[1..], sep, c);
    }
  }

  lemma {:induction false} JoinTrimmed(parts: seq<string>, sep: char)
    requires !IsSpace(sep) && forall p | p in parts :: Trimmed(p)
    ensures Trimmed(Join(parts, sep))
    decreases |parts|
  {
    if |parts| > 0 { assert parts[0] in parts; }
    if |parts| > 1 {
      assert forall p | p in parts[1..] :: p in parts;
      JoinTrimmed(parts[1..], sep);
    }
  }

  lemma {:induction false} SplitChars(s: string, sep: char)
    ensures forall p, c | p in Split(s, sep) && c in p :: c in s
  {
    if s != "" {
      SplitChars(s[1..], sep);
      var rest := Split(s[1..], sep);
      assert rest[0] in rest && forall p | p in rest[1..] :: p in rest;
    }
  }

  predicate ItemSurvives(e: string) { ',' !in e && TextSurvives(e) }

  /** Only strings come back as what they were. */
  predicate EnumSurvives(v: Value) { v.Text? && ItemSurvives(v.s) }

  lemma ItemsKept(items: seq<string>)
    requires items != [] && forall e | e in items :: ItemSurvives(e)
    ensures TrimAll(Split(Reread(Join(items, ',')), ',')) == items
  {
    hide Split, Join, TrimSpace, Downgrade;
    var text := Join(items, ',');
    JoinChars(items, ',', '"');
    JoinTrimmed(items, ',');
    RereadExact(text);
    SplitJoin(items, ',');
    forall i | 0 <= i < |items|
      ensures TrimSpace(items[i]) == items[i]
    {
      assert ItemSurvives(items[i]);
      TrimSpaceFixes(items[i]);
    }
  }

  lemma RereadItemsSurvive(joined: string)
    ensures forall e | e in TrimAll(Split(Reread(joined), ',')) :: ItemSurvives(e)
  {
    hide Split, TrimSpace;
    var text := Reread(joined);
    var parts := Split(text, ',');
    TrimSpacePart(Downgrade(joined));
    SplitChars(text, ',');
    forall i | 0 <= i < |parts|
      ensures ItemSurvives(TrimSpace(parts[i]))
    {
      assert parts[i] in parts;
      TrimSpacePart(parts[i]);
    }
  }

  /** A list of enum items comes back unchanged exactly when every item is a string without comma,
      double quote or outer space. */
  lemma EnumsExact(f: NumberFormat, enums: seq<Value>)
    requires enums != []
    ensures RereadEnums(f, enums) == enums <==> forall v | v in enums :: EnumSurvives(v)
  {
    hide ItemSurvives, Split, Join, Reread, TrimAll;
    var items := SpellAll(f, enums);
    RereadItemsSurvive(Join(items, ','));
    if forall v | v in enums :: EnumSurvives(v) {
      forall e | e in items
        ensures ItemSurvives(e)
      {
        var i :| 0 <= i < |items| && items[i] == e;
        assert EnumSurvives(enums[i]);
      }
      ItemsKept(items);
      forall i | 0 <= i < |enums|
        ensures Texts(items)[i] == enums[i]
      {
        assert EnumSurvives(enums[i]);
      }
    }
    if RereadEnums(f, enums) == enums {
      forall v | v in enums
        ensures EnumSurvives(v)
      {
        var i :| 0 <= i < |enums| && enums[i] == v;
        assert v == Text(TrimAll(Split(Reread(Join(items, ',')), ','))[i]);
      }
    }
  }

  // ----- defaults -----

  predicate PlainDefault(s: string) {
    TextSurvives(s) && (s == "" || (!IsQuote(s[0]) && !IsQuote(s[|s| - 1])))
  }

  lemma TrimQuotesPart(s: string)
    ensures |TrimQuotes(s)| == |s| ==> TrimQuotes(s) == s
    ensures TrimQuotes(s) == s ==> s == "" || (!IsQuote(s[0]) && !IsQuote(s[|s| - 1]))
  {
    var l := TrimQuotesLeft(s);
    assert l == s[|s| - |l|..];
    var r := TrimQuotesRight(l);
    assert r == l[..|r|];
  }

  lemma DefaultTextExact(s: string)
    ensures TrimQuotes(Reread(s)) == s <==> PlainDefault(s)
  {
    hide TrimQuotes, TrimSpace;
    RereadExact(s);
    TrimQuotesPart(Reread(s));
    TrimSpacePart(Downgrade(s));
    if PlainDefault(s) { TrimQuotesFixes(s); }
    if TrimQuotes(Reread(s)) == s {
      assert |s| <= |Reread(s)| <= |Downgrade(s)| == |s|;
      assert Reread(s) == s;
    }
  }

  predicate Numeric(jsonType: string) { jsonType == "integer" || jsonType == "number" }

  /** A default survives when its type's reading of it is the value itself; null, lists and maps never
      do. */
  predicate DefaultSurvives(f: NumberFormat, jsonType: string, d: Option<Value>) {
    match d
    case None => true
    case Some(Text(s)) => PlainDefault(s) && jsonType != "boolean" && (Numeric(jsonType) ==> f.parse(s) == None)
    case Some(Int(_)) => Numeric(jsonType)
    case Some(Truth(_)) => jsonType == "boolean"
    case _ => false
  }

  lemma DefaultExact(f: NumberFormat, jsonType: string, d: Option<Value>)
    requires Faithful(f)
    ensures RereadDefault(f, jsonType, d) == d <==> DefaultSurvives(f, jsonType, d)
  {
    hide TrimQuotes, TrimSpace, Reread, Faithful;
    match d
    case Some(Text(s)) => DefaultTextExact(s);
    case Some(Int(n)) => DecimalBare(f, n);
    case Some(Truth(b)) => TrimQuotesFixes(if b then "true" else "false");
    case _ =>
  }

  // ----- leaves -----

  /** The leaf as a JSON schema property, nothing lost. */
  function Verbatim(p: Leaf): Prop {
    Prop(TypeName(p.typ), ItemsOf(p.typ),
         if p.enums == [] then None else Some(p.enums),
         p.default, p.minimum, p.maximum,
         if p.pattern == "" then None else Some(p.pattern),
         if p.description == "" then None else Some(p.description))
  }

  ghost predicate LeafSurvives(f: NumberFormat, p: Leaf) {
    && TypeSurvives(p.typ)
    && (forall v | v in p.enums :: EnumSurvives(v))
    && DefaultSurvives(f, JsonTypeOf(KroType(p.typ)), p.default)
    && TextSurvives(p.pattern) && TextSurvives(p.description)
  }

  lemma NormalExact(f: NumberFormat, p: Leaf)
    requires Faithful(f)
    ensures Normal(f, p) == Verbatim(p) <==> LeafSurvives(f, p)
  {
    hide JsonTypeOf, KroType, TypeName, ItemsOf, NameSurvives, RereadEnums, RereadDefault, Reread, TypeSurvives,
      DefaultSurvives, EnumSurvives, TextSurvives;
    TypeRoundTrip(p.typ);
    if p.enums != [] { EnumsExact(f, p.enums); }
    DefaultExact(f, JsonTypeOf(KroType(p.typ)), p.default);
    RereadExact(p.pattern);
    RereadExact(p.description);
    EmptySurvives();
  }

  lemma EmptySurvives()
    ensures TextSurvives("")
  {
  }

  /** A leaf is printed and parsed back to itself, required flag included, if and only if its type is
      expressible and declares no items, its texts are clean, its enum items are clean strings and its
      default reads as its type. */
  lemma LeafExact(f: NumberFormat, p: Leaf, required: bool)
    requires Faithful(f)
    ensures ParseLeaf(f, PrintLeaf(f, p, required)) == Parsed(Verbatim(p), required) <==> LeafSurvives(f, p)
  {
    hide ParseLeaf, PrintLeaf, Normal, Verbatim, LeafSurvives;
    LeafRoundTrip(f, p, required);
    NormalExact(f, p);
  }
}
