/** Printing a leaf field and parsing it back: what comes back, for every leaf, and exactly when that
    is the leaf itself. */
module SchemaRoundTrip {
  import opened Collections
  import opened GoStrings
  import opened MarkerText
  import opened SimpleSchema

  /** A quoted text as it is read back. */
  function Reread(s: string): string { TrimSpace(Downgrade(s)) }

  function RereadEnums(f: NumberFormat, enums: seq<Value>): seq<Value> {
    Texts(TrimAll(Split(Reread(Join(SpellAll(f, enums), ',')), ',')))
  }

  function RereadDefault(f: NumberFormat, jsonType: string, d: Option<Value>): Option<Value> {
    match d
    case None => None
    case Some(Text(s)) => Some(Coerce(f, Reread(s), jsonType))
    case Some(Int(n)) => Some(Coerce(f, f.decimal(n), jsonType))
    case Some(Truth(b)) => Some(Coerce(f, if b then "true" else "false", jsonType))
    case Some(Null) => None
    case Some(List(printed)) => Some(Coerce(f, Reread(printed), jsonType))
    case Some(Map(_, empty)) => if empty then Some(Coerce(f, "{}", jsonType)) else None
  }

  /** What a leaf comes back as. */
  function Normal(f: NumberFormat, p: Leaf): Prop {
    var jsonType := JsonTypeOf(KroType(p.typ));
    Prop(jsonType,
         None,
         if p.enums == [] then None else Some(RereadEnums(f, p.enums)),
         RereadDefault(f, jsonType, p.default),
         p.minimum, p.maximum,
         if p.pattern == "" then None else Some(Reread(p.pattern)),
         if p.description == "" then None else Some(Reread(p.description)))
  }

  // ----- printability -----

  predicate KnownKey(k: string) {
    k in ["required", "enum", "default", "minimum", "maximum", "pattern", "description"]
  }

  lemma KeyPrintable(k: string)
    requires KnownKey(k)
    ensures k != "" && Trimmed(k) && '=' !in k && forall c | c in k :: Bare(c)
  {
    assert forall c | c in k :: 'a' <= c <= 'z';
  }

  lemma NumeralBare(s: string)
    requires Numeral(s)
    ensures forall c | c in s :: Bare(c)
    ensures TrimSpace(s) == s && TrimQuotes(s) == s
  {
    hide TrimSpace, TrimQuotes;
    assert s[0] in s && s[|s| - 1] in s;
    TrimSpaceFixes(s);
    TrimQuotesFixes(s);
  }

  lemma TrimQuotesFixes(s: string)
    requires s == "" || (!IsQuote(s[0]) && !IsQuote(s[|s| - 1]))
    ensures TrimQuotes(s) == s
  {
    if s != "" {
      assert TrimQuotesLeft(s) == s && TrimQuotesRight(s) == s;
    }
  }

  lemma PieceDefaultPrintable(f: NumberFormat, d: Option<Value>)
    requires Faithful(f)
    ensures forall m | m in DefaultMarkers(f, d) :: Printable(m)
  {
    hide Faithful, TrimSpace, TrimQuotes;
    KeyPrintable("default");
    if d.Some? && d.value.Int? { DecimalBare(f, d.value.n); }
  }

  lemma PieceNumberPrintable(f: NumberFormat, key: string, n: Option<int>)
    requires Faithful(f) && KnownKey(key)
    ensures forall m | m in NumberMarkers(f, key, n) :: Printable(m)
  {
    hide Faithful, TrimSpace, TrimQuotes, KnownKey;
    KeyPrintable(key);
    if n.Some? { GeneralBare(f, n.value); }
  }

  lemma PieceTextPrintable(key: string, s: string)
    requires KnownKey(key)
    ensures forall m | m in TextMarkers(key, s) :: Printable(m)
  {
    KeyPrintable(key);
  }

  lemma MarkersPrintable(f: NumberFormat, p: Leaf, required: bool)
    requires Faithful(f)
    ensures forall m | m in Markers(f, p, required) :: Printable(m)
  {
    hide DefaultMarkers, NumberMarkers, TextMarkers, Printable, KnownKey;
    KeysKnown();
    RequiredPrintable();
    EnumPrintable(Join(SpellAll(f, p.enums), ','));
    PieceDefaultPrintable(f, p.default);
    PieceNumberPrintable(f, "minimum", p.minimum);
    PieceNumberPrintable(f, "maximum", p.maximum);
    PieceTextPrintable("pattern", p.pattern);
    PieceTextPrintable("description", p.description);
  }

  lemma KeysKnown()
    ensures KnownKey("minimum") && KnownKey("maximum") && KnownKey("pattern") && KnownKey("description")
  {
  }

  lemma RequiredPrintable()
    ensures Printable(Marker("required", "true", false))
  {
    KeyPrintable("required");
  }

  lemma EnumPrintable(text: string)
    ensures Printable(Marker("enum", text, true))
  {
    KeyPrintable("enum");
  }

  // ----- folding, marker group by marker group -----

  lemma FoldNone(f: NumberFormat, acc: Parsed)
    ensures Fold(f, acc, []) == acc
  {
  }

  lemma FoldOne(f: NumberFormat, acc: Parsed, m: Marker)
    ensures Fold(f, acc, [m]) == Apply(f, acc, m.key, TrimSpace(MarkerText.Text(m)))
  {
    assert [m][..0] == [];
    assert Fold(f, acc, [m][..0]) == acc;
  }

  lemma FoldRequired(f: NumberFormat, acc: Parsed, required: bool)
    requires !acc.required
    ensures Fold(f, acc, if required then [Marker("required", "true", false)] else []) == Parsed(acc.prop, required)
  {
    hide TrimSpace, Split, Coerce, Fold;
    FoldNone(f, acc);
    if required {
      FoldOne(f, acc, Marker("required", "true", false));
      TrimSpaceFixes("true");
    }
  }

  lemma FoldEnum(f: NumberFormat, acc: Parsed, enums: seq<Value>)
    requires acc.prop.enums == None
    ensures Fold(f, acc, if enums != [] then [Marker("enum", Join(SpellAll(f, enums), ','), true)] else []) ==
            Parsed(acc.prop.(enums := if enums == [] then None else Some(RereadEnums(f, enums))), acc.required)
  {
    hide Join, Split, TrimSpace, Downgrade, Coerce, Fold;
    FoldNone(f, acc);
    if enums != [] {
      FoldOne(f, acc, Marker("enum", Join(SpellAll(f, enums), ','), true));
    }
  }

  lemma FoldDefault(f: NumberFormat, acc: Parsed, d: Option<Value>)
    requires Faithful(f) && acc.prop.default == None
    ensures Fold(f, acc, DefaultMarkers(f, d)) ==
            Parsed(acc.prop.(default := RereadDefault(f, acc.prop.typ, d)), acc.required)
  {
    hide Coerce, TrimSpace, TrimQuotes, Faithful, Split, Downgrade, Fold;
    FoldNone(f, acc);
    match d
    case None =>
    case Some(Text(s)) => FoldOne(f, acc, Marker("default", s, true));
    case Some(Int(n)) =>
      FoldOne(f, acc, Marker("default", f.decimal(n), false));
      DecimalBare(f, n);
    case Some(Truth(b)) =>
      FoldOne(f, acc, Marker("default", if b then "true" else "false", false));
      TrimSpaceFixes(if b then "true" else "false");
    case Some(Null) =>
    case Some(List(printed)) => FoldOne(f, acc, Marker("default", printed, true));
    case Some(Map(_, empty)) =>
      if empty { FoldOne(f, acc, Marker("default", "{}", false)); }
      TrimSpaceFixes("{}");
  }

  lemma DecimalBare(f: NumberFormat, n: int)
    requires Faithful(f)
    ensures TrimSpace(f.decimal(n)) == f.decimal(n) && TrimQuotes(f.decimal(n)) == f.decimal(n)
    ensures f.parse(f.decimal(n)) == Some(n) && forall c | c in f.decimal(n) :: Bare(c)
  {
    hide TrimSpace, TrimQuotes;
    NumeralBare(f.decimal(n));
  }

  lemma GeneralBare(f: NumberFormat, n: int)
    requires Faithful(f)
    ensures TrimSpace(f.general(n)) == f.general(n) && f.parse(f.general(n)) == Some(n)
    ensures forall c | c in f.general(n) :: Bare(c)
  {
    hide TrimSpace;
    NumeralBare(f.general(n));
  }

  lemma FoldMinimum(f: NumberFormat, acc: Parsed, n: Option<int>)
    requires Faithful(f) && acc.prop.minimum == None
    ensures Fold(f, acc, NumberMarkers(f, "minimum", n)) == Parsed(acc.prop.(minimum := n), acc.required)
  {
    hide TrimSpace, TrimQuotes, Faithful, Coerce, Split, Downgrade, Fold;
    FoldNone(f, acc);
    if n.Some? {
      FoldOne(f, acc, Marker("minimum", f.general(n.value), false));
      GeneralBare(f, n.value);
    }
  }

  lemma FoldMaximum(f: NumberFormat, acc: Parsed, n: Option<int>)
    requires Faithful(f) && acc.prop.maximum == None
    ensures Fold(f, acc, NumberMarkers(f, "maximum", n)) == Parsed(acc.prop.(maximum := n), acc.required)
  {
    hide TrimSpace, TrimQuotes, Faithful, Coerce, Split, Downgrade, Fold;
    FoldNone(f, acc);
    if n.Some? {
      FoldOne(f, acc, Marker("maximum", f.general(n.value), false));
      GeneralBare(f, n.value);
    }
  }

  lemma FoldPattern(f: NumberFormat, acc: Parsed, s: string)
    requires acc.prop.pattern == None
    ensures Fold(f, acc, TextMarkers("pattern", s)) ==
            Parsed(acc.prop.(pattern := if s == "" then None else Some(Reread(s))), acc.required)
  {
    hide TrimSpace, TrimQuotes, Faithful, Coerce, Split, Downgrade, Fold;
    FoldNone(f, acc);
    if s != "" { FoldOne(f, acc, Marker("pattern", s, true)); }
  }

  lemma FoldDescription(f: NumberFormat, acc: Parsed, s: string)
    requires acc.prop.description == None
    ensures Fold(f, acc, TextMarkers("description", s)) ==
            Parsed(acc.prop.(description := if s == "" then None else Some(Reread(s))), acc.required)
  {
    hide TrimSpace, TrimQuotes, Faithful, Coerce, Split, Downgrade, Fold;
    FoldNone(f, acc);
    if s != "" { FoldOne(f, acc, Marker("description", s, true)); }
  }

  /** Every printed leaf parses, to its normal form, with its required flag. */
  lemma LeafRoundTrip(f: NumberFormat, p: Leaf, required: bool)
    requires Faithful(f)
    ensures ParseLeaf(f, PrintLeaf(f, p, required)) == Parsed(Normal(f, p), required)
  {
    hide ParseLeaf, PrintLeaf, Fold, Apply, DefaultMarkers, NumberMarkers, TextMarkers, RereadEnums, RereadDefault,
      Reread, JsonTypeOf, KroType, Printable;
    MarkersPrintable(f, p, required);
    ParsePrinted(f, p, required);
    var a0 := Blank(JsonTypeOf(KroType(p.typ)));
    var m1 := if required then [Marker("required", "true", false)] else [];
    var m2 := if p.enums != [] then [Marker("enum", Join(SpellAll(f, p.enums), ','), true)] else [];
    var m3, m4 := DefaultMarkers(f, p.default), NumberMarkers(f, "minimum", p.minimum);
    var m5, m6 := NumberMarkers(f, "maximum", p.maximum), TextMarkers("pattern", p.pattern);
    var m7 := TextMarkers("description", p.description);
    FoldAppend(f, a0, m1 + m2 + m3 + m4 + m5 + m6, m7);
    FoldAppend(f, a0, m1 + m2 + m3 + m4 + m5, m6);
    FoldAppend(f, a0, m1 + m2 + m3 + m4, m5);
    FoldAppend(f, a0, m1 + m2 + m3, m4);
    FoldAppend(f, a0, m1 + m2, m3);
    FoldAppend(f, a0, m1, m2);
    FoldRequired(f, a0, required);
    var a1 := Fold(f, a0, m1);
    FoldEnum(f, a1, p.enums);
    var a2 := Fold(f, a1, m2);
    FoldDefault(f, a2, p.default);
    var a3 := Fold(f, a2, m3);
    FoldMinimum(f, a3, p.minimum);
    var a4 := Fold(f, a3, m4);
    FoldMaximum(f, a4, p.maximum);
    var a5 := Fold(f, a4, m5);
    FoldPattern(f, a5, p.pattern);
    var a6 := Fold(f, a5, m6);
    FoldDescription(f, a6, p.description);
  }
}
