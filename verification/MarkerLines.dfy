/** The tokenizer on every marker section: words of bare and quoted pieces, separated by any mix of spaces,
    tabs and bars (kro/schema.go). */
module MarkerLines {
  import opened Collections
  import opened GoStrings
  import opened MarkerText

  /** A piece of a word. An unclosed quote runs to the end of the text. */
  datatype Piece = Raw(text: string) | Quoted(mark: char, text: string) | Unclosed(mark: char, text: string)

  type Word = seq<Piece>

  predicate Mark(c: char) { c == '"' || c == '\'' }

  predicate Gap(s: string) { forall c | c in s :: c == ' ' || c == '\t' || c == '|' }

  /** Raw pieces hold neither quotes nor breaks; a quoted piece may hold anything but its own quote. */
  predicate Spellable(p: Piece) {
    match p
    case Raw(t) => forall c | c in t :: !Mark(c) && c != ' ' && c != '\t' && c != '|'
    case Quoted(m, t) => Mark(m) && m !in t
    case Unclosed(m, t) => Mark(m) && m !in t
  }

  function Spelling(p: Piece): string {
    match p
    case Raw(t) => t
    case Quoted(m, t) => [m] + t + [m]
    case Unclosed(m, t) => [m] + t
  }

  function WordSpelling(w: Word): string {
    if w == [] then "" else Spelling(w[0]) + WordSpelling(w[1..])
  }

  /** What a word stands for: its pieces without their quotes. */
  function Meaning(w: Word): string {
    if w == [] then "" else w[0].text + Meaning(w[1..])
  }

  /** The words with a gap before each and one at the end. */
  function Line(gaps: seq<string>, words: seq<Word>): string
    requires |gaps| == |words| + 1
  {
    if words == [] then gaps[0] else gaps[0] + (WordSpelling(words[0]) + Line(gaps[1..], words[1..]))
  }

  /** Words are apart, and a quote is left open only at the very end. */
  predicate Proper(gaps: seq<string>, words: seq<Word>) {
    && |gaps| == |words| + 1
    && (forall g | g in gaps :: Gap(g))
    && (forall i | 0 < i < |words| :: gaps[i] != "")
    && (forall i, j | 0 <= i < |words| && 0 <= j < |words[i]| :: Spellable(words[i][j]))
    && (forall i, j | 0 <= i < |words| && 0 <= j < |words[i]| && words[i][j].Unclosed? ::
          i == |words| - 1 && j == |words[i]| - 1 && gaps[|words|] == "")
  }

  /** The trimmed meanings of the words, in order, without blank ones. */
  function Readings(words: seq<Word>): seq<string> {
    if words == [] then []
    else (if TrimSpace(Meaning(words[0])) == "" then [] else [TrimSpace(Meaning(words[0]))]) + Readings(words[1..])
  }

  /** Words that are not blank are read one by one. */
  lemma {:induction false} ReadingsAt(words: seq<Word>)
    requires forall w | w in words :: TrimSpace(Meaning(w)) != ""
    ensures |Readings(words)| == |words|
    ensures forall i | 0 <= i < |words| :: Readings(words)[i] == TrimSpace(Meaning(words[i]))
  {
    hide TrimSpace, Meaning;
    if words != [] {
      assert words[0] in words && forall w | w in words[1..] :: w in words;
      ReadingsAt(words[1..]);
    }
  }

  // ----- one piece, one word, one gap -----

  lemma Regroup(a: string, b: string, c: string)
    ensures (a + b) + c == a + (b + c)
  {
  }

  lemma NoText(a: string)
    ensures "" + a == a && a + "" == a
  {
  }

  lemma {:induction false} ScanRaw(t: string, cur: string, rest: string)
    requires Spellable(Raw(t))
    ensures Scan(t + rest, cur, None) == Scan(rest, cur + t, None)
    decreases |t|
  {
    assert forall c | c in t :: Bare(c);
    ScanBare(t, cur, rest);
  }

  /** One byte inside a quote. */
  lemma ScanIn(c: char, rest: string, cur: string, m: char)
    ensures Scan([c] + rest, cur, Some(m)) ==
            if c == m then Scan(rest, cur, None) else Scan(rest, cur + [c], Some(m))
  {
    assert ([c] + rest)[0] == c && ([c] + rest)[1..] == rest;
  }

  lemma ScanMark(m: char, rest: string, cur: string)
    requires Mark(m)
    ensures Scan([m] + rest, cur, None) == Scan(rest, cur, Some(m))
  {
    assert ([m] + rest)[0] == m && ([m] + rest)[1..] == rest;
  }

  lemma {:induction false} ScanQuote(m: char, t: string, cur: string, rest: string)
    requires m !in t
    ensures Scan(t + ([m] + rest), cur, Some(m)) == Scan(rest, cur + t, None)
    decreases |t|
  {
    hide Scan;
    if t == "" {
      assert t + ([m] + rest) == [m] + rest && cur + t == cur;
      ScanIn(m, rest, cur, m);
    } else {
      var c, u := t[0], t[1..];
      assert c in t && t == [c] + u && m !in u;
      assert t + ([m] + rest) == [c] + (u + ([m] + rest));
      ScanIn(c, u + ([m] + rest), cur, m);
      ScanQuote(m, u, cur + [c], rest);
      assert cur + [c] + u == cur + t;
    }
  }

  lemma {:induction false} ScanOpen(m: char, t: string, cur: string)
    requires m !in t
    ensures Scan(t, cur, Some(m)) == Flush(cur + t)
    decreases |t|
  {
    hide Flush;
    if t == "" {
      assert cur + t == cur;
    } else {
      hide Scan;
      var c, u := t[0], t[1..];
      assert c in t && t == [c] + u && m !in u;
      ScanIn(c, u, cur, m);
      ScanOpen(m, u, cur + [c]);
      assert cur + [c] + u == cur + t;
    }
  }

  lemma ScanPiece(p: Piece, cur: string, rest: string)
    requires Spellable(p) && (p.Unclosed? ==> rest == "")
    ensures Scan(Spelling(p) + rest, cur, None) == Scan(rest, cur + p.text, None)
  {
    assert Scan("", cur + p.text, None) == Flush(cur + p.text);
    hide Scan, Flush;
    match p
    case Raw(t) => ScanRaw(t, cur, rest);
    case Quoted(m, t) =>
      Regroup([m] + t, [m], rest);
      Regroup([m], t, [m] + rest);
      ScanMark(m, t + ([m] + rest), cur);
      ScanQuote(m, t, cur, rest);
    case Unclosed(m, t) =>
      NoText([m] + t);
      ScanMark(m, t, cur);
      ScanOpen(m, t, cur);
  }

  lemma {:induction false} ScanWord(w: Word, cur: string, rest: string)
    requires forall j | 0 <= j < |w| :: Spellable(w[j])
    requires forall j | 0 <= j < |w| && w[j].Unclosed? :: j == |w| - 1 && rest == ""
    ensures Scan(WordSpelling(w) + rest, cur, None) == Scan(rest, cur + Meaning(w), None)
    decreases |w|
  {
    hide Scan, Spelling, Spellable;
    if w == [] {
      assert "" + rest == rest && cur + "" == cur;
    } else {
      var more := WordSpelling(w[1..]) + rest;
      assert WordSpelling(w) + rest == Spelling(w[0]) + more;
      if w[0].Unclosed? { assert more == ""; }
      ScanPiece(w[0], cur, more);
      ScanWord(w[1..], cur + w[0].text, rest);
      assert cur + w[0].text + Meaning(w[1..]) == cur + Meaning(w);
    }
  }

  /** A gap ends the word before it; with nothing before it, it does nothing. */
  lemma {:induction false} ScanGap(g: string, cur: string, rest: string)
    requires Gap(g) && (g == "" ==> cur == "")
    ensures Scan(g + rest, cur, None) == Flush(cur) + Scan(rest, "", None)
    decreases |g|
  {
    hide TrimSpace;
    FlushNothing();
    if g == "" {
      assert g + rest == rest && [] + Scan(rest, "", None) == Scan(rest, "", None);
    } else {
      var s := g + rest;
      assert s[0] == g[0] && s[1..] == g[1..] + rest && g[0] in g;
      assert forall c | c in g[1..] :: c in g;
      ScanGap(g[1..], "", rest);
      assert [] + Scan(rest, "", None) == Scan(rest, "", None);
    }
  }

  lemma FlushNothing()
    ensures Flush("") == []
  {
  }

  // ----- the whole line -----

  /** However the words are separated and quoted, the tokenizer reads what they stand for: a bar is white
      space, and neither bars nor white space inside quotes split a word. */
  lemma {:induction false} ScanLine(gaps: seq<string>, words: seq<Word>)
    requires Proper(gaps, words)
    ensures Scan(Line(gaps, words), "", None) == Readings(words)
    decreases |words|
  {
    hide Scan, TrimSpace, WordSpelling, Meaning, Spellable, Gap;
    assert gaps[0] in gaps;
    if words == [] {
      GapOnly(gaps[0]);
    } else {
      var rest := Line(gaps[1..], words[1..]);
      ProperRest(gaps, words);
      ScanGap(gaps[0], "", WordSpelling(words[0]) + rest);
      FlushNothing();
      RestEmpty(gaps, words);
      ScanWord(words[0], "", rest);
      assert "" + Meaning(words[0]) == Meaning(words[0]);
      AfterWord(gaps[1..], words[1..], Meaning(words[0]));
      ScanLine(gaps[1..], words[1..]);
    }
  }

  lemma GapOnly(g: string)
    requires Gap(g)
    ensures Scan(g, "", None) == []
  {
    ScanGap(g, "", "");
    assert g + "" == g;
    FlushNothing();
  }

  lemma ProperRest(gaps: seq<string>, words: seq<Word>)
    requires Proper(gaps, words) && words != []
    ensures Proper(gaps[1..], words[1..])
  {
    hide Spellable, Gap;
    var gs, ws := gaps[1..], words[1..];
    assert forall g | g in gs :: g in gaps;
    assert forall i | 0 < i < |ws| :: gs[i] == gaps[i + 1];
    forall i, j | 0 <= i < |ws| && 0 <= j < |ws[i]|
      ensures Spellable(ws[i][j])
      ensures ws[i][j].Unclosed? ==> i == |ws| - 1 && j == |ws[i]| - 1 && gs[|ws|] == ""
    {
      assert ws[i][j] == words[i + 1][j];
    }
  }

  lemma RestEmpty(gaps: seq<string>, words: seq<Word>)
    requires Proper(gaps, words) && words != []
    ensures forall j | 0 <= j < |words[0]| :: Spellable(words[0][j])
    ensures forall j | 0 <= j < |words[0]| && words[0][j].Unclosed? ::
              j == |words[0]| - 1 && Line(gaps[1..], words[1..]) == ""
  {
  }

  /** What comes after a word ends it. */
  lemma AfterWord(gaps: seq<string>, words: seq<Word>, cur: string)
    requires |gaps| == |words| + 1 && Gap(gaps[0]) && (words != [] ==> gaps[0] != "")
    ensures Scan(Line(gaps, words), cur, None) == Flush(cur) + Scan(Line(gaps, words), "", None)
  {
    hide TrimSpace, WordSpelling;
    FlushNothing();
    var rest := if words == [] then "" else WordSpelling(words[0]) + Line(gaps[1..], words[1..]);
    assert Line(gaps, words) == gaps[0] + rest;
    if gaps[0] == "" {
      assert rest == "" && Line(gaps, words) == "";
      assert Flush(cur) + [] == Flush(cur);
    } else {
      ScanGap(gaps[0], cur, rest);
      ScanGap(gaps[0], "", rest);
      assert [] + Scan(rest, "", None) == Scan(rest, "", None);
    }
  }

  // ----- every text is a line -----

  /** One more piece in front: of the first word when no gap is between, else a word of its own. */
  lemma Prepend(p: Piece, gaps: seq<string>, words: seq<Word>) returns (gs: seq<string>, ws: seq<Word>)
    requires Proper(gaps, words) && Spellable(p) && !p.Unclosed?
    ensures Proper(gs, ws) && Line(gs, ws) == Spelling(p) + Line(gaps, words)
  {
    if words != [] && gaps[0] == "" {
      gs, ws := gaps, [[p] + words[0]] + words[1..];
      PrependFirst(p, gaps, words, ws);
      hide Proper;
      PrependLine(p, gaps, words, ws);
    } else {
      gs, ws := [""] + gaps, [[p]] + words;
      PrependWord(p, gaps, words, gs, ws);
      hide Proper;
      PrependedLine(p, gaps, words, gs, ws);
    }
  }

  lemma PrependLine(p: Piece, gaps: seq<string>, words: seq<Word>, ws: seq<Word>)
    requires |gaps| == |words| + 1 && words != [] && gaps[0] == "" && ws == [[p] + words[0]] + words[1..]
    ensures Line(gaps, ws) == Spelling(p) + Line(gaps, words)
  {
    hide Spelling;
    var w, rest := [p] + words[0], Line(gaps[1..], words[1..]);
    assert w[1..] == words[0] && ws[1..] == words[1..];
    NoText(WordSpelling(words[0]) + rest);
    NoText((Spelling(p) + WordSpelling(words[0])) + rest);
    Regroup(Spelling(p), WordSpelling(words[0]), rest);
  }

  lemma PrependedLine(p: Piece, gaps: seq<string>, words: seq<Word>, gs: seq<string>, ws: seq<Word>)
    requires |gaps| == |words| + 1 && gs == [""] + gaps && ws == [[p]] + words
    ensures Line(gs, ws) == Spelling(p) + Line(gaps, words)
  {
    hide Spelling;
    assert gs[1..] == gaps && ws[1..] == words && [p][1..] == [];
    NoText(Spelling(p));
    NoText(Spelling(p) + Line(gaps, words));
    assert WordSpelling([p]) == Spelling(p);
  }

  lemma PrependWord(p: Piece, gaps: seq<string>, words: seq<Word>, gs: seq<string>, ws: seq<Word>)
    requires Proper(gaps, words) && Spellable(p) && !p.Unclosed? && (words == [] || gaps[0] != "")
    requires gs == [""] + gaps && ws == [[p]] + words
    ensures Proper(gs, ws)
  {
    assert Gap("") by { GapEmpty(); }
    hide Spellable, Gap;
    assert forall i | 0 < i < |ws| :: ws[i] == words[i - 1];
    assert forall i | 0 < i < |gs| :: gs[i] == gaps[i - 1];
    forall i, j | 0 <= i < |ws| && 0 <= j < |ws[i]|
      ensures Spellable(ws[i][j])
      ensures ws[i][j].Unclosed? ==> i == |ws| - 1 && j == |ws[i]| - 1 && gs[|ws|] == ""
    {
      if i > 0 { assert ws[i][j] == words[i - 1][j]; }
    }
  }

  lemma GapEmpty()
    ensures Gap("")
  {
  }

  lemma PrependFirst(p: Piece, gaps: seq<string>, words: seq<Word>, ws: seq<Word>)
    requires Proper(gaps, words) && Spellable(p) && !p.Unclosed? && words != []
    requires ws == [[p] + words[0]] + words[1..]
    ensures Proper(gaps, ws)
  {
    hide Spellable, Gap;
    forall i, j | 0 <= i < |ws| && 0 <= j < |ws[i]|
      ensures Spellable(ws[i][j])
      ensures ws[i][j].Unclosed? ==> i == |ws| - 1 && j == |ws[i]| - 1 && gaps[|ws|] == ""
    {
      if i == 0 && j > 0 { assert ws[0][j] == words[0][j - 1]; }
      if i > 0 { assert ws[i][j] == words[i][j]; }
    }
  }

  lemma Closing(m: char, s: string) returns (k: nat)
    requires m in s
    ensures k < |s| && s[k] == m && m !in s[..k]
  {
    k := 0;
    if s[0] != m {
      k := Closing(m, s[1..]);
      k := k + 1;
      assert s[..k] == [s[0]] + s[1..][..k - 1];
    }
  }

  /** A text that starts with a quoted piece. */
  lemma CutQuote(s: string) returns (t: string, rest: string)
    requires s != "" && s[0] in s[1..]
    ensures s[0] !in t && |rest| < |s| && s == [s[0]] + t + [s[0]] + rest
  {
    var k := Closing(s[0], s[1..]);
    t, rest := s[1..k + 1], s[k + 2..];
    assert t == s[1..][..k] && s[k + 1] == s[0];
  }

  /** Every text whatever is such a line, so the tokenizer is known on every text. */
  lemma {:induction false} EveryText(s: string) returns (gaps: seq<string>, words: seq<Word>)
    ensures Proper(gaps, words) && Line(gaps, words) == s
    decreases |s|
  {
    hide Line;
    if s == "" {
      gaps, words := [""], [];
      EmptyLine();
    } else if Mark(s[0]) && s[0] in s[1..] {
      var t, rest := CutQuote(s);
      gaps, words := EveryText(rest);
      hide Proper;
      gaps, words := Prepend(Quoted(s[0], t), gaps, words);
    } else if Mark(s[0]) {
      LastQuote(s);
      gaps, words := ["", ""], [[Unclosed(s[0], s[1..])]];
    } else if s[0] == ' ' || s[0] == '\t' || s[0] == '|' {
      var gs, ws := EveryText(s[1..]);
      gaps, words := [[s[0]] + gs[0]] + gs[1..], ws;
      Widen(s[0], gs, ws, gaps);
      assert s == [s[0]] + s[1..];
    } else {
      gaps, words := EveryText(s[1..]);
      hide Proper;
      gaps, words := Prepend(Raw([s[0]]), gaps, words);
      assert s == [s[0]] + s[1..];
    }
  }

  lemma EmptyLine()
    ensures Proper([""], []) && Line([""], []) == ""
  {
  }

  lemma LastQuote(s: string)
    requires s != "" && Mark(s[0]) && s[0] !in s[1..]
    ensures Proper(["", ""], [[Unclosed(s[0], s[1..])]])
    ensures Line(["", ""], [[Unclosed(s[0], s[1..])]]) == s
  {
    var gaps, words := ["", ""], [[Unclosed(s[0], s[1..])]];
    assert words[1..] == [] && gaps[1..] == [""] && words[0][1..] == [];
    assert WordSpelling(words[0]) == Spelling(words[0][0]) + "" == s;
    assert Line(gaps, words) == "" + (s + "");
  }

  lemma Widen(c: char, gs: seq<string>, ws: seq<Word>, gaps: seq<string>)
    requires Proper(gs, ws) && (c == ' ' || c == '\t' || c == '|') && gaps == [[c] + gs[0]] + gs[1..]
    ensures Proper(gaps, ws) && Line(gaps, ws) == [c] + Line(gs, ws)
  {
    hide Proper;
    WidenProper(c, gs, ws, gaps);
    WidenLine(c, gs, ws, gaps);
  }

  lemma WidenProper(c: char, gs: seq<string>, ws: seq<Word>, gaps: seq<string>)
    requires Proper(gs, ws) && (c == ' ' || c == '\t' || c == '|') && gaps == [[c] + gs[0]] + gs[1..]
    ensures |gs| == |ws| + 1 && Proper(gaps, ws)
  {
    assert Gap([c] + gs[0]) by { assert Gap(gs[0]); }
    hide Spellable, Gap;
    assert forall i | 0 < i < |gs| :: gaps[i] == gs[i];
    forall g | g in gaps
      ensures Gap(g)
    {
      var i :| 0 <= i < |gaps| && gaps[i] == g;
      if i > 0 { assert gs[i] in gs; }
    }
  }

  lemma WidenLine(c: char, gs: seq<string>, ws: seq<Word>, gaps: seq<string>)
    requires |gs| == |ws| + 1 && gaps == [[c] + gs[0]] + gs[1..]
    ensures Line(gaps, ws) == [c] + Line(gs, ws)
  {
    hide WordSpelling;
    assert gaps[1..] == gs[1..];
    if ws != [] {
      var rest := WordSpelling(ws[0]) + Line(gs[1..], ws[1..]);
      assert ([c] + gs[0]) + rest == [c] + (gs[0] + rest);
    }
  }
}
