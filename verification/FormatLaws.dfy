/** What formatting preserves: tokens, and itself. */
module FormatLaws {
  import opened Objects
  import opened Lexer
  import opened Quoting
  import opened Formatting
  import opened Relexing
  import opened Canonical
  import opened CanonicalLayout

  /** A word, brace or comment token as the formatter renders it; separators have no item. */
  function ItemsOf(t: Token): seq<Item> {
    match t.kind
    case Word => [W(t.text, t.quoted || NeedsQuoting(t.text))]
    case OpenBrace => [Open]
    case CloseBrace => [Close]
    case Comment => [Note(t.text)]
    case _ => []
  }

  /** The words (by text), braces and comments of a token list, in order. */
  function Significant(toks: seq<Token>): seq<Item> {
    if toks == [] then [] else ItemsOf(toks[0]) + Significant(toks[1..])
  }

  function Flatten(lines: seq<Line>): seq<Item> {
    if lines == [] then [] else Flatten(lines[..|lines| - 1]) + lines[|lines| - 1].items
  }

  /** Everything the formatter has taken in so far. */
  function Taken(f: Fmt): seq<Item> {
    Flatten(f.lines) + f.cur
  }

  lemma FlushTakes(f: Fmt)
    ensures Taken(Flush(f)) == Taken(f)
  {
    if f.cur != [] {
      var ln := Line(f.curBlank, f.depth, f.cur);
      assert (f.lines + [ln])[..|f.lines|] == f.lines;
      assert Flatten(f.lines) + f.cur + [] == Flatten(f.lines) + f.cur;
    }
  }

  lemma AddTakes(f: Fmt, it: Item)
    ensures Taken(Add(f, it)) == Taken(f) + [it]
  {
    if f.cur == [] {
      assert Flatten(f.lines) + [] == Flatten(f.lines);
    } else {
      assert Flatten(f.lines) + (f.cur + [it]) == Flatten(f.lines) + f.cur + [it];
    }
  }

  /** The items of the first `n` tokens. */
  lemma SignificantTwo(toks: seq<Token>)
    requires |toks| >= 2
    ensures Significant(toks) == ItemsOf(toks[0]) + ItemsOf(toks[1]) + Significant(toks[2..])
  {
    assert toks[1..][0] == toks[1] && toks[1..][1..] == toks[2..];
    assert Significant(toks[1..]) == ItemsOf(toks[1]) + Significant(toks[2..]);
  }

  lemma TakenIgnoresFlags(f: Fmt, depth: nat, pending: bool, suppress: bool)
    ensures Taken(f.(depth := depth, pending := pending, suppress := suppress)) == Taken(f)
  {
  }

  lemma BraceTakes(f: Fmt, brace: Item, toks: seq<Token>)
    ensures Taken(AddBrace(f, brace, toks)) == Taken(f) + ([brace] + TailNote(toks))
  {
    hide Taken, Add, Flush;
    AddTakes(f, brace);
    var g := Add(f, brace);
    if TrailingComment(toks) {
      AddTakes(g, Note(toks[1].text));
      FlushTakes(Add(g, Note(toks[1].text)));
      assert Taken(f) + [brace] + [Note(toks[1].text)] == Taken(f) + ([brace] + TailNote(toks));
    } else {
      FlushTakes(g);
      assert [brace] + [] == [brace];
    }
  }

  /** One round takes in exactly the items of the tokens it consumes. */
  lemma RoundTakes(f: Fmt, toks: seq<Token>)
    requires toks != []
    ensures Taken(Round(f, toks).0) + Significant(toks[Round(f, toks).1..]) == Taken(f) + Significant(toks)
  {
    hide Taken, Add, Flush, AddBrace, NeedsQuoting, Significant;
    var t := toks[0];
    var g := Observe(f, t);
    SignificantOne(toks);
    TakenIgnoresFlags(f, f.depth, g.pending, g.suppress);
    match t.kind
    case EOF =>
    case Newline => FlushTakes(g);
    case Semicolon => FlushTakes(g);
    case Comment =>
      AddTakes(g, Note(t.text));
      FlushTakes(Add(g, Note(t.text)));
      Regroup(Taken(f), [Note(t.text)], Significant(toks[1..]));
    case Word =>
      AddTakes(g, ItemsOf(t)[0]);
      Regroup(Taken(f), ItemsOf(t), Significant(toks[1..]));
    case OpenBrace =>
      BraceTakes(g, Open, toks);
      var h := AddBrace(g, Open, toks);
      TakenIgnoresFlags(h, g.depth + 1, false, true);
      BraceSignificant(toks, Open);
      Regroup(Taken(f), [Open] + TailNote(toks), Significant(toks[if TrailingComment(toks) then 2 else 1..]));
    case CloseBrace =>
      FlushTakes(g);
      var h := Flush(g);
      var d := if h.depth > 0 then h.depth - 1 else 0;
      TakenIgnoresFlags(h, d, false, h.suppress);
      BraceTakes(h.(depth := d, pending := false), Close, toks);
      BraceSignificant(toks, Close);
      Regroup(Taken(f), [Close] + TailNote(toks), Significant(toks[if TrailingComment(toks) then 2 else 1..]));
  }

  lemma SignificantOne(toks: seq<Token>)
    requires toks != []
    ensures Significant(toks) == ItemsOf(toks[0]) + Significant(toks[1..])
    ensures ItemsOf(toks[0]) == [] ==> Significant(toks) == Significant(toks[1..])
  {
  }

  lemma Regroup(a: seq<Item>, b: seq<Item>, c: seq<Item>)
    ensures a + b + c == a + (b + c)
  {
  }

  lemma BraceSignificant(toks: seq<Token>, brace: Item)
    requires toks != [] && ItemsOf(toks[0]) == [brace]
    ensures Significant(toks) == [brace] + TailNote(toks) + Significant(toks[if TrailingComment(toks) then 2 else 1..])
  {
    if TrailingComment(toks) {
      SignificantTwo(toks);
    } else {
      assert [brace] + [] == [brace];
    }
  }

  /** A layout holds exactly the words, braces and comments of its tokens, in order. */
  lemma {:induction false} LayOutTakesAll(f: Fmt, toks: seq<Token>)
    ensures Flatten(LayOut(f, toks)) == Taken(f) + Significant(toks)
    decreases |toks|
  {
    if toks == [] {
      FlushTakes(f);
      FlushEmpties(f);
    } else {
      TakesStep(f, toks);
      LayOutTakesAll(Round(f, toks).0, toks[Round(f, toks).1..]);
    }
  }

  lemma FlushEmpties(f: Fmt)
    ensures Flush(f).cur == [] && Taken(Flush(f)) == Flatten(Flush(f).lines)
    ensures Taken(f) + [] == Taken(f)
  {
  }

  lemma TakesStep(f: Fmt, toks: seq<Token>)
    requires toks != []
    ensures LayOut(f, toks) == LayOut(Round(f, toks).0, toks[Round(f, toks).1..])
    ensures Taken(Round(f, toks).0) + Significant(toks[Round(f, toks).1..]) == Taken(f) + Significant(toks)
  {
    hide Round, Taken, Significant;
    LayOutStep(f, toks);
    RoundTakes(f, toks);
  }

  // ----- The byte order mark -----

  /** The first item is a bare word starting with a byte order mark. Rendered first, its mark would be
      taken for the file's and dropped by the next scan. */
  predicate BomLed(items: seq<Item>) {
    items != [] && items[0].W? && !items[0].quoted && items[0].text != [] && items[0].text[0] == BOM
  }

  lemma {:induction false} CanonLines(lines: seq<Line>, i: nat)
    requires Canon(lines) && i < |lines|
    ensures lines[i].items != [] && ItemsOk(lines[i].items)
    ensures i == 0 ==> CanonLine([], lines[0])
  {
    hide ItemsOk;
    if i < |lines| - 1 {
      CanonLines(lines[..|lines| - 1], i);
    }
  }

  lemma {:induction false} RenderStarts(items: seq<Item>)
    requires items != [] && ItemOk(items[0])
    ensures RenderItem(items[0]) != [] && RenderItems(items) != [] && RenderItems(items)[0] == RenderItem(items[0])[0]
  {
    if |items| >= 2 {
      RenderItemsFront(items);
    }
  }

  lemma {:induction false} FlattenStarts(lines: seq<Line>)
    requires lines != [] && lines[0].items != []
    ensures Flatten(lines) != [] && Flatten(lines)[0] == lines[0].items[0]
  {
    if |lines| > 1 {
      FlattenStarts(lines[..|lines| - 1]);
    } else {
      assert lines[..0] == [];
      assert [] + lines[0].items == lines[0].items;
    }
  }

  lemma RenderWithoutBom(lines: seq<Line>)
    requires Canon(lines) && !BomLed(Flatten(lines))
    ensures Render(lines) == [] || Render(lines)[0] != BOM
  {
    if lines != [] {
      CanonLines(lines, 0);
      FirstChar(lines[0]);
      FlattenStarts(lines);
      RenderFront(lines);
    }
  }

  lemma FirstChar(ln: Line)
    requires CanonLine([], ln) && ln.items != [] && ItemsOk(ln.items)
    ensures var c := RenderItem(ln.items[0]);
            c != [] && RenderLine(ln) != [] && RenderLine(ln)[0] == c[0]
    ensures !ln.items[0].W? || ln.items[0].quoted ==> RenderLine(ln)[0] != BOM
  {
    hide ItemOk, RenderItems, Shape;
    FirstRendered(ln.items[0]);
    RenderStarts(ln.items);
    assert !ln.blank && ln.depth == 0;
    assert RenderLine(ln) == "" + "" + RenderItems(ln.items) + "\n";
  }

  lemma FirstRendered(it: Item)
    requires ItemOk(it)
    ensures RenderItem(it) != [] && (!it.W? || it.quoted ==> RenderItem(it)[0] != BOM)
    ensures it.W? && !it.quoted ==> RenderItem(it) == it.text
  {
  }

  // ----- Reading the output back -----

  /** Scanning the formatted text delivers its lines, item by item. */
  lemma FormatReadsBack(toks: seq<Token>)
    requires Scanned(toks) && !BomLed(Significant(toks))
    ensures Tokenize(FormatTokens(toks)) == Ok(AllTokens(LayOut(FRESH, toks), 1))
  {
    hide LayOut, Scanned, Canon, TokensFrom, Render, BomLed, ItemsOk, Flatten, Significant, AllTokens;
    var lines := LayOut(FRESH, toks);
    FreshOk();
    LayOutCanon(FRESH, toks);
    LayOutTakesAll(FRESH, toks);
    FreshTaken(Significant(toks));
    RenderWithoutBom(lines);
    forall i | 0 <= i < |lines|
      ensures lines[i].items != [] && ItemsOk(lines[i].items)
    {
      CanonLines(lines, i);
    }
    LexLines(lines, 1);
    StartWithoutBom(Render(lines));
  }

  lemma StartWithoutBom(text: string)
    requires text == [] || text[0] != BOM
    ensures Start(text) == Lex(text, 0, true, 1)
  {
  }

  lemma FreshOk()
    ensures FmtOk(FRESH)
  {
  }

  lemma FreshTaken(rest: seq<Item>)
    ensures Taken(FRESH) + rest == rest
  {
  }

  /** The lines the formatter lays out for its own output are the lines it rendered. */
  lemma RelaidOut(toks: seq<Token>)
    requires Scanned(toks)
    ensures LayOut(FRESH, AllTokens(LayOut(FRESH, toks), 1)) == LayOut(FRESH, toks)
  {
    hide LayOut, Scanned, Canon, AllTokens;
    var lines := LayOut(FRESH, toks);
    FreshOk();
    LayOutCanon(FRESH, toks);
    AtStart();
    assert [] + lines == lines;
    LinesLaidOut([], lines, 1);
  }

  lemma AtStart()
    ensures At([]) == FRESH
  {
  }

  /** Formatting changes no word's text, no brace and no comment, nor their order. */
  lemma FormatKeepsTokens(toks: seq<Token>)
    requires Scanned(toks) && !BomLed(Significant(toks))
    ensures Tokenize(FormatTokens(toks)).Ok?
    ensures Significant(Tokenize(FormatTokens(toks)).toks) == Significant(toks)
  {
    hide LayOut, Scanned, Significant, Tokenize, AllTokens, FormatTokens, BomLed, Taken, Flatten;
    FormatReadsBack(toks);
    RelaidOut(toks);
    LayOutTakesAll(FRESH, toks);
    LayOutTakesAll(FRESH, AllTokens(LayOut(FRESH, toks), 1));
    FreshTaken(Significant(toks));
    FreshTaken(Significant(AllTokens(LayOut(FRESH, toks), 1)));
  }

  /** Formatting the formatted text gives the same text. */
  lemma FormatTokensTwice(toks: seq<Token>)
    requires Scanned(toks) && !BomLed(Significant(toks))
    ensures Tokenize(FormatTokens(toks)).Ok?
    ensures FormatTokens(Tokenize(FormatTokens(toks)).toks) == FormatTokens(toks)
  {
    hide LayOut, Scanned, Significant, Tokenize, AllTokens, BomLed;
    FormatReadsBack(toks);
    RelaidOut(toks);
  }
}
