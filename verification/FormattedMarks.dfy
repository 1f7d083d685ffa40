/** The symbols of the formatted text are the spread symbols of the source. */
module FormattedMarks {
  import opened Objects
  import opened Lexer
  import opened Quoting
  import opened Formatting
  import opened Relexing
  import opened CanonicalLayout
  import opened FormatLaws
  import opened Ast
  import G = Grammar
  import opened Parsing
  import opened FormattedTrees

  function ItemSym(it: Item): G.Sym
    requires !it.Note?
  {
    match it
    case W(text, quoted) => G.Word(text, quoted)
    case Open => G.Open
    case Close => G.Close
  }

  /** The symbols of one line; comments are none. */
  function ItemsMarks(items: seq<Item>, gap: G.Gap): seq<G.Mark> {
    if items == [] then []
    else if items[0].Note? then ItemsMarks(items[1..], G.Line)
    else [G.Mark(gap, ItemSym(items[0]))] + ItemsMarks(items[1..], G.Tight)
  }

  function LinesMarks(lines: seq<Line>): seq<G.Mark> {
    if lines == [] then []
    else LinesMarks(lines[..|lines| - 1]) + ItemsMarks(lines[|lines| - 1].items, G.Line)
  }

  // ----- From the rendered lines -----

  lemma MarksOfItem(it: Item, blank: nat, line: nat, gap: G.Gap, ts: seq<Token>)
    requires gap != G.Semi
    ensures MarksOf([TokenOf(it, blank, line)] + ts, gap)
            == if it.Note? then MarksOf(ts, G.Line) else [G.Mark(gap, ItemSym(it))] + MarksOf(ts, G.Tight)
  {
    assert ([TokenOf(it, blank, line)] + ts)[1..] == ts;
  }

  lemma MarksOfBreak(n: nat, gap: G.Gap, ts: seq<Token>)
    requires gap != G.Semi
    ensures MarksOf([NewlineToken(n)] + ts, gap) == MarksOf(ts, G.Line)
  {
    assert ([NewlineToken(n)] + ts)[1..] == ts;
  }

  lemma {:induction false} MarksOfItems(items: seq<Item>, blank: nat, line: nat, gap: G.Gap, n: nat, ts: seq<Token>)
    requires gap != G.Semi
    ensures MarksOf(ItemTokens(items, blank, line) + ([NewlineToken(n)] + ts), gap)
            == ItemsMarks(items, gap) + MarksOf(ts, G.Line)
  {
    hide MarksOf, BreaksIn, TokenOf;
    var end := [NewlineToken(n)] + ts;
    if items == [] {
      assert ItemTokens(items, blank, line) + end == end;
      MarksOfBreak(n, gap, ts);
    } else {
      var more := ItemTokens(items[1..], 0, line + BreaksIn(items[0]));
      var t := TokenOf(items[0], blank, line);
      assert [t] + more + end == [t] + (more + end);
      MarksOfItem(items[0], blank, line, gap, more + end);
      MarksOfItems(items[1..], 0, line + BreaksIn(items[0]), if items[0].Note? then G.Line else G.Tight, n, ts);
    }
  }

  lemma MarksOfLine(ln: Line, line: nat, ts: seq<Token>)
    ensures MarksOf(LineTokens(ln, line) + ts, G.Line) == ItemsMarks(ln.items, G.Line) + MarksOf(ts, G.Line)
  {
    hide MarksOf, ItemsMarks, ItemTokens;
    var b := if ln.blank then 1 else 0;
    var n := line + b + LinesIn(ln.items);
    MarksOfItems(ln.items, b, line + b, G.Line, n, ts);
    assert ItemTokens(ln.items, b, line + b) + [NewlineToken(n)] + ts
        == ItemTokens(ln.items, b, line + b) + ([NewlineToken(n)] + ts);
  }

  lemma {:induction false} LinesMarksFront(lines: seq<Line>)
    requires lines != []
    ensures LinesMarks(lines) == ItemsMarks(lines[0].items, G.Line) + LinesMarks(lines[1..])
  {
    hide ItemsMarks;
    var n := |lines|;
    if n == 1 {
      assert lines[..0] == [] && lines[1..] == [];
    } else {
      LinesMarksFront(lines[..n - 1]);
      assert lines[..n - 1][1..] == lines[1..][..n - 2];
      MarkRegroup(ItemsMarks(lines[0].items, G.Line), LinesMarks(lines[1..][..n - 2]), ItemsMarks(lines[n - 1].items, G.Line));
    }
  }

  lemma MarkRegroup(a: seq<G.Mark>, b: seq<G.Mark>, c: seq<G.Mark>)
    ensures a + b + c == a + (b + c)
  {
  }

  /** The symbols of the formatted text. */
  lemma {:induction false} MarksOfAll(lines: seq<Line>, line: nat)
    ensures MarksOf(AllTokens(lines, line), G.Line) == LinesMarks(lines)
  {
    hide ItemsMarks, LineTokens;
    if lines != [] {
      MarksOfAll(lines[1..], NextLine(lines[0], line));
      MarksOfLine(lines[0], line, AllTokens(lines[1..], NextLine(lines[0], line)));
      LinesMarksFront(lines);
    }
  }

  // ----- From the source tokens -----

  /** Everything laid out so far. */
  function Laid(f: Fmt): seq<G.Mark> {
    LinesMarks(f.lines) + ItemsMarks(f.cur, G.Line)
  }

  /** How the next symbol will be set off. */
  function NextGap(f: Fmt): G.Gap {
    if f.cur == [] then G.Line else G.Tight
  }

  predicate WordsOnly(items: seq<Item>) {
    forall i :: 0 <= i < |items| ==> items[i].W?
  }

  lemma {:induction false} ItemsMarksAdd(items: seq<Item>, it: Item, gap: G.Gap)
    requires WordsOnly(items)
    ensures it.Note? ==> ItemsMarks(items + [it], gap) == ItemsMarks(items, gap)
    ensures !it.Note? ==>
              ItemsMarks(items + [it], gap)
              == ItemsMarks(items, gap) + [G.Mark(if items == [] then gap else G.Tight, ItemSym(it))]
  {
    if items == [] {
      assert items + [it] == [it] && [it][1..] == [];
    } else {
      assert (items + [it])[1..] == items[1..] + [it];
      ItemsMarksAdd(items[1..], it, G.Tight);
    }
  }

  lemma LaidFlush(f: Fmt)
    ensures Laid(Flush(f)) == Laid(f) && Flush(f).cur == []
  {
    hide ItemsMarks;
    if f.cur != [] {
      var ln := Line(f.curBlank, f.depth, f.cur);
      assert (f.lines + [ln])[..|f.lines|] == f.lines;
      EmptyMarks(Laid(f));
    }
  }

  lemma EmptyMarks(ms: seq<G.Mark>)
    ensures ItemsMarks([], G.Line) == [] && ms + [] == ms
  {
  }

  lemma LaidAdd(f: Fmt, it: Item)
    requires WordsOnly(f.cur)
    ensures it.Note? ==> Laid(Add(f, it)) == Laid(f)
    ensures !it.Note? ==> Laid(Add(f, it)) == Laid(f) + [G.Mark(NextGap(f), ItemSym(it))]
  {
    hide ItemsMarks;
    ItemsMarksAdd(f.cur, it, G.Line);
    if f.cur == [] {
      assert f.cur + [it] == [it];
    }
    if !it.Note? {
      MarkRegroup(LinesMarks(f.lines), ItemsMarks(f.cur, G.Line), [G.Mark(NextGap(f), ItemSym(it))]);
    }
  }

  lemma LaidFlags(f: Fmt, depth: nat, pending: bool, suppress: bool)
    ensures Laid(f.(depth := depth, pending := pending, suppress := suppress)) == Laid(f)
  {
  }

  /** Set off one way or another, or after a brace: the formatted symbol starts a line. */
  lemma {:induction false} SpreadWide(ts: seq<Token>, g: G.Gap, b: bool, h: G.Gap, c: bool)
    requires (g != G.Tight || b) && (h != G.Tight || c)
    ensures Spread(MarksOf(ts, g), b) == Spread(MarksOf(ts, h), c)
  {
    hide NeedsQuoting;
    if ts != [] && ts[0].kind != EOF {
      if IsSeparator(ts[0].kind) {
        SpreadWide(ts[1..], Widen(g, ts[0].kind), b, Widen(h, ts[0].kind), c);
      } else {
        var rest := MarksOf(ts[1..], G.Tight);
        assert MarksOf(ts, g)[1..] == rest && MarksOf(ts, h)[1..] == rest;
      }
    }
  }

  /** What the rest of the tokens will add. */
  function Coming(f: Fmt, toks: seq<Token>): seq<G.Mark> {
    Spread(MarksOf(toks, NextGap(f)), false)
  }

  /** The lines so far and the rest of the tokens give the same symbols. */
  ghost predicate Even(f: Fmt, toks: seq<Token>, g: Fmt, rest: seq<Token>) {
    WordsOnly(g.cur) && Laid(g) + Coming(g, rest) == Laid(f) + Coming(f, toks)
  }

  lemma BreakEven(f: Fmt, toks: seq<Token>)
    requires toks != [] && IsSeparator(toks[0].kind) && WordsOnly(f.cur)
    ensures Coming(Flush(f), toks[1..]) == Coming(f, toks) && Laid(Flush(f)) == Laid(f) && WordsOnly(Flush(f).cur)
  {
    hide Spread, Laid;
    LaidFlush(f);
    SpreadWide(toks[1..], G.Line, false, Widen(NextGap(f), toks[0].kind), false);
  }

  /** A symbol moves from the tokens to the lines. */
  lemma MoveEven(done: seq<G.Mark>, m: G.Mark, rest: seq<G.Mark>)
    ensures done + [m] + rest == done + ([m] + rest)
  {
  }

  lemma WordEven(f: Fmt, toks: seq<Token>, it: Item)
    requires toks != [] && toks[0].kind == Kind.Word && WordsOnly(f.cur)
    requires it == W(toks[0].text, toks[0].quoted || NeedsQuoting(toks[0].text))
    ensures Even(f, toks, Add(f, it), toks[1..])
  {
    hide Laid, NeedsQuoting;
    LaidAdd(f, it);
    var m := G.Mark(NextGap(f), ItemSym(it));
    var ms := MarksOf(toks, NextGap(f));
    assert ms[1..] == MarksOf(toks[1..], G.Tight);
    MoveEven(Laid(f), m, Coming(Add(f, it), toks[1..]));
  }

  /** A brace, its trailing comment and the end of its line. */
  lemma BraceLaid(f: Fmt, brace: Item, toks: seq<Token>)
    requires WordsOnly(f.cur) && (brace.Open? || brace.Close?)
    ensures var g := AddBrace(f, brace, toks);
            g.cur == [] && Laid(g) == Laid(f) + [G.Mark(NextGap(f), ItemSym(brace))]
  {
    hide Laid;
    LaidAdd(f, brace);
    var g := Add(f, brace);
    LaidFlush(g);
    if TrailingComment(toks) {
      NoteLaid(f, brace, toks[1].text);
    }
  }

  lemma NoteLaid(f: Fmt, brace: Item, note: string)
    requires WordsOnly(f.cur) && (brace.Open? || brace.Close?)
    ensures var g := Flush(Add(Add(f, brace), Note(note)));
            g.cur == [] && Laid(g) == Laid(Add(f, brace))
  {
    hide ItemsMarks, LinesMarks;
    var g := Add(f, brace);
    var h := Add(g, Note(note));
    LaidFlush(h);
    BraceNote(f.cur, brace, Note(note));
    assert f.cur == [] ==> [brace] + [Note(note)] == f.cur + [brace] + [Note(note)] && [brace] == f.cur + [brace];
  }

  lemma {:induction false} BraceNote(items: seq<Item>, brace: Item, note: Item)
    requires WordsOnly(items) && note.Note? && !brace.Note?
    ensures ItemsMarks(items + [brace] + [note], G.Line) == ItemsMarks(items + [brace], G.Line)
  {
    NoteLast(items + [brace], note, G.Line);
  }

  lemma {:induction false} NoteLast(items: seq<Item>, note: Item, gap: G.Gap)
    requires note.Note?
    ensures ItemsMarks(items + [note], gap) == ItemsMarks(items, gap)
  {
    if items == [] {
      assert items + [note] == [note] && [note][1..] == [];
    } else {
      assert (items + [note])[1..] == items[1..] + [note];
      NoteLast(items[1..], note, if items[0].Note? then G.Line else G.Tight);
    }
  }

  /** The tokens behind a brace. */
  lemma BraceComing(toks: seq<Token>, gap: G.Gap, brace: G.Sym)
    requires toks != [] && !IsSeparator(toks[0].kind) && toks[0].kind != EOF && SymOf(toks[0]) == brace && !brace.Word?
    ensures Spread(MarksOf(toks, gap), false) ==
            [G.Mark(if gap != G.Tight || brace == G.Close then G.Line else G.Tight, brace)]
            + Spread(MarksOf(toks[if TrailingComment(toks) then 2 else 1..], G.Line), false)
  {
    hide NeedsQuoting;
    var ms := MarksOf(toks, gap);
    assert ms[1..] == MarksOf(toks[1..], G.Tight);
    SpreadWide(toks[1..], G.Tight, true, G.Line, false);
    if TrailingComment(toks) {
      assert toks[1..][1..] == toks[2..];
      SpreadWide(toks[2..], Widen(G.Line, Comment), false, G.Line, false);
    }
  }

  lemma OpenEven(f: Fmt, toks: seq<Token>)
    requires toks != [] && toks[0].kind == OpenBrace && WordsOnly(f.cur)
    ensures var g := AddBrace(f, Open, toks);
            Even(f, toks, g.(depth := f.depth + 1, pending := false, suppress := true),
                 toks[if TrailingComment(toks) then 2 else 1..])
  {
    hide Laid, Spread, AddBrace, MarksOf;
    BraceLaid(f, Open, toks);
    BraceComing(toks, NextGap(f), G.Open);
    var g, rest := AddBrace(f, Open, toks), toks[if TrailingComment(toks) then 2 else 1..];
    LaidFlags(g, f.depth + 1, false, true);
    MoveEven(Laid(f), G.Mark(NextGap(f), G.Open), Coming(g, rest));
  }

  lemma CloseEven(f: Fmt, toks: seq<Token>, depth: nat)
    requires toks != [] && toks[0].kind == CloseBrace && WordsOnly(f.cur)
    ensures var h := Flush(f).(depth := depth, pending := false);
            Even(f, toks, AddBrace(h, Close, toks), toks[if TrailingComment(toks) then 2 else 1..])
  {
    hide Laid, Spread, AddBrace, MarksOf;
    LaidFlush(f);
    var h := Flush(f).(depth := depth, pending := false);
    LaidFlags(Flush(f), depth, false, h.suppress);
    BraceLaid(h, Close, toks);
    BraceComing(toks, NextGap(f), G.Close);
    var g, rest := AddBrace(h, Close, toks), toks[if TrailingComment(toks) then 2 else 1..];
    MoveEven(Laid(f), G.Mark(G.Line, G.Close), Coming(g, rest));
  }

  lemma RoundEven(f: Fmt, toks: seq<Token>)
    requires toks != [] && toks[0].kind != EOF && WordsOnly(f.cur)
    ensures Even(f, toks, Round(f, toks).0, toks[Round(f, toks).1..])
  {
    hide Laid, Spread, AddBrace, MarksOf, NeedsQuoting, Flush, Add, TrailingComment;
    var g := Observe(f, toks[0]);
    LaidFlags(f, f.depth, g.pending, g.suppress);
    match toks[0].kind
    case Newline => BreakEven(g, toks);
    case Semicolon => BreakEven(g, toks);
    case Comment =>
      BreakEven(g, toks);
      CommentLaid(g, toks[0].text);
    case OpenBrace => OpenEven(g, toks);
    case CloseBrace =>
      var h := Flush(g);
      CloseEven(g, toks, if h.depth > 0 then h.depth - 1 else 0);
    case Word => WordEven(g, toks, W(toks[0].text, toks[0].quoted || NeedsQuoting(toks[0].text)));
  }

  lemma CommentLaid(g: Fmt, text: string)
    requires WordsOnly(g.cur)
    ensures var h := Flush(Add(g, Note(text)));
            h.cur == [] && Laid(h) == Laid(g) && Laid(Flush(g)) == Laid(g) && Flush(g).cur == []
  {
    hide Laid;
    LaidAdd(g, Note(text));
    LaidFlush(Add(g, Note(text)));
    LaidFlush(g);
  }

  /** Laying out a token list gives its symbols, spread. */
  lemma {:induction false} LayOutEven(f: Fmt, toks: seq<Token>)
    requires WordsOnly(f.cur) && Stream(toks)
    ensures LinesMarks(LayOut(f, toks)) == Laid(f) + Coming(f, toks)
    decreases |toks|
  {
    hide Laid, Coming, Round, Even, WordsOnly;
    LayOutStep(f, toks);
    if toks[0].kind == EOF {
      AtEnd(f, toks);
    } else {
      RoundEven(f, toks);
      var (g, used) := Round(f, toks);
      EvenFacts(f, toks, g, toks[used..]);
      BeforeEof(f, toks);
      LayOutEven(g, toks[used..]);
    }
  }

  lemma EvenFacts(f: Fmt, toks: seq<Token>, g: Fmt, rest: seq<Token>)
    requires Even(f, toks, g, rest)
    ensures WordsOnly(g.cur) && Laid(g) + Coming(g, rest) == Laid(f) + Coming(f, toks)
  {
  }

  lemma BeforeEof(f: Fmt, toks: seq<Token>)
    requires Stream(toks) && toks[0].kind != EOF
    ensures Stream(toks[Round(f, toks).1..])
  {
    hide Flush, Add, AddBrace, NeedsQuoting;
  }

  lemma AtEnd(f: Fmt, toks: seq<Token>)
    requires Stream(toks) && toks[0].kind == EOF && WordsOnly(f.cur)
    ensures LinesMarks(LayOut(f, toks)) == Laid(f) + Coming(f, toks)
  {
    hide ItemsMarks, LinesMarks;
    assert |toks| == 1;
    var g := Observe(f, toks[0]);
    LayOutStep(f, toks);
    assert toks[1..] == [];
    LaidFlush(g);
    EmptyMarks(LinesMarks(Flush(g).lines));
    EmptyMarks(Laid(f));
  }

  /** The symbols of the formatted text are the source's, spread. */
  lemma FormattedSymbols(toks: seq<Token>)
    requires Scanned(toks) && !BomLed(Significant(toks))
    ensures Tokenize(FormatTokens(toks)).Ok?
    ensures MarksOf(Tokenize(FormatTokens(toks)).toks, G.Line) == Spread(MarksOf(toks, G.Line), false)
  {
    hide LayOut, Tokenize, AllTokens, FormatTokens, BomLed, Significant, LinesMarks, MarksOf, Spread;
    FormatReadsBack(toks);
    var lines := LayOut(FRESH, toks);
    MarksOfAll(lines, 1);
    ScannedStream(toks);
    LayOutEven(FRESH, toks);
    NothingLaid(Coming(FRESH, toks));
  }

  lemma ScannedStream(toks: seq<Token>)
    requires Scanned(toks)
    ensures Stream(toks)
  {
    hide TokenOk;
  }

  lemma NothingLaid(ms: seq<G.Mark>)
    ensures Laid(FRESH) + ms == ms
  {
  }

  /** A fragment formatted and parsed again is the fragment's tree, requoted: the tree itself exactly when
      no bare argument and no matcher name in it has to be quoted. */
  lemma FormattedFragment(toks: seq<Token>)
    requires Scanned(toks) && !BomLed(Significant(toks)) && G.Fragment(MarksOf(toks, G.Line)).Ok?
    ensures Tokenize(FormatTokens(toks)).Ok?
    ensures var tree, again := G.Fragment(MarksOf(toks, G.Line)).value,
                               G.Fragment(MarksOf(Tokenize(FormatTokens(toks)).toks, G.Line));
            again == G.Ok(RequotedNodes(tree), []) && (again.value == tree <==> Settled(tree))
  {
    hide Tokenize, FormatTokens, BomLed, Significant, Spread, MarksOf, G.Fragment, RequotedNodes, Settled, Scanned;
    FormattedSymbols(toks);
    SpreadFragment(MarksOf(toks, G.Line), false);
    SettledIff(G.Fragment(MarksOf(toks, G.Line)).value);
  }
}
