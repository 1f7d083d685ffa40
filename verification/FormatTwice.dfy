/** Formatting twice. */
module FormatTwice {
  import opened Objects
  import opened Lexer
  import opened Quoting
  import opened Addresses
  import opened Formatting
  import opened Relexing
  import opened Canonical
  import opened CanonicalLayout
  import opened FormatLaws
  import opened Printer
  import G = Grammar
  import opened Parsing
  import opened FormattedTrees
  import opened FormattedMarks
  import opened FormattedFiles
  import opened FormatSource
  import opened ArgQuoting

  // ----- One line break at the end -----

  lemma LastRendered(it: Item)
    requires ItemOk(it)
    ensures RenderItem(it) != [] && RenderItem(it)[|RenderItem(it)| - 1] != '\n'
  {
    hide WordLen, Escaped;
    if it.W? && !it.quoted {
      assert !IsBlank(it.text[|it.text| - 1]);
    }
  }

  lemma LastOfLine(items: seq<Item>)
    requires items != [] && ItemOk(items[|items| - 1])
    ensures RenderItems(items) != [] && RenderItems(items)[|RenderItems(items)| - 1] != '\n'
  {
    hide ItemOk;
    LastRendered(items[|items| - 1]);
  }

  /** Trimming line breaks and adding one back changes nothing. */
  lemma FinishRendered(toks: seq<Token>)
    requires Scanned(toks)
    ensures Finish(FormatTokens(toks)) == FormatTokens(toks)
  {
    hide LayOut, Scanned, Canon, Render;
    FreshOk();
    LayOutCanon(FRESH, toks);
    FinishLines(LayOut(FRESH, toks));
  }

  lemma FinishLines(lines: seq<Line>)
    requires Canon(lines)
    ensures Finish(Render(lines)) == Render(lines)
  {
    hide Canon, ItemOk, RenderItems, Indent;
    if lines == [] {
    } else {
      var ln := lines[|lines| - 1];
      CanonLines(lines, |lines| - 1);
      LastOfLine(ln.items);
      var head := Render(lines[..|lines| - 1]) + ((if ln.blank then "\n" else "") + Indent(ln.depth));
      var body := head + RenderItems(ln.items);
      assert Render(lines) == body + "\n";
      assert body[|body| - 1] == RenderItems(ln.items)[|RenderItems(ln.items)| - 1];
      TrimOne(body);
    }
  }

  lemma TrimOne(body: string)
    requires body != [] && body[|body| - 1] != '\n'
    ensures Finish(body + "\n") == body + "\n"
  {
    var t := body + "\n";
    assert t[|t| - 1] == '\n' && t[..|t| - 1] == body;
    assert TrimNewlines(body) == body;
    assert TrimNewlines(t) == TrimNewlines(body);
  }

  // ----- Byte order marks are not made -----

  function Marks(s: string): nat {
    if s == [] then 0 else (if s[0] == BOM then 1 else 0) + Marks(s[1..])
  }

  lemma {:induction false} MarksAppend(s: string, t: string)
    ensures Marks(s + t) == Marks(s) + Marks(t)
  {
    if s == [] {
      assert s + t == t;
    } else {
      assert (s + t)[1..] == s[1..] + t;
      MarksAppend(s[1..], t);
    }
  }

  lemma MarksSplit(s: string, n: nat)
    requires n <= |s|
    ensures Marks(s[..n]) + Marks(s[n..]) == Marks(s)
  {
    assert s[..n] + s[n..] == s;
    MarksAppend(s[..n], s[n..]);
  }

  lemma {:induction false} MarksQuoted(t: string)
    ensures Marks(Escaped(t)) == Marks(t)
  {
    if t != [] {
      MarksQuoted(t[1..]);
      MarksAppend(EscapedChar(t[0]), Escaped(t[1..]));
      assert EscapedChar(t[0])[1..] == [] || EscapedChar(t[0])[1..][1..] == [];
    }
  }

  lemma MarksItem(it: Item)
    ensures Marks(RenderItem(it)) == if it.W? || it.Note? then Marks(it.text) else 0
  {
    if it.W? && it.quoted {
      MarksQuoted(it.text);
      MarksAppend("\"", Escaped(it.text));
      MarksAppend("\"" + Escaped(it.text), "\"");
    }
  }

  function ItemMarks(it: Item): nat {
    if it.W? || it.Note? then Marks(it.text) else 0
  }

  function AllMarks(items: seq<Item>): nat {
    if items == [] then 0 else AllMarks(items[..|items| - 1]) + ItemMarks(items[|items| - 1])
  }

  lemma {:induction false} AllMarksAppend(a: seq<Item>, b: seq<Item>)
    ensures AllMarks(a + b) == AllMarks(a) + AllMarks(b)
  {
    if b == [] {
      assert a + b == a;
    } else {
      assert (a + b)[..|a + b| - 1] == a + b[..|b| - 1];
      AllMarksAppend(a, b[..|b| - 1]);
    }
  }

  lemma {:induction false} MarksItems(items: seq<Item>)
    ensures Marks(RenderItems(items)) == AllMarks(items)
  {
    hide RenderItem, ItemMarks;
    if |items| == 1 {
      MarksOfOne(items[0]);
      assert items[..0] == [];
    } else if |items| > 1 {
      var n := |items| - 1;
      MarksItems(items[..n]);
      MarksOfOne(items[n]);
      MarksAppend(RenderItems(items[..n]), " ");
      MarksAppend(RenderItems(items[..n]) + " ", RenderItem(items[n]));
    }
  }

  lemma MarksOfOne(it: Item)
    ensures Marks(RenderItem(it)) == ItemMarks(it) && Marks(" ") == 0
  {
    MarksItem(it);
  }

  lemma {:induction false} MarksIndent(n: nat)
    ensures Marks(Indent(n)) == 0
  {
    if n > 0 {
      MarksIndent(n - 1);
      MarksAppend("    ", Indent(n - 1));
      assert Marks("    ") == 0 by { FourSpaces(); }
    }
  }

  lemma FourSpaces()
    ensures Marks("    ") == 0
  {
    assert "    "[1..] == "   " && "   "[1..] == "  " && "  "[1..] == " ";
  }

  lemma {:induction false} MarksRendered(lines: seq<Line>)
    ensures Marks(Render(lines)) == AllMarks(Flatten(lines))
  {
    hide RenderItems, Indent, AllMarks;
    if lines == [] {
      NoMarks();
    } else {
      var n := |lines| - 1;
      var ln := lines[n];
      MarksRendered(lines[..n]);
      MarksItems(ln.items);
      MarksIndent(ln.depth);
      NoMarks();
      var head := if ln.blank then "\n" else "";
      MarksAppend(head, Indent(ln.depth));
      MarksAppend(head + Indent(ln.depth), RenderItems(ln.items));
      MarksAppend(head + Indent(ln.depth) + RenderItems(ln.items), "\n");
      MarksAppend(Render(lines[..n]), RenderLine(ln));
      AllMarksAppend(Flatten(lines[..n]), ln.items);
    }
  }

  lemma NoMarks()
    ensures AllMarks([]) == 0 && Marks("\n") == 0 && Marks("") == 0
  {
  }

  /** The marks of a token list. */
  function TokenMarks(toks: seq<Token>): nat {
    if toks == [] then 0 else Marks(toks[0].text) + TokenMarks(toks[1..])
  }

  lemma {:induction false} SignificantMarks(toks: seq<Token>)
    ensures AllMarks(Significant(toks)) <= TokenMarks(toks)
  {
    hide AllMarks, NeedsQuoting;
    if toks == [] {
      NoMarks();
    } else {
      SignificantMarks(toks[1..]);
      AllMarksAppend(ItemsOf(toks[0]), Significant(toks[1..]));
      OneTokenMarks(toks[0]);
    }
  }

  lemma OneTokenMarks(t: Token)
    ensures AllMarks(ItemsOf(t)) <= Marks(t.text)
  {
    hide NeedsQuoting, Marks;
    var items := ItemsOf(t);
    if items != [] {
      assert items[..0] == [] && items[0] == items[|items| - 1];
    }
  }

  lemma {:induction false} QuotedMarks(s: string)
    ensures QuotedBody(s).Closed? ==> Marks(QuotedBody(s).text) + Marks(QuotedBody(s).rest) <= Marks(s)
  {
    if QuotedBody(s).Closed? {
      if s[0] == '\\' {
        QuotedMarks(s[2..]);
        assert s[1..][1..] == s[2..];
        var more := if s[1] == '"' || s[1] == '\\' then [s[1]] else ['\\', s[1]];
        MarksAppend(more, QuotedBody(s[2..]).text);
        assert |more| == 2 ==> more[1..] == [s[1]];
      } else if s[0] != '"' {
        QuotedMarks(s[1..]);
        MarksAppend([s[0]], QuotedBody(s[1..]).text);
      }
    }
  }

  lemma {:induction false} TrimMarks(t: string)
    ensures Marks(TrimRight(t)) <= Marks(t)
  {
    if t != [] && t[|t| - 1] in {' ', '\t', '\r'} {
      TrimMarks(t[..|t| - 1]);
      MarksSplit(t, |t| - 1);
    }
  }

  lemma {:induction false} NextMarks(l: Lex)
    ensures var r := Next(l); r.Tok? ==> Marks(r.token.text) + Marks(r.rest.src) <= Marks(l.src)
    decreases |l.src|
  {
    hide WordLen, Scan, CommentLen, QuotedBody, TrimRight, Marks;
    SmallMarks();
    if l.src != [] {
      var c, tail := l.src[0], l.src[1..];
      MarksFront(l.src);
      if c == '\n' && l.atStart {
        NextMarks(Lex(tail, l.blank + 1, true, l.line + 1));
      } else if IsBlank(c) && c != '\n' {
        NextMarks(l.(src := tail));
      } else if c == '\\' && Continuation(l.src) {
        var k := if l.src[1] == '\r' then 3 else 2;
        MarksSplit(l.src, k);
        NextMarks(l.(src := l.src[k..], line := l.line + 1));
      } else if c == '#' {
        CommentMarks(l.src);
      } else if c == '"' {
        QuotedMarks(tail);
      } else {
        MarksSplit(l.src, WordLen(l.src));
      }
    }
  }

  lemma MarksFront(s: string)
    requires s != []
    ensures Marks(s) == (if s[0] == BOM then 1 else 0) + Marks(s[1..])
  {
  }

  lemma CommentMarks(s: string)
    ensures Marks(TrimRight(s[..CommentLen(s)])) + Marks(s[CommentLen(s)..]) <= Marks(s)
  {
    hide CommentLen, TrimRight;
    MarksSplit(s, CommentLen(s));
    TrimMarks(s[..CommentLen(s)]);
  }

  lemma SmallMarks()
    ensures Marks("{") == 0 && Marks("}") == 0 && Marks(";") == 0 && Marks("") == 0
  {
  }

  lemma {:induction false} TokensMarks(l: Lex)
    ensures TokensFrom(l).Ok? ==> TokenMarks(TokensFrom(l).toks) <= Marks(l.src)
    decreases |l.src|
  {
    hide Next, Marks;
    NextMarks(l);
    var r := Next(l);
    if r.Tok? && r.token.kind != EOF {
      TokensMarks(r.rest);
      var ts := TokensFrom(l);
      if ts.Ok? {
        assert ts.toks[1..] == TokensFrom(r.rest).toks;
      }
    } else if r.Tok? {
      assert TokensFrom(l).toks[1..] == [];
    }
  }

  lemma FormattedMarksBound(toks: seq<Token>)
    ensures Marks(FormatTokens(toks)) <= TokenMarks(toks)
  {
    hide LayOut, Render, Significant, AllMarks, Taken, Flatten;
    MarksRendered(LayOut(FRESH, toks));
    LayOutTakesAll(FRESH, toks);
    FreshTaken(Significant(toks));
    SignificantMarks(toks);
  }

  /** A first word that starts with a mark makes the text start with one. */
  lemma RenderWithBom(lines: seq<Line>)
    requires Canon(lines) && BomLed(Flatten(lines))
    ensures Render(lines) != [] && Render(lines)[0] == BOM
  {
    hide Canon;
    CanonLines(lines, 0);
    FirstChar(lines[0]);
    FlattenStarts(lines);
    RenderFront(lines);
  }

  // ----- Formatting the formatted text -----

  lemma FormatDone(src: string)
    requires Format(src).Done?
    ensures Tokenize(src).Ok?
    ensures var toks := Tokenize(src).toks;
            Scanned(toks) && ParseTokens(toks).Ok? && Format(src) == Done(FormatTokens(toks))
  {
    hide Tokenize, ParseTokens, FormatTokens, Scanned, Finish;
    TokenizedOk(src);
    FinishRendered(Tokenize(src).toks);
  }

  /** Without a leading byte order mark, formatted text is fixed if it parses. */
  lemma FixedIfParses(src: string)
    requires Format(src).Done? && !BomLed(Significant(Tokenize(src).toks))
    ensures Format(Format(src).text) == Format(src) <==> G.FileFrom(Spread(MarksOf(Tokenize(src).toks, G.Line), false)).Ok?
  {
    hide Tokenize, FormatTokens, Scanned, Finish, MarksOf, Spread, BomLed, Significant, Format, G.FileFrom;
    FormatDone(src);
    var toks := Tokenize(src).toks;
    var y := FormatTokens(toks);
    FormatTokensTwice(toks);
    FormattedSymbols(toks);
    FormatOf(y);
    TokenizedOk(y);
    FinishRendered(Tokenize(y).toks);
  }

  lemma FormatOf(src: string)
    requires Tokenize(src).Ok?
    ensures Format(src).Done? <==> ParseTokens(Tokenize(src).toks).Ok?
    ensures Format(src).Done? ==> Format(src) == Done(Finish(FormatTokens(Tokenize(src).toks)))
  {
    hide Tokenize, FormatTokens, Finish, ParseTokens;
  }

  /** It is never fixed when the first word starts with one: the second scan takes it for the file's. */
  lemma FormatNotFixed(src: string)
    requires Format(src).Done? && BomLed(Significant(Tokenize(src).toks))
    ensures Format(Format(src).text) != Format(src)
  {
    hide LayOut, Scanned, Finish, Canon, MarksOf, BomLed, Significant, Format, ParseTokens, Render, TokensFrom, Flatten, Marks;
    FormatDone(src);
    var toks := Tokenize(src).toks;
    var y := FormatTokens(toks);
    FreshOk();
    LayOutCanon(FRESH, toks);
    LayOutTakesAll(FRESH, toks);
    FreshTaken(Significant(toks));
    RenderWithBom(LayOut(FRESH, toks));
    var l := Start(y);
    TokensMarks(l);
    OneMark(y);
    if Format(y).Done? {
      FormatDone(y);
      FormattedMarksBound(Tokenize(y).toks);
    }
  }

  lemma OneMark(y: string)
    requires y != [] && y[0] == BOM
    ensures Marks(y[1..]) < Marks(y)
  {
  }

  /** Format(Format(x)) == Format(x), for every source that formats: exactly when its first word does not
      start with a byte order mark, and each of its site headers outlives formatting. */
  lemma FormatTwiceIff(src: string)
    requires Format(src).Done?
    ensures Format(Format(src).text) == Format(src) <==>
              !BomLed(Significant(Tokenize(src).toks)) && FileOutlives(MarksOf(Tokenize(src).toks, G.Line))
  {
    hide Format, Tokenize, BomLed, Significant, MarksOf, FormatTokens, Scanned, FileOutlives, Spread, G.FileFrom;
    FormatDone(src);
    if BomLed(Significant(Tokenize(src).toks)) {
      FormatNotFixed(src);
    } else {
      FixedIfParses(src);
      FileKeptIff(MarksOf(Tokenize(src).toks, G.Line));
    }
  }

  // ----- Words that cannot be quoted safely -----

  /** A bare word, read as such, that has to be quoted and reads as an address with a comma. */
  predicate Unsafe(w: string) {
    && WholeWord(w) && NeedsQuoting(w) && G.CommaAddress(G.Word(w, false))
    && w[0] !in {'@', '"', '#', BOM}
  }

  function Header(w: string): string {
    w + "\n{\n}\n"
  }

  function HeaderTokens(w: string): seq<Token> {
    [Token(Word, w, false, 0, 1), Token(Newline, "", false, 0, 1), Token(OpenBrace, "{", false, 0, 2),
     Token(Newline, "", false, 0, 2), Token(CloseBrace, "}", false, 0, 3), Token(Newline, "", false, 0, 3),
     Token(EOF, "", false, 0, 4)]
  }

  lemma HeaderWord(w: string, rest: string, l: Lex)
    requires Unsafe(w) && rest != [] && rest[0] == '\n' && l.src == w + rest && l.atStart && l.blank == 0
    ensures Next(l) == Tok(Token(Word, w, false, 0, l.line), Lex(rest, 0, false, l.line))
  {
    hide WordLen, Scan, WholeWord, NeedsQuoting;
    WordFacts(w, rest);
    assert l.src[..|w|] == w && l.src[|w|..] == rest && l.src[0] == w[0];
  }

  lemma WordFacts(w: string, rest: string)
    requires Unsafe(w) && rest != [] && rest[0] == '\n'
    ensures WordLen(w + rest) == |w| && !Continuation(w + rest) && (w[0] == '{' ==> Scan(w + rest, 0).Some?)
    ensures !IsBlank(w[0]) && !IsControl(w[0]) && w[0] != '}' && w[0] != ';'
  {
    hide NeedsQuoting, IsAddress;
    WordExtends(w, rest);
    NotBlankInside(w, 0);
    if w[0] == '{' {
      ScanExtends(w, 0, rest);
    }
    if |w| > 1 {
      NotBlankInside(w, 1);
    }
  }

  lemma LexBreak(rest: string, line: nat)
    ensures Next(Lex("\n" + rest, 0, false, line)) == Tok(Token(Newline, "", false, 0, line), Lex(rest, 0, true, line + 1))
  {
    assert ("\n" + rest)[1..] == rest;
  }

  lemma LexClose(rest: string, line: nat)
    ensures Next(Lex("}" + rest, 0, true, line)) == Tok(Token(CloseBrace, "}", false, 0, line), Lex(rest, 0, false, line))
  {
    assert ("}" + rest)[1..] == rest;
  }

  lemma HeaderScanned(w: string)
    requires Unsafe(w)
    ensures Tokenize(Header(w)) == Ok(HeaderTokens(w))
  {
    hide Next, Unsafe, TokensFrom;
    var r3 := "\n" + "";
    var r2 := "\n" + ("}" + r3);
    var r1 := "\n" + ("{" + r2);
    assert Header(w) == w + r1;
    NotBom(w, r1);
    HeaderWord(w, r1, Lex(w + r1, 0, true, 1));
    LexBreak("{" + r2, 1);
    LexBrace(r2, Lex("{" + r2, 0, true, 2));
    LexBreak("}" + r3, 2);
    LexClose(r3, 3);
    LexBreak("", 3);
    LexEnd(4);
    TokensStep(Lex(r3, 0, false, 3));
    TokensStep(Lex("}" + r3, 0, true, 3));
    TokensStep(Lex(r2, 0, false, 2));
    TokensStep(Lex("{" + r2, 0, true, 2));
    TokensStep(Lex(r1, 0, false, 1));
    TokensStep(Lex(w + r1, 0, true, 1));
  }

  lemma TokensStep(l: Lex)
    requires Next(l).Tok? && Next(l).token.kind != EOF && TokensFrom(Next(l).rest).Ok?
    ensures TokensFrom(l) == Ok([Next(l).token] + TokensFrom(Next(l).rest).toks)
  {
    hide Next;
  }

  lemma NotBom(w: string, rest: string)
    requires Unsafe(w)
    ensures Start(w + rest) == Lex(w + rest, 0, true, 1)
  {
    assert (w + rest)[0] == w[0];
  }

  lemma LexEnd(line: nat)
    ensures TokensFrom(Lex("", 0, true, line)) == Ok([Token(EOF, "", false, 0, line)])
  {
  }

  function HeaderMarks(w: string, quoted: bool): seq<G.Mark> {
    [G.Mark(G.Line, G.Word(w, quoted)), G.Mark(G.Line, G.Open), G.Mark(G.Line, G.Close)]
  }

  lemma HeaderMarked(w: string)
    ensures MarksOf(HeaderTokens(w), G.Line) == HeaderMarks(w, false)
  {
    hide MarksOf;
    var t := HeaderTokens(w);
    MarksNone(t[6..]);
    MarksAt(t, 5, G.Tight);
    MarksAt(t, 4, G.Line);
    MarksAt(t, 3, G.Tight);
    MarksAt(t, 2, G.Line);
    MarksAt(t, 1, G.Tight);
    MarksAt(t, 0, G.Line);
  }

  lemma MarksNone(ts: seq<Token>)
    requires ts != [] && ts[0].kind == EOF
    ensures forall g :: MarksOf(ts, g) == []
  {
  }

  lemma MarksAt(ts: seq<Token>, i: nat, g: G.Gap)
    requires i + 1 < |ts| && ts[i].kind != EOF
    ensures MarksOf(ts[i..], g) ==
            if IsSeparator(ts[i].kind) then MarksOf(ts[i + 1..], Widen(g, ts[i].kind))
            else [G.Mark(g, SymOf(ts[i]))] + MarksOf(ts[i + 1..], G.Tight)
    ensures ts[0..] == ts
  {
    assert ts[i..][1..] == ts[i + 1..];
  }

  lemma HeaderSymbols(w: string)
    requires NeedsQuoting(w)
    ensures MarksOf(HeaderTokens(w), G.Line) == HeaderMarks(w, false)
    ensures Spread(HeaderMarks(w, false), false) == HeaderMarks(w, true)
  {
    hide NeedsQuoting;
    HeaderMarked(w);
    var m := HeaderMarks(w, false);
    assert m[1..][1..] == m[2..] && m[2..][1..] == [];
    assert Spread(m[2..], true) == [G.Mark(G.Line, G.Close)];
    assert Spread(m[1..], false) == [G.Mark(G.Line, G.Open), G.Mark(G.Line, G.Close)];
  }

  /** Bare, the word heads a site. */
  lemma HeaderParses(w: string)
    requires Unsafe(w)
    ensures G.FileFrom(HeaderMarks(w, false)).Ok?
  {
    hide IsAddress, NeedsQuoting, WholeWord, SplitAddress;
    var m := HeaderMarks(w, false);
    SomeAddress(w);
    assert G.Fresh(m) == m && m[1..][1..] == m[2..] && m[2..][1..] == [];
    assert G.HeaderAhead(m[1..], true);
    assert G.StartsSite(m);
    assert G.Block(m[2..], 0) == G.Ok([], []);
    assert [] + SplitAddress(w) == SplitAddress(w);
    var site := G.Site(SplitAddress(w), []);
    assert G.SiteFrom(m[1..], SplitAddress(w)) == G.Ok(site, []);
    assert G.SiteFrom(m, []) == G.Ok(site, []);
    var f := G.File(false, [], [], []);
    assert G.Constructs([], f.(sites := f.sites + [site])).Ok?;
    assert G.Constructs(m, f).Ok?;
  }

  /** Quoted, it is a statement, and the brace after it heads a site without an address. */
  lemma QuotedHeaderFails(w: string)
    ensures G.FileFrom(HeaderMarks(w, true)) == G.Err(G.NoAddress)
  {
    hide IsAddress;
    var m := HeaderMarks(w, true);
    assert G.Fresh(m) == m;
    assert !G.HeaderAhead(m[1..], false);
    assert !G.StartsSite(m) && !G.BadWrap(m);
    LoneStatement(m);
    var n := G.Statement(m, 0);
    assert G.Fresh(m[1..]) == m[1..] && G.StartsSite(m[1..]);
    assert G.SiteFrom(m[1..], []) == G.Err(G.NoAddress);
    var f := G.File(false, [], [], []);
    assert G.Constructs(m[1..], f.(body := f.body + [n.value])) == G.Err(G.NoAddress);
    assert G.Constructs(m, f) == G.Err(G.NoAddress);
  }

  lemma SomeAddress(w: string)
    requires Unsafe(w)
    ensures SplitAddress(w) != []
  {
    hide IsAddress;
    var i :| 0 <= i < |w| && (IsBlank(w[i]) || w[i] == '"' || w[i] == ';');
    NotBlankInside(w, i);
    PartsKeep(w, "", i);
  }

  /** A character that is neither a comma nor a space is in some part. */
  lemma {:induction false} PartsKeep(t: string, part: string, i: nat)
    requires i < |t| && t[i] != ',' && !IsSpace(t[i])
    ensures Parts(t, part) != []
    decreases |t|
  {
    hide TrimSpace;
    if i == 0 {
      PartStays(t[1..], part + [t[0]], |part|);
    } else if t[0] == ',' {
      PartsKeep(t[1..], "", i - 1);
    } else {
      PartsKeep(t[1..], part + [t[0]], i - 1);
    }
  }

  lemma {:induction false} PartStays(t: string, part: string, i: nat)
    requires i < |part| && !IsSpace(part[i])
    ensures Parts(t, part) != []
    decreases |t|
  {
    hide TrimSpace;
    TrimKeeps(part, i);
    if t != [] && t[0] != ',' {
      PartStays(t[1..], part + [t[0]], i);
    }
  }

  lemma {:induction false} TrimKeeps(t: string, i: nat)
    requires i < |t| && !IsSpace(t[i])
    ensures TrimSpace(t) != ""
    decreases |t|
  {
    hide IsSpace;
    if IsSpace(t[0]) {
      TrimKeeps(t[1..], i - 1);
    } else if IsSpace(t[|t| - 1]) {
      TrimKeeps(t[..|t| - 1], i);
    }
  }

  /** For every such word: a site headed by it, its brace on the next line, formats, and the result no
      longer parses. Quoting it there is what Format's promise does not survive. */
  lemma UnsafeNotFixed(w: string)
    requires Unsafe(w)
    ensures Format(Header(w)).Done?
    ensures Format(Format(Header(w)).text) == SyntaxError(G.NoAddress)
  {
    hide Tokenize, FormatTokens, Scanned, Finish, MarksOf, Spread, BomLed, Significant, G.FileFrom, Unsafe, NeedsQuoting, HeaderMarks, HeaderTokens;
    var src := Header(w);
    UnsafeQuotes(w);
    HeaderScanned(w);
    HeaderSymbols(w);
    HeaderParses(w);
    FormatDone(src);
    NotBomLed(w);
    FormattedSymbols(HeaderTokens(w));
    QuotedHeaderFails(w);
  }

  lemma UnsafeQuotes(w: string)
    requires Unsafe(w)
    ensures NeedsQuoting(w)
  {
  }

  lemma NotBomLed(w: string)
    requires Unsafe(w)
    ensures !BomLed(Significant(HeaderTokens(w)))
  {
    hide NeedsQuoting, WholeWord, IsAddress;
    var t := HeaderTokens(w);
    assert Significant(t) == ItemsOf(t[0]) + Significant(t[1..]);
    assert Significant(t)[0] == ItemsOf(t[0])[0];
  }

  /** x/"y, is such a word. */
  lemma UnsafeExample()
    ensures Unsafe("x/\"y,")
  {
    hide IsAddress, WholeWord;
    var w := "x/\"y,";
    PlainIsWhole(w);
    assert w[2] == '"';
    AddressExample();
  }

  lemma AddressExample()
    ensures IsAddress("x/\"y,")
  {
    hide HostPart;
    HostExample();
    assert TrimComma("x/\"y,") == "x/\"y";
    assert BeforeLast("x", ':') == "x";
  }

  lemma HostExample()
    ensures HostPart("x/\"y") == "x"
  {
    hide Find;
    var t := "x/\"y";
    NoScheme(t);
    assert Before(t, {'/', '?', '#'}) == "x" by {
      assert t[1..][0] == '/';
    }
  }

  lemma {:induction false} NoScheme(t: string)
    requires ':' !in t
    ensures Find(t, SCHEME) == None
  {
    if t != [] {
      assert t[0] != SCHEME[0];
      NoScheme(t[1..]);
    }
  }
}
