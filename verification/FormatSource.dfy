/** Format on source text (internal/cadishfile/format.go:35-186): scan, refuse what does not parse, lay
    out. The documentation promises Format(Format(x)) == Format(x); here is when it holds. */
module FormatSource {
  import opened Objects
  import opened Lexer
  import opened Quoting
  import opened Formatting
  import opened Relexing
  import opened Canonical
  import opened CanonicalLayout
  import opened FormatLaws
  import Printer
  import Scanner
  import G = Grammar
  import opened Parsing
  import opened FormattedTrees
  import opened FormattedMarks
  import opened FormattedFiles

  datatype Formatted = Done(text: string) | LexicalError(lexical: Lexer.Error) | SyntaxError(syntax: G.Error)

  function ParseTokens(toks: seq<Token>): G.Parsed<G.File> {
    G.FileFrom(MarksOf(toks, G.Line))
  }

  function Format(src: string): Formatted {
    match Tokenize(src)
    case Err(e) => LexicalError(e)
    case Ok(toks) =>
      match ParseTokens(toks)
      case Err(e) => SyntaxError(e)
      case Ok(_, _) => Done(Printer.Finish(FormatTokens(toks)))
  }

  // ----- The program -----

  /** Scanner, parser and printer together compute Format. */
  method FormatFile(src: string) returns (r: Formatted)
    ensures r == Format(src)
  {
    hide Tokenize, MarksOf, FormatTokens, G.FileFrom, Stream, CommentsEnd;
    var ts := Scanner.TokenizeText(src);
    if ts.Err? {
      return LexicalError(ts.error);
    }
    TokenizedOk(src);
    var p := new Parser(ts.toks);
    FreshMarks(ts.toks, G.Tight, G.Line);
    FreshFile(MarksOf(ts.toks, G.Line));
    var f := p.ParseFile();
    if f.Failed? {
      return SyntaxError(f.error);
    }
    var out := Printer.FormatText(ts.toks);
    r := Done(out);
  }

  lemma TokenizedOk(src: string)
    ensures Tokenize(src).Ok? ==>
              var toks := Tokenize(src).toks;
              Scanned(toks) && Stream(toks) && CommentsEnd(toks)
  {
    hide Scanned, TokensFrom, CommentsEnd, Stream;
    TokensScanned(Start(src));
    CommentsScanned(Start(src));
    if Tokenize(src).Ok? {
      ScannedStream(Tokenize(src).toks);
    }
  }

  lemma FreshFile(ms: seq<G.Mark>)
    ensures G.FileFrom(G.Fresh(ms)) == G.FileFrom(ms)
  {
    hide G.Block, G.Constructs;
    if ms != [] {
      FreshTail(ms);
    }
    FreshConstructs(ms, G.File(false, [], [], []));
  }

  /** After a comment comes the end of its line. */
  lemma AfterComment(l: Lex)
    ensures var r := Next(l);
            r.Tok? && r.token.kind == Comment ==>
              var n := Next(r.rest);
              n.Tok? ==> n.token.kind == Newline || n.token.kind == EOF
    decreases |l.src|
  {
    hide CommentLen, TrimRight, WordLen, Scan, QuotedBody;
    var r := Next(l);
    if r.Tok? && r.token.kind == Comment {
      var c := l.src[0];
      if c == '#' {
        CommentStops(l.src);
      } else if c == '\n' {
        AfterComment(Lex(l.src[1..], l.blank + 1, true, l.line + 1));
      } else if IsBlank(c) {
        AfterComment(l.(src := l.src[1..]));
      } else {
        AfterComment(l.(src := if l.src[1] == '\r' then l.src[3..] else l.src[2..], line := l.line + 1));
      }
    }
  }

  lemma {:induction false} CommentStops(s: string)
    ensures var rest := s[CommentLen(s)..]; rest == [] || rest[0] == '\n' || IsControl(rest[0])
  {
    if s != [] && s[0] != '\n' && !IsControl(s[0]) {
      CommentStops(s[1..]);
      assert s[1..][CommentLen(s[1..])..] == s[CommentLen(s)..];
    }
  }

  lemma {:induction false} CommentsScanned(l: Lex)
    ensures TokensFrom(l).Ok? ==> CommentsEnd(TokensFrom(l).toks)
    decreases |l.src|
  {
    hide Next;
    AfterComment(l);
    var r := Next(l);
    if r.Tok? && r.token.kind != EOF {
      CommentsScanned(r.rest);
    }
  }
}
