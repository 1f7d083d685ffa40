/** Scanning rendered lines: the scanner reads back exactly the items that were rendered. */
module Relexing {
  import opened Objects
  import opened Lexer
  import opened Quoting
  import opened Formatting

  /** A comment as the scanner delivers it. */
  predicate CommentText(t: string) {
    && t != [] && t[0] == '#' && NoControl(t) && '\n' !in t
    && t[|t| - 1] !in {' ', '\t', '\r'}
  }

  predicate ItemOk(it: Item) {
    match it
    case W(text, quoted) => if quoted then NoControl(text) else !NeedsQuoting(text) && WholeWord(text)
    case Note(text) => CommentText(text)
    case Open => true
    case Close => true
  }

  function TokenOf(it: Item, blank: nat, line: nat): Token {
    match it
    case W(text, quoted) => Token(Word, text, quoted, blank, line)
    case Open => Token(OpenBrace, "{", false, blank, line)
    case Close => Token(CloseBrace, "}", false, blank, line)
    case Note(text) => Token(Comment, text, false, blank, line)
  }

  /** Line breaks inside the rendered item: only a quoted word can hold some. */
  function BreaksIn(it: Item): nat {
    if it.W? && it.quoted then NewlinesIn(it.text) else 0
  }

  function LinesIn(items: seq<Item>): nat {
    if items == [] then 0 else BreaksIn(items[0]) + LinesIn(items[1..])
  }

  function ItemTokens(items: seq<Item>, blank: nat, line: nat): seq<Token> {
    if items == [] then []
    else [TokenOf(items[0], blank, line)] + ItemTokens(items[1..], 0, line + BreaksIn(items[0]))
  }

  function AndThen(ts: seq<Token>, r: Tokens): Tokens {
    if r.Ok? then Ok(ts + r.toks) else r
  }

  // ----- One item -----

  lemma {:induction false} CommentReadBack(t: string, rest: string)
    requires NoControl(t) && '\n' !in t && rest != [] && rest[0] == '\n'
    ensures CommentLen(t + rest) == |t|
  {
    if t == [] {
      assert t + rest == rest;
    } else {
      assert (t + rest)[1..] == t[1..] + rest;
      CommentReadBack(t[1..], rest);
    }
  }

  lemma LexNote(t: string, rest: string, l: Lex)
    requires CommentText(t) && rest != [] && rest[0] == '\n' && l.src == t + rest
    ensures Next(l) == Tok(Token(Comment, t, false, TakenBlank(l), l.line), After(l, rest, 0))
  {
    CommentReadBack(t, rest);
    assert (t + rest)[..|t|] == t && (t + rest)[|t|..] == rest;
    assert TrimRight(t) == t;
  }

  lemma LexBare(t: string, rest: string, l: Lex)
    requires !NeedsQuoting(t) && WholeWord(t) && rest != [] && (rest[0] == ' ' || rest[0] == '\n') && l.src == t + rest
    ensures Next(l) == Tok(Token(Word, t, false, TakenBlank(l), l.line), After(l, rest, 0))
  {
    WordExtends(t, rest);
    BareStart(t, rest);
    assert (t + rest)[..|t|] == t && (t + rest)[|t|..] == rest;
    assert l.src[0] == t[0];
    hide WordLen, Scan, WholeWord, NeedsQuoting;
  }

  /** A bare word does not look like anything else at its start. */
  lemma BareStart(t: string, rest: string)
    requires !NeedsQuoting(t) && WholeWord(t) && rest != [] && (rest[0] == ' ' || rest[0] == '\n')
    ensures !IsBlank(t[0]) && !IsControl(t[0]) && t[0] != ';' && t[0] != '}' && t[0] != '#' && t[0] != '"'
    ensures !Continuation(t + rest)
    ensures t[0] == '{' ==> Scan(t + rest, 0).Some?
  {
    NotBlankInside(t, 0);
    if t[0] == '{' {
      ScanExtends(t, 0, rest);
    }
    if t[0] == '\\' {
      NotBlankInside(t, 1);
    }
  }

  lemma LexQuotedWord(t: string, rest: string, l: Lex)
    requires NoControl(t) && l.src == Quote(t) + rest
    ensures Next(l) == Tok(Token(Word, t, true, TakenBlank(l), l.line), After(l, rest, NewlinesIn(t)))
  {
    hide QuotedBody, Escaped, WordLen, Scan, CommentLen, TrimRight, Continuation;
    QuotedReadBack(t, rest);
    assert l.src[0] == '"';
    assert l.src[1..] == Escaped(t) + ("\"" + rest);
  }

  lemma LexBrace(rest: string, l: Lex)
    requires rest != [] && (rest[0] == ' ' || rest[0] == '\n') && l.src == "{" + rest
    ensures Next(l) == Tok(Token(OpenBrace, "{", false, TakenBlank(l), l.line), After(l, rest, 0))
  {
    assert l.src[0] == '{' && l.src[1..] == rest;
    assert Scan(rest, 1) == None;
    assert Scan(l.src, 0) == None;
  }

  lemma LexItem(it: Item, rest: string, l: Lex)
    requires ItemOk(it) && l.src == RenderItem(it) + rest
    requires rest != [] && (rest[0] == '\n' || (rest[0] == ' ' && !it.Note?))
    ensures Next(l) == Tok(TokenOf(it, TakenBlank(l), l.line), After(l, rest, BreaksIn(it)))
  {
    match it
    case W(text, quoted) => if quoted { LexQuotedWord(text, rest, l); } else { LexBare(text, rest, l); }
    case Open => LexBrace(rest, l);
    case Close => assert l.src[0] == '}' && l.src[1..] == rest;
    case Note(text) => LexNote(text, rest, l);
  }

  // ----- One line -----

  /** A comment can only end a line. */
  predicate NoteLast(items: seq<Item>) {
    forall i :: 0 <= i < |items| - 1 ==> !items[i].Note?
  }

  predicate ItemsOk(items: seq<Item>) {
    NoteLast(items) && forall i :: 0 <= i < |items| ==> ItemOk(items[i])
  }

  lemma {:induction false} RenderItemsFront(items: seq<Item>)
    requires |items| >= 2
    ensures RenderItems(items) == RenderItem(items[0]) + (" " + RenderItems(items[1..]))
  {
    var n := |items|;
    var a, z := RenderItem(items[0]), RenderItem(items[n - 1]);
    if n == 2 {
      assert items[..1] == [items[0]] && items[1..] == [items[1]];
      assert a + " " + z == a + (" " + z);
    } else {
      var front := items[..n - 1];
      RenderItemsFront(front);
      assert front[1..] == items[1..][..n - 2];
      var mid := RenderItems(front[1..]);
      assert RenderItems(items[1..]) == mid + " " + z;
      assert a + (" " + mid) + " " + z == a + (" " + (mid + " " + z));
    }
  }

  /** Scanning from `l` delivers `ts` and goes on from `m`. */
  ghost predicate Reads(l: Lex, ts: seq<Token>, m: Lex) {
    TokensFrom(l) == AndThen(ts, TokensFrom(m))
  }

  lemma ReadsThen(l: Lex, a: seq<Token>, m: Lex, b: seq<Token>, n: Lex)
    requires Reads(l, a, m) && Reads(m, b, n)
    ensures Reads(l, a + b, n)
  {
    hide TokensFrom;
    var r := TokensFrom(n);
    if r.Ok? {
      assert a + (b + r.toks) == a + b + r.toks;
    }
  }

  lemma ReadsOne(l: Lex, t: Token, rest: Lex)
    requires Next(l) == Tok(t, rest) && t.kind != EOF
    ensures Reads(l, [t], rest)
  {
  }

  /** Blanks before a token do not matter. */
  lemma SkipBlank(l: Lex, c: char, rest: string)
    requires (c == ' ' || c == '\t') && l.src == [c] + rest
    ensures TokensFrom(l) == TokensFrom(l.(src := rest))
  {
    assert l.src[1..] == rest;
  }

  /** An item and the space after it. */
  lemma ReadItemAndSpace(it: Item, more: string, l: Lex)
    requires ItemOk(it) && !it.Note? && l.src == RenderItem(it) + (" " + more)
    ensures Reads(l, [TokenOf(it, TakenBlank(l), l.line)], After(l, more, BreaksIn(it)))
  {
    hide Next, TokensFrom, ItemOk;
    var after := After(l, " " + more, BreaksIn(it));
    LexItem(it, " " + more, l);
    ReadsOne(l, TokenOf(it, TakenBlank(l), l.line), after);
    SkipBlank(after, ' ', more);
  }

  function NewlineToken(line: nat): Token {
    Token(Newline, "", false, 0, line)
  }

  /** The last item of a line and the line break. */
  lemma ReadLastItem(it: Item, rest: string, l: Lex)
    requires ItemOk(it) && l.src == RenderItem(it) + ("\n" + rest) && (l.atStart || l.blank == 0)
    ensures var end := l.line + BreaksIn(it);
            Reads(l, [TokenOf(it, TakenBlank(l), l.line)] + [NewlineToken(end)], Lex(rest, 0, true, end + 1))
  {
    hide ItemOk, Reads;
    var end := l.line + BreaksIn(it);
    var after := After(l, "\n" + rest, BreaksIn(it));
    LexItem(it, "\n" + rest, l);
    assert after.src[0] == '\n' && after.src[1..] == rest;
    var next := Lex(rest, 0, true, end + 1);
    assert Next(after) == Tok(NewlineToken(end), next);
    hide Next;
    ReadsOne(l, TokenOf(it, TakenBlank(l), l.line), after);
    ReadsOne(after, NewlineToken(end), next);
    ReadsThen(l, [TokenOf(it, TakenBlank(l), l.line)], after, [NewlineToken(end)], next);
  }

  lemma {:induction false} LexItems(items: seq<Item>, rest: string, l: Lex)
    requires items != [] && ItemsOk(items) && l.src == RenderItems(items) + ("\n" + rest)
    requires l.atStart || l.blank == 0
    ensures var end := l.line + LinesIn(items);
            Reads(l, ItemTokens(items, TakenBlank(l), l.line) + [NewlineToken(end)], Lex(rest, 0, true, end + 1))
    decreases |items|
  {
    hide Reads, ItemOk, RenderItem, TokenOf;
    var it, end := items[0], l.line + LinesIn(items);
    var t := TokenOf(it, TakenBlank(l), l.line);
    if |items| == 1 {
      assert items[1..] == [] && [t] + [] == [t];
      assert ItemTokens(items, TakenBlank(l), l.line) == [t];
      ReadLastItem(it, rest, l);
    } else {
      var more := RenderItems(items[1..]) + ("\n" + rest);
      var after := After(l, more, BreaksIn(it));
      RenderItemsFront(items);
      SplitRendering(RenderItem(it), RenderItems(items[1..]), "\n" + rest);
      hide RenderItems;
      ReadItemAndSpace(it, more, l);
      LexItems(items[1..], rest, after);
      var ts := ItemTokens(items[1..], 0, l.line + BreaksIn(it));
      ReadsThen(l, [t], after, ts + [NewlineToken(end)], Lex(rest, 0, true, end + 1));
      assert [t] + (ts + [NewlineToken(end)]) == ItemTokens(items, TakenBlank(l), l.line) + [NewlineToken(end)];
    }
  }

  lemma SplitRendering(a: string, b: string, c: string)
    ensures a + (" " + b) + c == a + (" " + (b + c))
  {
  }

  lemma {:induction false} SkipIndent(depth: nat, rest: string, l: Lex)
    requires l.src == Indent(depth) + rest
    ensures TokensFrom(l) == TokensFrom(l.(src := rest))
  {
    if depth == 0 {
      assert l.src == rest;
    } else {
      hide TokensFrom;
      var more := Indent(depth - 1) + rest;
      assert l.src == [' '] + ([' '] + ([' '] + ([' '] + more)));
      SkipBlank(l, ' ', [' '] + ([' '] + ([' '] + more)));
      SkipBlank(l.(src := [' '] + ([' '] + ([' '] + more))), ' ', [' '] + ([' '] + more));
      SkipBlank(l.(src := [' '] + ([' '] + more)), ' ', [' '] + more);
      SkipBlank(l.(src := [' '] + more), ' ', more);
      SkipIndent(depth - 1, rest, l.(src := more));
    }
  }

  /** The tokens of one rendered line that starts on source line `line`. */
  function LineTokens(ln: Line, line: nat): seq<Token> {
    var b := if ln.blank then 1 else 0;
    ItemTokens(ln.items, b, line + b) + [NewlineToken(line + b + LinesIn(ln.items))]
  }

  /** The source line after a rendered line. */
  function NextLine(ln: Line, line: nat): nat {
    line + (if ln.blank then 1 else 0) + LinesIn(ln.items) + 1
  }

  lemma LexLine(ln: Line, rest: string, line: nat)
    requires ln.items != [] && ItemsOk(ln.items)
    ensures Reads(Lex(RenderLine(ln) + rest, 0, true, line), LineTokens(ln, line),
                  Lex(rest, 0, true, NextLine(ln, line)))
  {
    hide TokensFrom, Reads, ItemsOk, RenderItems, RenderLine, Indent, ItemTokens, LinesIn;
    var body := RenderItems(ln.items) + ("\n" + rest);
    var b := if ln.blank then 1 else 0;
    var m := Lex(body, b, true, line + b);
    var ts, next := LineTokens(ln, line), Lex(rest, 0, true, NextLine(ln, line));
    assert Reads(m, ts, next) by {
      LexItems(ln.items, rest, m);
    }
    LexIndented(ln, rest, line);
    ReadsFrom(Lex(RenderLine(ln) + rest, 0, true, line), m, ts, next);
  }

  lemma ReadsFrom(l: Lex, m: Lex, ts: seq<Token>, next: Lex)
    requires TokensFrom(l) == TokensFrom(m) && Reads(m, ts, next)
    ensures Reads(l, ts, next)
  {
    hide TokensFrom;
  }

  /** Blank line and indentation in front of a line. */
  lemma LexIndented(ln: Line, rest: string, line: nat)
    ensures var b := if ln.blank then 1 else 0;
            TokensFrom(Lex(RenderLine(ln) + rest, 0, true, line))
            == TokensFrom(Lex(RenderItems(ln.items) + ("\n" + rest), b, true, line + b))
  {
    hide RenderItems, Indent;
    var l := Lex(RenderLine(ln) + rest, 0, true, line);
    var body := RenderItems(ln.items) + ("\n" + rest);
    var indented := Indent(ln.depth) + body;
    if ln.blank {
      assert l.src == "\n" + indented;
      assert l.src[0] == '\n' && l.src[1..] == indented;
      SkipIndent(ln.depth, body, Lex(indented, 1, true, line + 1));
    } else {
      assert l.src == indented;
      SkipIndent(ln.depth, body, l);
    }
  }

  // ----- Whole text -----

  function AllTokens(lines: seq<Line>, line: nat): seq<Token> {
    if lines == [] then [Token(EOF, "", false, 0, line)]
    else LineTokens(lines[0], line) + AllTokens(lines[1..], NextLine(lines[0], line))
  }

  lemma {:induction false} RenderFront(lines: seq<Line>)
    requires lines != []
    ensures Render(lines) == RenderLine(lines[0]) + Render(lines[1..])
  {
    hide RenderLine;
    var n := |lines|;
    if n == 1 {
      assert lines[..0] == [] && lines[1..] == [];
      assert "" + RenderLine(lines[0]) == RenderLine(lines[0]) + "";
    } else {
      var front := lines[..n - 1];
      RenderFront(front);
      assert front[1..] == lines[1..][..n - 2];
      var a, mid, z := RenderLine(lines[0]), Render(front[1..]), RenderLine(lines[n - 1]);
      assert a + mid + z == a + (mid + z);
    }
  }

  /** Scanning rendered lines gives exactly their items, line by line, and nothing else. */
  lemma {:induction false} LexLines(lines: seq<Line>, line: nat)
    requires forall i :: 0 <= i < |lines| ==> lines[i].items != [] && ItemsOk(lines[i].items)
    ensures TokensFrom(Lex(Render(lines), 0, true, line)) == Ok(AllTokens(lines, line))
  {
    if lines != [] {
      hide ItemsOk, TokensFrom, RenderLine, Render, LineTokens, NextLine;
      RenderFront(lines);
      LexLine(lines[0], Render(lines[1..]), line);
      LexLines(lines[1..], NextLine(lines[0], line));
    }
  }
}
