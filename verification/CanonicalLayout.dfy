/** Every layout of scanned tokens is canonical. */
module CanonicalLayout {
  import opened Objects
  import opened Lexer
  import opened Quoting
  import opened Formatting
  import opened Relexing
  import opened Canonical

  // ----- What the scanner delivers -----

  /** A token as the scanner delivers it. */
  predicate TokenOk(t: Token) {
    match t.kind
    case Word => if t.quoted then NoControl(t.text) else WholeWord(t.text)
    case Comment => CommentText(t.text)
    case Newline => t.blank == 0
    case Semicolon => t.blank == 0
    case _ => true
  }

  lemma {:induction false} QuotedNoControl(s: string)
    ensures QuotedBody(s).Closed? ==> NoControl(QuotedBody(s).text)
  {
    if s != [] && !IsControl(s[0]) {
      if s[0] == '\\' {
        if |s| > 1 {
          QuotedNoControl(s[2..]);
        }
      } else if s[0] != '"' {
        QuotedNoControl(s[1..]);
      }
    }
  }

  lemma {:induction false} CommentChars(s: string)
    ensures forall i :: 0 <= i < CommentLen(s) ==> s[i] != '\n' && !IsControl(s[i])
  {
    if s != [] && s[0] != '\n' && !IsControl(s[0]) {
      CommentChars(s[1..]);
      forall i | 0 <= i < CommentLen(s)
        ensures s[i] != '\n' && !IsControl(s[i])
      {
        if i > 0 {
          assert s[i] == s[1..][i - 1];
        }
      }
    }
  }

  lemma {:induction false} TrimmedPrefix(t: string)
    ensures var r := TrimRight(t);
            && |r| <= |t| && r == t[..|r|]
            && (r != [] ==> r[|r| - 1] !in {' ', '\t', '\r'})
            && forall i :: |r| <= i < |t| ==> t[i] in {' ', '\t', '\r'}
  {
    if t != [] && t[|t| - 1] in {' ', '\t', '\r'} {
      TrimmedPrefix(t[..|t| - 1]);
    }
  }

  lemma CommentOk(s: string)
    requires s != [] && s[0] == '#'
    ensures CommentText(TrimRight(s[..CommentLen(s)]))
  {
    CommentProgress(s);
    CommentChars(s);
    var t := s[..CommentLen(s)];
    TrimmedPrefix(t);
    var r := TrimRight(t);
    assert r != [] && r[0] == '#';
    assert forall i :: 0 <= i < |r| ==> r[i] == s[i];
  }

  lemma {:induction false} NextTokenOk(l: Lex)
    ensures Next(l).Tok? ==> TokenOk(Next(l).token)
    decreases |l.src|
  {
    if l.src != [] {
      var c, tail := l.src[0], l.src[1..];
      CutIsWhole(l.src);
      QuotedNoControl(tail);
      if c == '#' {
        CommentOk(l.src);
      }
      hide WholeWord, CommentText, QuotedBody, WordLen, CommentLen, TrimRight;
      if c == '\n' && l.atStart {
        NextTokenOk(Lex(tail, l.blank + 1, true, l.line + 1));
      } else if IsBlank(c) && c != '\n' {
        NextTokenOk(l.(src := tail));
      } else if c == '\\' && Continuation(l.src) {
        NextTokenOk(l.(src := if l.src[1] == '\r' then l.src[3..] else l.src[2..], line := l.line + 1));
      }
    }
  }

  /** A token list as the scanner delivers it: EOF at the end and nowhere else. */
  predicate Scanned(toks: seq<Token>) {
    && toks != [] && toks[|toks| - 1].kind == EOF
    && forall i :: 0 <= i < |toks| ==> TokenOk(toks[i]) && (i < |toks| - 1 ==> toks[i].kind != EOF)
  }

  lemma {:induction false} TokensScanned(l: Lex)
    ensures TokensFrom(l).Ok? ==> Scanned(TokensFrom(l).toks)
    decreases |l.src|
  {
    hide Next, TokenOk;
    NextTokenOk(l);
    var r := Next(l);
    if r.Tok? && r.token.kind != EOF {
      NextProgress(l);
      TokensScanned(r.rest);
    }
  }

  lemma NextProgress(l: Lex)
    ensures Next(l).Tok? && Next(l).token.kind != EOF ==> |Next(l).rest.src| < |l.src|
  {
  }

  // ----- The formatter's invariant -----

  predicate WordItems(items: seq<Item>) {
    AllWords(items) && forall i :: 0 <= i < |items| ==> ItemOk(items[i])
  }

  /** The finished lines are canonical, the open line holds words only, and the flags agree. */
  predicate FmtOk(f: Fmt) {
    && Canon(f.lines) && f.depth == DepthAfter(f.lines) && !f.pending
    && WordItems(f.cur)
    && (f.cur == [] ==> f.suppress == OpensLast(f.lines) && !f.curBlank)
    && (f.cur != [] ==> !f.suppress && (f.curBlank ==> f.lines != [] && !OpensLast(f.lines)))
  }

  lemma CanonAppend(lines: seq<Line>, ln: Line)
    requires Canon(lines) && CanonLine(lines, ln)
    ensures Canon(lines + [ln])
  {
    assert (lines + [ln])[..|lines|] == lines;
  }

  /** A word token becomes an item that survives scanning. */
  lemma WordItemOk(t: Token)
    requires t.kind == Word && TokenOk(t)
    ensures ItemOk(W(t.text, t.quoted || NeedsQuoting(t.text)))
  {
    if !t.quoted {
      forall i | 0 <= i < |t.text|
        ensures !IsControl(t.text[i])
      {
        NotBlankInside(t.text, i);
      }
    }
  }

  /** The three ends of a line of words: nothing, a comment, an opening brace and perhaps a comment. */
  predicate Tail(tail: seq<Item>) {
    || tail == []
    || (|tail| == 1 && (tail[0] == Open || (tail[0].Note? && ItemOk(tail[0]))))
    || (|tail| == 2 && tail[0] == Open && tail[1].Note? && ItemOk(tail[1]))
  }

  lemma BracesOk()
    ensures ItemOk(Open) && ItemOk(Close)
  {
  }

  lemma LineShape(ws: seq<Item>, tail: seq<Item>)
    requires WordItems(ws) && Tail(tail) && ws + tail != []
    ensures Shape(ws + tail) && ItemsOk(ws + tail) && !Closes(ws + tail)
    ensures Opens(ws + tail) <==> tail != [] && tail[0] == Open
  {
    hide ItemOk;
    BracesOk();
    assert |ws| > 0 ==> ws[0].W?;
    var items := ws + tail;
    if tail != [] && tail[|tail| - 1].Note? {
      assert Body(items) == ws + tail[..|tail| - 1];
      if |tail| == 2 {
        assert Body(items)[..|ws|] == ws;
      } else {
        assert Body(items) == ws;
      }
    } else if tail == [] {
      assert items == ws;
      assert Body(items) == ws;
    } else {
      assert Body(items) == items && items[..|ws|] == ws;
    }
  }

  lemma CloseShape(tail: seq<Item>)
    requires tail == [] || (|tail| == 1 && tail[0].Note? && ItemOk(tail[0]))
    ensures Shape([Close] + tail) && ItemsOk([Close] + tail) && Closes([Close] + tail) && !Opens([Close] + tail)
  {
    hide ItemOk;
    BracesOk();
    var items := [Close] + tail;
    if tail == [] {
      assert items == [Close];
    } else {
      assert Body(items) == [Close];
    }
  }

  /** Finishing the open line with a tail keeps the lines canonical. */
  lemma FinishLine(f: Fmt, tail: seq<Item>, blank: bool)
    requires FmtOk(f) && Tail(tail) && f.cur + tail != []
    requires blank ==> f.lines != [] && !OpensLast(f.lines)
    ensures var lines := f.lines + [Line(blank, f.depth, f.cur + tail)];
            && Canon(lines)
            && (OpensLast(lines) <==> tail != [] && tail[0] == Open)
            && DepthAfter(lines) == f.depth + (if tail != [] && tail[0] == Open then 1 else 0)
  {
    hide Shape, ItemsOk, Opens, Closes, WordItems, Tail, Canon;
    LineShape(f.cur, tail);
    var ln := Line(blank, f.depth, f.cur + tail);
    CanonAppend(f.lines, ln);
    assert (f.lines + [ln])[|f.lines|] == ln;
  }

  lemma FlushOk(f: Fmt)
    requires FmtOk(f)
    ensures FmtOk(Flush(f)) && Flush(f).cur == []
  {
    hide Canon, OpensLast, DepthAfter;
    if f.cur != [] {
      assert f.cur + [] == f.cur;
      FinishLine(f, [], f.curBlank);
    }
  }

  // ----- One round -----

  /** The comment that goes with a brace, if any. */
  function TailNote(toks: seq<Token>): seq<Item> {
    if TrailingComment(toks) then [Note(toks[1].text)] else []
  }

  lemma AddBraceLine(f: Fmt, brace: Item, toks: seq<Token>)
    ensures AddBrace(f, brace, toks)
            == f.(lines := f.lines + [Line(if f.cur == [] then f.pending && f.lines != [] else f.curBlank,
                                           f.depth, f.cur + ([brace] + TailNote(toks)))],
                  cur := [], curBlank := false, pending := if f.cur == [] then false else f.pending)
  {
    var note := TailNote(toks);
    if f.cur == [] {
      assert f.cur + ([brace] + note) == [brace] + note;
      assert note == [] ==> [brace] + note == [brace];
    } else {
      assert f.cur + ([brace] + note) == f.cur + [brace] + note;
      assert note == [] ==> f.cur + [brace] + note == f.cur + [brace];
    }
  }

  lemma TailNoteOk(toks: seq<Token>)
    requires forall i :: 0 <= i < |toks| ==> TokenOk(toks[i])
    ensures Tail([Open] + TailNote(toks))
    ensures TailNote(toks) == [] || (|TailNote(toks)| == 1 && TailNote(toks)[0].Note? && ItemOk(TailNote(toks)[0]))
  {
    hide CommentText, WholeWord;
    if TrailingComment(toks) {
      assert TokenOk(toks[1]);
    }
  }

  lemma OpenKeepsOk(f: Fmt, toks: seq<Token>)
    requires FmtOk(f) && toks != [] && toks[0].kind == OpenBrace && forall i :: 0 <= i < |toks| ==> TokenOk(toks[i])
    ensures FmtOk(Round(f, toks).0)
  {
    hide Canon, OpensLast, DepthAfter, WordItems, Tail, AddBrace, TokenOk, TailNote;
    EmptyWords();
    TailNoteOk(toks);
    var g := Observe(f, toks[0]);
    AddBraceLine(g, Open, toks);
    FinishLine(f, [Open] + TailNote(toks), if f.cur == [] then g.pending && f.lines != [] else f.curBlank);
  }

  lemma EmptyWords()
    ensures WordItems([])
  {
  }

  lemma CloseKeepsOk(f: Fmt, toks: seq<Token>)
    requires FmtOk(f) && toks != [] && toks[0].kind == CloseBrace && forall i :: 0 <= i < |toks| ==> TokenOk(toks[i])
    ensures FmtOk(Round(f, toks).0)
  {
    hide Canon, OpensLast, DepthAfter, WordItems, Tail, AddBrace, TokenOk, TailNote, Flush;
    EmptyWords();
    TailNoteOk(toks);
    var g := Observe(f, toks[0]);
    FlushOk(f);
    FlushIgnoresFlags(f, g.pending, g.suppress);
    var h := Flush(f);
    var d := if h.depth > 0 then h.depth - 1 else 0;
    var k := h.(depth := d, pending := false, suppress := false);
    AddBraceLine(k, Close, toks);
    CloseLine(h, TailNote(toks), d);
    assert [] + ([Close] + TailNote(toks)) == [Close] + TailNote(toks);
  }

  lemma FlushIgnoresFlags(f: Fmt, pending: bool, suppress: bool)
    ensures Flush(f.(pending := pending, suppress := suppress)) == Flush(f).(pending := pending, suppress := suppress)
  {
  }

  lemma CloseLine(h: Fmt, note: seq<Item>, d: nat)
    requires FmtOk(h) && h.cur == [] && d == if h.depth > 0 then h.depth - 1 else 0
    requires note == [] || (|note| == 1 && note[0].Note? && ItemOk(note[0]))
    ensures var lines := h.lines + [Line(false, d, [Close] + note)];
            Canon(lines) && !OpensLast(lines) && DepthAfter(lines) == d
  {
    hide Shape, ItemsOk, Opens, Closes, Canon, ItemOk, WordItems;
    CloseShape(note);
    var ln := Line(false, d, [Close] + note);
    CanonAppend(h.lines, ln);
    assert (h.lines + [ln])[|h.lines|] == ln;
  }

  lemma WordKeepsOk(f: Fmt, toks: seq<Token>)
    requires FmtOk(f) && toks != [] && toks[0].kind == Word && TokenOk(toks[0])
    ensures FmtOk(Round(f, toks).0)
  {
    hide Canon, OpensLast, DepthAfter, TokenOk, ItemOk, NeedsQuoting;
    WordItemOk(toks[0]);
  }

  lemma CommentKeepsOk(f: Fmt, toks: seq<Token>)
    requires FmtOk(f) && toks != [] && toks[0].kind == Comment && TokenOk(toks[0])
    ensures FmtOk(Round(f, toks).0)
  {
    hide Canon, OpensLast, DepthAfter, WordItems, Tail;
    EmptyWords();
    var note := Note(toks[0].text);
    NoteTail(note);
    var g := Observe(f, toks[0]);
    FinishLine(f, [note], if f.cur == [] then g.pending && f.lines != [] else f.curBlank);
    assert f.cur == [] ==> f.cur + [note] == [note];
  }

  lemma NoteTail(note: Item)
    requires note.Note? && ItemOk(note)
    ensures Tail([note])
  {
  }

  lemma BreakKeepsOk(f: Fmt, toks: seq<Token>)
    requires FmtOk(f) && toks != [] && toks[0].kind in {Newline, Semicolon} && toks[0].blank == 0
    ensures FmtOk(Round(f, toks).0)
  {
    hide Canon, OpensLast, DepthAfter, WordItems;
    var g := Observe(f, toks[0]);
    assert g == f;
    FlushOk(f);
  }

  lemma RoundKeepsOk(f: Fmt, toks: seq<Token>)
    requires FmtOk(f) && toks != [] && toks[0].kind != EOF && forall i :: 0 <= i < |toks| ==> TokenOk(toks[i])
    ensures FmtOk(Round(f, toks).0)
  {
    hide FmtOk, Round;
    match toks[0].kind
    case Newline => BreakKeepsOk(f, toks);
    case Semicolon => BreakKeepsOk(f, toks);
    case Comment => CommentKeepsOk(f, toks);
    case OpenBrace => OpenKeepsOk(f, toks);
    case CloseBrace => CloseKeepsOk(f, toks);
    case Word => WordKeepsOk(f, toks);
  }

  /** The layout of any scanned token list is canonical. */
  lemma {:induction false} LayOutCanon(f: Fmt, toks: seq<Token>)
    requires FmtOk(f) && Scanned(toks)
    ensures Canon(LayOut(f, toks))
    decreases |toks|
  {
    hide FmtOk, TokenOk, Round, LayOut, Canon, Scanned;
    ScannedStart(toks);
    if toks[0].kind == EOF {
      EndCanon(f, toks);
    } else {
      RoundKeepsOk(f, toks);
      RoundUse(f, toks);
      LayOutStep(f, toks);
      ScannedTail(toks, Round(f, toks).1);
      LayOutCanon(Round(f, toks).0, toks[Round(f, toks).1..]);
    }
  }

  lemma ScannedStart(toks: seq<Token>)
    requires Scanned(toks)
    ensures toks != [] && forall i :: 0 <= i < |toks| ==> TokenOk(toks[i])
  {
    hide TokenOk;
  }

  lemma ScannedTail(toks: seq<Token>, used: nat)
    requires Scanned(toks) && used < |toks|
    ensures Scanned(toks[used..])
  {
    hide TokenOk;
  }

  lemma LayOutStep(f: Fmt, toks: seq<Token>)
    requires toks != []
    ensures LayOut(f, toks) == LayOut(Round(f, toks).0, toks[Round(f, toks).1..])
  {
    hide Round;
  }

  lemma RoundUse(f: Fmt, toks: seq<Token>)
    requires Scanned(toks) && toks[0].kind != EOF
    ensures 1 <= Round(f, toks).1 < |toks|
  {
    hide TokenOk;
  }

  lemma EndCanon(f: Fmt, toks: seq<Token>)
    requires FmtOk(f) && Scanned(toks) && toks[0].kind == EOF
    ensures Canon(LayOut(f, toks))
  {
    hide Canon, OpensLast, DepthAfter, WordItems, TokenOk;
    assert toks[1..] == [];
    FlushOk(f);
    var g := Observe(f, toks[0]);
    FlushIgnoresFlags(f, g.pending, g.suppress);
  }
}
