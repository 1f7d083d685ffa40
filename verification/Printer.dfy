/** The formatter as the source runs it (internal/cadishfile/format.go, Format): one loop over the
    tokens that appends to a builder and keeps a depth and four flags. Proved against the layout and
    rendering functions of module Formatting. */
module Printer {
  import opened Objects
  import opened Lexer
  import opened Quoting
  import opened Formatting

  /** The line being filled, as far as it is written. */
  function OpenLine(f: Fmt): string {
    if f.cur == [] then "" else (if f.curBlank then "\n" else "") + Indent(f.depth) + RenderItems(f.cur)
  }

  function Written(f: Fmt): string {
    Render(f.lines) + OpenLine(f)
  }

  lemma WrittenFlush(f: Fmt)
    ensures Written(Flush(f)) == if f.cur == [] then Written(f) else Written(f) + "\n"
  {
    if f.cur != [] {
      var ln := Line(f.curBlank, f.depth, f.cur);
      assert (f.lines + [ln])[..|f.lines|] == f.lines;
      assert RenderLine(ln) == OpenLine(f) + "\n";
      Regroup(Render(f.lines), OpenLine(f), "\n");
      assert Render(f.lines + [ln]) + "" == Render(f.lines + [ln]);
    }
  }

  /** Between lines, depth and flags do not show in the text. */
  lemma WrittenBetween(f: Fmt, depth: nat, pending: bool, suppress: bool)
    requires f.cur == []
    ensures Written(f.(depth := depth, pending := pending, suppress := suppress)) == Written(f)
  {
  }

  lemma FlushEnds(f: Fmt)
    ensures Flush(f).cur == [] && Flush(f).depth == f.depth
  {
  }

  lemma BraceEnds(f: Fmt, brace: Item, toks: seq<Token>)
    ensures AddBrace(f, brace, toks).cur == [] && AddBrace(f, brace, toks).depth == f.depth
  {
  }

  lemma WrittenAdd(f: Fmt, it: Item)
    ensures Written(Add(f, it)) ==
            if f.cur == [] then Written(f) + (if f.pending && f.lines != [] then "\n" else "") + Indent(f.depth) + RenderItem(it)
            else Written(f) + " " + RenderItem(it)
  {
    hide Render, Indent;
    if f.cur == [] {
      var head := if f.pending && f.lines != [] then "\n" else "";
      assert Render(f.lines) + "" == Render(f.lines);
      assert RenderItems([it]) == RenderItem(it);
      assert Render(f.lines) + (head + Indent(f.depth) + RenderItem(it)) == Render(f.lines) + head + Indent(f.depth) + RenderItem(it);
    } else {
      AddedItem(f.cur, it);
      var head := (if f.curBlank then "\n" else "") + Indent(f.depth);
      assert Render(f.lines) + (head + (RenderItems(f.cur) + " " + RenderItem(it)))
          == Render(f.lines) + (head + RenderItems(f.cur)) + " " + RenderItem(it);
    }
  }

  lemma AddedItem(items: seq<Item>, it: Item)
    requires items != []
    ensures RenderItems(items + [it]) == RenderItems(items) + " " + RenderItem(it)
  {
    assert (items + [it])[..|items|] == items;
  }

  /** Drops trailing line breaks. */
  function TrimNewlines(s: string): string {
    if s != [] && s[|s| - 1] == '\n' then TrimNewlines(s[..|s| - 1]) else s
  }

  /** The output ends in exactly one line break, or is empty. */
  function Finish(s: string): string {
    if TrimNewlines(s) == "" then "" else TrimNewlines(s) + "\n"
  }

  class Printer {
    var b: string
    var depth: nat
    var atLineStart: bool
    var wroteAny: bool
    var pendingBlank: bool
    var suppressBlank: bool

    /** The builder and the flags stand for a layout state. */
    ghost predicate Shows(f: Fmt)
      reads this
    {
      && b == Written(f) && depth == f.depth
      && atLineStart == (f.cur == []) && wroteAny == (f.lines != [] || f.cur != [])
      && pendingBlank == f.pending && suppressBlank == f.suppress
    }

    constructor ()
      ensures Shows(FRESH)
    {
      b, depth := "", 0;
      atLineStart, wroteAny, pendingBlank, suppressBlank := true, false, false, false;
    }

    method Indentation()
      modifies `b
      ensures b == old(b) + Indent(depth)
    {
      for i := 0 to depth
        invariant b == old(b) + Indent(i)
      {
        Regroup(old(b), Indent(i), "    ");
        IndentMore(i);
        b := b + "    ";
      }
    }

    lemma {:induction false} IndentMore(n: nat)
      ensures Indent(n) + "    " == Indent(n + 1)
    {
      if n > 0 {
        IndentMore(n - 1);
      }
    }

    /** Ends the line if something is on it. */
    method NewlineIfNeeded(ghost f: Fmt)
      requires Shows(f)
      modifies `b, `atLineStart
      ensures Shows(Flush(f))
    {
      hide Written;
      WrittenFlush(f);
      if !atLineStart {
        b := b + "\n";
        atLineStart := true;
      }
    }

    /** Begins a line: a requested blank line, then the indentation. */
    method StartLine()
      modifies this
      ensures b == old(b) + (if old(pendingBlank && wroteAny) then "\n" else "") + Indent(depth)
      ensures !atLineStart && wroteAny && !pendingBlank
      ensures depth == old(depth) && suppressBlank == old(suppressBlank)
    {
      if pendingBlank && wroteAny {
        b := b + "\n";
      }
      pendingBlank := false;
      Indentation();
      atLineStart := false;
      wroteAny := true;
    }

    /** Appends an item's text, starting a line or after a space. */
    method Write(text: string, ghost f: Fmt, ghost it: Item)
      requires Shows(f) && text == RenderItem(it)
      modifies this
      ensures Shows(Add(f, it))
    {
      hide Written, Indent;
      WrittenAdd(f, it);
      if atLineStart {
        StartLine();
      } else {
        b := b + " ";
      }
      b := b + text;
    }

    /** A brace, the comment that trails it on its own source line, and the end of the line. */
    method WriteBrace(toks: seq<Token>, i: nat, text: string, ghost f: Fmt, ghost brace: Item) returns (used: nat)
      requires i < |toks| && Shows(f) && text == RenderItem(brace)
      modifies this
      ensures Shows(AddBrace(f, brace, toks[i..]))
      ensures used == if TrailingComment(toks[i..]) then 2 else 1
    {
      hide Written, Flush;
      Write(text, f, brace);
      ghost var g := Add(f, brace);
      used := 1;
      if i + 1 < |toks| && toks[i + 1].kind == Comment && toks[i + 1].line == toks[i].line {
        var note := toks[i + 1].text;
        assert g.cur != [];
        Write(note, g, Note(note));
        g := Add(g, Note(note));
        used := 2;
      }
      NewlineIfNeeded(g);
    }

    /** The blank-line bookkeeping for a token. */
    method TrackBlanks(t: Token, ghost f: Fmt)
      requires Shows(f)
      modifies `pendingBlank, `suppressBlank
      ensures Shows(Observe(f, t))
    {
      if t.blank > 0 && atLineStart && !suppressBlank {
        pendingBlank := true;
      }
      if t.kind != Newline && !(t.kind == Semicolon && atLineStart) {
        suppressBlank := false;
      }
    }

    /** One round of the loop. */
    method PrintOpen(toks: seq<Token>, i: nat, ghost g: Fmt) returns (used: nat)
      requires i < |toks| && Shows(g)
      modifies this
      ensures Shows(AddBrace(g, Open, toks[i..]).(depth := g.depth + 1, pending := false, suppress := true))
      ensures used == if TrailingComment(toks[i..]) then 2 else 1
    {
      hide Written, Add, AddBrace, Flush, TrailingComment;
      used := WriteBrace(toks, i, "{", g, Open);
      BraceEnds(g, Open, toks[i..]);
      WrittenBetween(AddBrace(g, Open, toks[i..]), g.depth + 1, false, true);
      depth := depth + 1;
      pendingBlank := false;
      suppressBlank := true;
    }

    method PrintClose(toks: seq<Token>, i: nat, ghost h: Fmt) returns (used: nat)
      requires i < |toks| && Shows(h) && h.cur == []
      modifies this
      ensures Shows(AddBrace(h.(depth := if h.depth > 0 then h.depth - 1 else 0, pending := false), Close, toks[i..]))
      ensures used == if TrailingComment(toks[i..]) then 2 else 1
    {
      hide Written, Add, AddBrace, Flush, TrailingComment;
      if depth > 0 {
        depth := depth - 1;
      }
      pendingBlank := false;
      WrittenBetween(h, depth, false, h.suppress);
      used := WriteBrace(toks, i, "}", h.(depth := depth, pending := false), Close);
    }

    method Print(toks: seq<Token>, i: nat, ghost f: Fmt) returns (used: nat)
      requires i < |toks| && Shows(f)
      modifies this
      ensures Shows(Round(f, toks[i..]).0) && used == Round(f, toks[i..]).1
    {
      hide Written, Add, AddBrace, Flush, NeedsQuoting, TrailingComment;
      var t := toks[i];
      assert toks[i..][0] == t;
      TrackBlanks(t, f);
      ghost var g := Observe(f, t);
      used := 1;
      match t.kind {
        case EOF =>
        case Newline => NewlineIfNeeded(g);
        case Semicolon => NewlineIfNeeded(g);
        case Comment =>
          Write(t.text, g, Note(t.text));
          NewlineIfNeeded(Add(g, Note(t.text)));
        case OpenBrace =>
          used := PrintOpen(toks, i, g);
        case CloseBrace =>
          NewlineIfNeeded(g);
          FlushEnds(g);
          used := PrintClose(toks, i, Flush(g));
        case Word =>
          var text := t.text;
          var quoted := t.quoted || NeedsQuoting(t.text);
          if quoted {
            text := QuoteText(t.text);
          }
          Write(text, g, W(t.text, quoted));
      }
    }
  }

  /** All the tokens, and the single line break at the end. */
  method FormatText(toks: seq<Token>) returns (out: string)
    ensures out == Finish(FormatTokens(toks))
  {
    hide Round, Written;
    var p := new Printer();
    var i := 0;
    ghost var f := FRESH;
    assert toks[i..] == toks;
    while i < |toks|
      invariant i <= |toks| && p.Shows(f)
      invariant LayOut(f, toks[i..]) == LayOut(FRESH, toks)
    {
      LaidOutStep(f, toks, i);
      var used := p.Print(toks, i, f);
      f := Round(f, toks[i..]).0;
      i := i + used;
    }
    p.NewlineIfNeeded(f);
    WrittenAll(Flush(f));
    out := TrimNewlines(p.b);
    if out != "" {
      out := out + "\n";
    }
  }

  lemma LaidOutStep(f: Fmt, toks: seq<Token>, i: nat)
    requires i < |toks|
    ensures var (g, used) := Round(f, toks[i..]);
            i + used <= |toks| && LayOut(f, toks[i..]) == LayOut(g, toks[i + used..])
  {
    hide Round;
    var (g, used) := Round(f, toks[i..]);
    assert toks[i..][used..] == toks[i + used..];
  }

  lemma WrittenAll(f: Fmt)
    requires f.cur == []
    ensures Written(f) == Render(f.lines)
  {
  }
}
