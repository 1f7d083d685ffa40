/** Canonical lines: what every layout produces, and what laying out again leaves alone. */
module Canonical {
  import opened Objects
  import opened Lexer
  import opened Quoting
  import opened Formatting
  import opened Relexing

  predicate AllWords(items: seq<Item>) {
    forall i :: 0 <= i < |items| ==> items[i].W?
  }

  /** The items without a final comment. */
  function Body(items: seq<Item>): seq<Item> {
    if items != [] && items[|items| - 1].Note? then items[..|items| - 1] else items
  }

  predicate Opens(items: seq<Item>) {
    var b := Body(items);
    b != [] && b[|b| - 1] == Open
  }

  predicate Closes(items: seq<Item>) {
    Body(items) == [Close]
  }

  /** The four kinds of line, each possibly ending in a comment: words, words and an opening brace, a
      closing brace, or the comment alone. */
  predicate Shape(items: seq<Item>) {
    var b := Body(items);
    && items != []
    && (AllWords(b) || b == [Close] || (b != [] && b[|b| - 1] == Open && AllWords(b[..|b| - 1])))
  }

  predicate OpensLast(lines: seq<Line>) {
    lines != [] && Opens(lines[|lines| - 1].items)
  }

  /** The nesting depth after these lines. */
  function DepthAfter(lines: seq<Line>): nat {
    if lines == [] then 0
    else lines[|lines| - 1].depth + (if OpensLast(lines) then 1 else 0)
  }

  /** A line in place after `before`: well shaped, indented to its depth, and preceded by a blank line
      only where the formatter leaves one. */
  predicate CanonLine(before: seq<Line>, ln: Line) {
    var d := DepthAfter(before);
    && Shape(ln.items)
    && ItemsOk(ln.items)
    && ln.depth == (if Closes(ln.items) && d > 0 then d - 1 else d)
    && (ln.blank ==> before != [] && !OpensLast(before) && !Closes(ln.items))
  }

  predicate Canon(lines: seq<Line>) {
    lines == [] || (Canon(lines[..|lines| - 1]) && CanonLine(lines[..|lines| - 1], lines[|lines| - 1]))
  }

  // ----- Laying canonical lines out again -----

  /** The formatter's state between lines. */
  function At(lines: seq<Line>): Fmt {
    Fmt(DepthAfter(lines), lines, [], false, false, OpensLast(lines))
  }

  lemma OneRound(f: Fmt, t: Token, ts: seq<Token>)
    requires t.kind != OpenBrace && t.kind != CloseBrace
    ensures Round(f, [t] + ts).1 == 1
    ensures LayOut(f, [t] + ts) == LayOut(Round(f, [t] + ts).0, ts)
  {
    assert ([t] + ts)[1..] == ts;
  }

  /** The state after items went onto the line, which they may have started. */
  function WithItems(f: Fmt, ws: seq<Item>, blank: nat): Fmt {
    if ws == [] then f
    else f.(cur := f.cur + ws,
            curBlank := if f.cur == [] then blank > 0 && !f.suppress && f.lines != [] else f.curBlank,
            pending := false,
            suppress := false)
  }

  lemma {:induction false} WordsLaidOut(f: Fmt, ws: seq<Item>, blank: nat, line: nat, ts: seq<Token>)
    requires AllWords(ws) && forall i :: 0 <= i < |ws| ==> ItemOk(ws[i])
    requires !f.pending && (f.cur != [] ==> blank == 0)
    ensures LayOut(f, ItemTokens(ws, blank, line) + ts) == LayOut(WithItems(f, ws, blank), ts)
    decreases |ws|
  {
    hide ItemOk, LayOut;
    var toks := ItemTokens(ws, blank, line);
    if ws == [] {
      assert toks + ts == ts;
    } else {
      var t, rest := TokenOf(ws[0], blank, line), ItemTokens(ws[1..], 0, line + BreaksIn(ws[0]));
      assert toks + ts == [t] + (rest + ts);
      OneRound(f, t, rest + ts);
      WordRound(f, ws[0], blank, line, rest + ts);
      var g := WithItems(f, [ws[0]], blank);
      WordsLaidOut(g, ws[1..], 0, line + BreaksIn(ws[0]), ts);
      assert f.cur + [ws[0]] + ws[1..] == f.cur + ws;
      assert WithItems(g, ws[1..], 0) == WithItems(f, ws, blank);
    }
  }

  lemma WordRound(f: Fmt, w: Item, blank: nat, line: nat, ts: seq<Token>)
    requires w.W? && ItemOk(w) && !f.pending && (f.cur != [] ==> blank == 0)
    ensures Round(f, [TokenOf(w, blank, line)] + ts).0 == WithItems(f, [w], blank)
  {
    assert w.quoted || !NeedsQuoting(w.text);
    hide WholeWord, NeedsQuoting;
    if f.cur == [] {
      assert f.cur + [w] == [w];
    }
  }

  lemma {:induction false} LinesConcat(a: seq<Item>, b: seq<Item>)
    ensures LinesIn(a + b) == LinesIn(a) + LinesIn(b)
  {
    if a == [] {
      assert a + b == b;
    } else {
      assert (a + b)[1..] == a[1..] + b;
      LinesConcat(a[1..], b);
    }
  }

  lemma {:induction false} ItemTokensConcat(a: seq<Item>, b: seq<Item>, blank: nat, line: nat)
    ensures ItemTokens(a + b, blank, line)
            == ItemTokens(a, blank, line) + ItemTokens(b, if a == [] then blank else 0, line + LinesIn(a))
  {
    hide TokenOf, BreaksIn, ItemTokens, LinesIn;
    if a == [] {
      NoTail(blank, line, ItemTokens(a + b, blank, line));
      assert a + b == b;
    } else {
      var next := line + BreaksIn(a[0]);
      assert [a[0]] + a[1..] == a && [a[0]] + (a[1..] + b) == a + b;
      ItemTokensCons(a[0], a[1..], blank, line);
      ItemTokensCons(a[0], a[1..] + b, blank, line);
      ItemTokensConcat(a[1..], b, 0, next);
      TokenRegroup([TokenOf(a[0], blank, line)], ItemTokens(a[1..], 0, next), ItemTokens(b, 0, line + LinesIn(a)));
    }
  }

  lemma ItemTokensCons(it: Item, rest: seq<Item>, blank: nat, line: nat)
    ensures ItemTokens([it] + rest, blank, line)
            == [TokenOf(it, blank, line)] + ItemTokens(rest, 0, line + BreaksIn(it))
    ensures LinesIn([it] + rest) == BreaksIn(it) + LinesIn(rest)
  {
    assert ([it] + rest)[1..] == rest;
  }

  lemma TokenRegroup(a: seq<Token>, b: seq<Token>, c: seq<Token>)
    ensures a + b + c == a + (b + c)
  {
  }

  lemma NoTail(blank: nat, m: nat, x: seq<Token>)
    ensures ItemTokens([], blank, m) + x == x
    ensures LinesIn([]) == 0
  {
  }

  /** A line break after the words of a line. */
  lemma EndPlain(g: Fmt, line: nat, ts: seq<Token>)
    requires !g.pending
    ensures LayOut(g, [NewlineToken(line)] + ts) == LayOut(Flush(g), ts)
  {
    OneRound(g, NewlineToken(line), ts);
    hide LayOut;
    assert Observe(g, NewlineToken(line)) == g;
  }

  /** A comment ending a line, or alone on it. */
  lemma EndNote(g: Fmt, note: Item, blank: nat, line: nat, ts: seq<Token>)
    requires note.Note? && !g.pending && (g.cur != [] ==> blank == 0)
    ensures LayOut(g, [TokenOf(note, blank, line)] + ([NewlineToken(line)] + ts))
            == LayOut(Flush(WithItems(g, [note], blank)), ts)
  {
    var t, more := TokenOf(note, blank, line), [NewlineToken(line)] + ts;
    OneRound(g, t, more);
    hide LayOut;
    if g.cur == [] {
      assert g.cur + [note] == [note];
    }
    var h := Flush(WithItems(g, [note], blank));
    assert Round(g, [t] + more).0 == h;
    EndPlain(h, line, ts);
    assert Flush(h) == h;
  }

  /** The tokens of a brace and its comment, if any, up to the line break. */
  function BraceTokens(brace: Item, note: Option<Item>, blank: nat, line: nat): seq<Token> {
    if note == None then [TokenOf(brace, blank, line)]
    else [TokenOf(brace, blank, line)] + [TokenOf(note.value, 0, line)]
  }

  function BraceItems(brace: Item, note: Option<Item>): seq<Item> {
    if note == None then [brace] else [brace] + [note.value]
  }

  lemma BraceLookahead(brace: Item, note: Option<Item>, blank: nat, line: nat, ts: seq<Token>)
    requires (brace == Open || brace == Close) && (note.Some? ==> note.value.Note?)
    ensures var toks := BraceTokens(brace, note, blank, line) + ([NewlineToken(line)] + ts);
            && toks != [] && toks[0] == TokenOf(brace, blank, line)
            && (TrailingComment(toks) <==> note.Some?)
            && (note.Some? ==> toks[1].text == note.value.text)
            && toks[if note.Some? then 2 else 1..] == [NewlineToken(line)] + ts
  {
  }

  lemma AddBraceItems(f: Fmt, brace: Item, note: Option<Item>, toks: seq<Token>)
    requires note.Some? ==> note.value.Note?
    requires TrailingComment(toks) <==> note.Some?
    requires note.Some? ==> toks[1].text == note.value.text
    ensures AddBrace(f, brace, toks)
            == Flush(f.(cur := f.cur + BraceItems(brace, note),
                        curBlank := if f.cur == [] then f.pending && f.lines != [] else f.curBlank,
                        pending := if f.cur == [] then false else f.pending))
  {
    if f.cur == [] {
      assert f.cur + BraceItems(brace, note) == BraceItems(brace, note);
    } else if note.Some? {
      assert f.cur + [brace] + [note.value] == f.cur + BraceItems(brace, note);
    }
  }

  lemma EndOpen(g: Fmt, note: Option<Item>, blank: nat, line: nat, ts: seq<Token>)
    requires (note.Some? ==> note.value.Note?) && !g.pending && (g.cur != [] ==> blank == 0)
    ensures LayOut(g, BraceTokens(Open, note, blank, line) + ([NewlineToken(line)] + ts))
            == LayOut(Flush(WithItems(g, BraceItems(Open, note), blank)).(depth := g.depth + 1, suppress := true), ts)
  {
    var toks := BraceTokens(Open, note, blank, line) + ([NewlineToken(line)] + ts);
    BraceLookahead(Open, note, blank, line, ts);
    var o := Observe(g, toks[0]);
    AddBraceItems(o, Open, note, toks);
    var h := Flush(WithItems(g, BraceItems(Open, note), blank)).(depth := g.depth + 1, suppress := true);
    assert Round(g, toks).0 == h;
    assert LayOut(g, toks) == LayOut(h, [NewlineToken(line)] + ts);
    hide LayOut;
    EndPlain(h, line, ts);
    assert Flush(h) == h;
  }

  lemma CloseRound(g: Fmt, toks: seq<Token>)
    requires toks != [] && toks[0].kind == CloseBrace && toks[0].blank == 0 && !g.pending && g.cur == []
    ensures var d := if g.depth > 0 then g.depth - 1 else 0;
            Round(g, toks).0 == AddBrace(g.(depth := d, suppress := false), Close, toks)
    ensures Round(g, toks).1 == if TrailingComment(toks) then 2 else 1
  {
    hide AddBrace, TrailingComment;
  }

  lemma EndClose(g: Fmt, note: Option<Item>, line: nat, ts: seq<Token>)
    requires (note.Some? ==> note.value.Note?) && !g.pending && g.cur == []
    ensures var d := if g.depth > 0 then g.depth - 1 else 0;
            LayOut(g, BraceTokens(Close, note, 0, line) + ([NewlineToken(line)] + ts))
            == LayOut(Flush(WithItems(g.(depth := d), BraceItems(Close, note), 0)), ts)
  {
    var toks := BraceTokens(Close, note, 0, line) + ([NewlineToken(line)] + ts);
    var d := if g.depth > 0 then g.depth - 1 else 0;
    BraceLookahead(Close, note, 0, line, ts);
    CloseRound(g, toks);
    AddBraceItems(g.(depth := d, suppress := false), Close, note, toks);
    hide AddBrace, BraceTokens, TrailingComment, Round;
    var h := Flush(WithItems(g.(depth := d), BraceItems(Close, note), 0));
    assert LayOut(g, toks) == LayOut(h, [NewlineToken(line)] + ts);
    hide LayOut;
    EndPlain(h, line, ts);
    assert Flush(h) == h;
  }

  lemma WithItemsConcat(f: Fmt, a: seq<Item>, c: seq<Item>, blank: nat)
    requires f.cur == []
    ensures WithItems(WithItems(f, a, blank), c, if a == [] then blank else 0) == WithItems(f, a + c, blank)
  {
    if a == [] {
      assert a + c == c;
    } else {
      assert f.cur + a + c == f.cur + (a + c);
      assert a + [] == a;
    }
  }

  function BlankOf(ln: Line): nat {
    if ln.blank then 1 else 0
  }

  /** A canonical line that opens no block, flushed from the state before it. */
  lemma FlushedAt(before: seq<Line>, ln: Line)
    requires CanonLine(before, ln) && !Closes(ln.items)
    ensures var h := Flush(WithItems(At(before), ln.items, BlankOf(ln)));
            At(before + [ln]) == if Opens(ln.items) then h.(depth := h.depth + 1, suppress := true) else h
  {
    hide Shape, ItemsOk;
    assert ln.items != [] by { ShapeNonEmpty(ln.items); }
    var items := ln.items;
    assert [] + items == items;
    assert (before + [ln])[|before|] == ln;
  }

  lemma ShapeNonEmpty(items: seq<Item>)
    requires Shape(items)
    ensures items != []
  {
  }

  lemma FlushedCloseAt(before: seq<Line>, ln: Line)
    requires CanonLine(before, ln) && Closes(ln.items)
    ensures Flush(WithItems(At(before).(depth := ln.depth), ln.items, 0)) == At(before + [ln])
  {
    hide Shape, ItemsOk;
    assert ln.items != [] by { ShapeNonEmpty(ln.items); }
    assert [] + ln.items == ln.items;
    assert (before + [ln])[|before|] == ln;
    assert !Opens(ln.items);
  }

  lemma WordsOk(items: seq<Item>)
    requires ItemsOk(items)
    ensures forall i :: 0 <= i < |Body(items)| ==> ItemOk(Body(items)[i])
    ensures Body(items) != items ==> items[|items| - 1].Note? && ItemOk(items[|items| - 1])
  {
    hide ItemOk;
  }

  /** The tokens of a line whose last items, `c`, hold no line break. */
  lemma LineTokensSplit(ln: Line, line: nat, a: seq<Item>, c: seq<Item>, ts: seq<Token>)
    requires ln.items == a + c && LinesIn(c) == 0
    ensures var bl := BlankOf(ln);
            var m := line + bl + LinesIn(a);
            LineTokens(ln, line) + ts
            == ItemTokens(a, bl, line + bl)
               + (ItemTokens(c, if a == [] then bl else 0, m) + ([NewlineToken(m)] + ts))
  {
    hide ItemTokens, LinesIn;
    var bl := BlankOf(ln);
    var m := line + bl + LinesIn(a);
    ItemTokensConcat(a, c, bl, line + bl);
    LinesConcat(a, c);
    var x, y := ItemTokens(a, bl, line + bl), ItemTokens(c, if a == [] then bl else 0, m);
    assert LineTokens(ln, line) == x + y + [NewlineToken(m)];
  }

  /** Words, then items that `end` lays out: the common part of the line kinds. */
  lemma WordsThen(before: seq<Line>, ln: Line, line: nat, ws: seq<Item>, c: seq<Item>, ts: seq<Token>)
    requires ln.items == ws + c && LinesIn(c) == 0 && AllWords(ws)
    requires forall i :: 0 <= i < |ws| ==> ItemOk(ws[i])
    ensures var bl := BlankOf(ln);
            var m := line + bl + LinesIn(ws);
            LayOut(At(before), LineTokens(ln, line) + ts)
            == LayOut(WithItems(At(before), ws, bl),
                      ItemTokens(c, if ws == [] then bl else 0, m) + ([NewlineToken(m)] + ts))
  {
    hide LayOut, ItemTokens, LinesIn, ItemOk, LineTokens;
    var bl := BlankOf(ln);
    var m := line + bl + LinesIn(ws);
    LineTokensSplit(ln, line, ws, c, ts);
    WordsLaidOut(At(before), ws, bl, line + bl,
                 ItemTokens(c, if ws == [] then bl else 0, m) + ([NewlineToken(m)] + ts));
  }

  lemma StateFacts(before: seq<Line>, ws: seq<Item>, blank: nat)
    ensures At(before).cur == []
    ensures var g := WithItems(At(before), ws, blank);
            !g.pending && g.cur == ws && g.depth == At(before).depth
  {
    assert [] + ws == ws;
  }

  lemma PlainFacts(before: seq<Line>, ln: Line)
    requires CanonLine(before, ln) && AllWords(Body(ln.items))
    ensures At(before + [ln]) == Flush(WithItems(At(before), ln.items, BlankOf(ln)))
    ensures forall i :: 0 <= i < |Body(ln.items)| ==> ItemOk(Body(ln.items)[i])
    ensures AllWords(ln.items) ==> Body(ln.items) == ln.items && ln.items + [] == ln.items
    ensures Body(ln.items) != ln.items ==>
              ln.items != [] && ln.items[|ln.items| - 1].Note? && ln.items == Body(ln.items) + [ln.items[|ln.items| - 1]]
  {
    hide At, Flush, WithItems, Shape, ItemsOk, ItemOk, Body, BlankOf, AllWords;
    BodyFacts(ln.items);
    FlushedAt(before, ln);
    WordsOk(ln.items);
  }

  lemma BodyFacts(items: seq<Item>)
    requires AllWords(Body(items))
    ensures !Closes(items) && !Opens(items)
    ensures AllWords(items) ==> Body(items) == items && items + [] == items
    ensures Body(items) != items ==>
              items != [] && items[|items| - 1].Note? && items == Body(items) + [items[|items| - 1]]
  {
    assert Body(items) != [] ==> Body(items)[0].W? && Body(items)[|Body(items)| - 1].W?;
  }

  lemma PlainLineLaidOut(before: seq<Line>, ln: Line, line: nat, ts: seq<Token>)
    requires CanonLine(before, ln) && AllWords(Body(ln.items)) && AllWords(ln.items)
    ensures LayOut(At(before), LineTokens(ln, line) + ts) == LayOut(At(before + [ln]), ts)
  {
    hide LayOut, CanonLine, ItemOk, LineTokens, At, WithItems, Flush, ItemTokens, LinesIn, Body;
    var ws, bl := ln.items, BlankOf(ln);
    PlainFacts(before, ln);
    StateFacts(before, ws, bl);
    var m := line + bl + LinesIn(ws);
    NoTail(if ws == [] then bl else 0, m, [NewlineToken(m)] + ts);
    WordsThen(before, ln, line, ws, [], ts);
    EndPlain(WithItems(At(before), ws, bl), m, ts);
  }

  lemma OneNote(note: Item, blank: nat, m: nat)
    requires note.Note?
    ensures ItemTokens([note], blank, m) == [TokenOf(note, blank, m)]
    ensures LinesIn([note]) == 0
  {
    assert [note][1..] == [];
    assert [TokenOf(note, blank, m)] + [] == [TokenOf(note, blank, m)];
  }

  lemma CommentLineLaidOut(before: seq<Line>, ln: Line, line: nat, ts: seq<Token>)
    requires CanonLine(before, ln) && AllWords(Body(ln.items)) && Body(ln.items) != ln.items
    ensures LayOut(At(before), LineTokens(ln, line) + ts) == LayOut(At(before + [ln]), ts)
  {
    hide LayOut, CanonLine, ItemOk, LineTokens, At, WithItems, Flush, ItemTokens, LinesIn, Body;
    PlainFacts(before, ln);
    var ws, note, bl := Body(ln.items), ln.items[|ln.items| - 1], BlankOf(ln);
    StateFacts(before, ws, bl);
    var bl' := if ws == [] then bl else 0;
    var m := line + bl + LinesIn(ws);
    OneNote(note, bl', m);
    WordsThen(before, ln, line, ws, [note], ts);
    EndNote(WithItems(At(before), ws, bl), note, bl', m, ts);
    WithItemsConcat(At(before), ws, [note], bl);
  }

  lemma BraceItemTokens(brace: Item, note: Option<Item>, blank: nat, line: nat)
    requires (brace == Open || brace == Close) && (note.Some? ==> note.value.Note?)
    ensures ItemTokens(BraceItems(brace, note), blank, line) == BraceTokens(brace, note, blank, line)
    ensures LinesIn(BraceItems(brace, note)) == 0
  {
    var items := BraceItems(brace, note);
    if note.Some? {
      OneNote(note.value, 0, line);
      assert items[1..] == [note.value];
      assert LinesIn(items) == BreaksIn(brace) + LinesIn([note.value]);
    } else {
      assert items[1..] == [];
      assert [TokenOf(brace, blank, line)] + [] == [TokenOf(brace, blank, line)];
    }
  }

  /** The optional comment at the end of a line. */
  function NoteOf(items: seq<Item>): Option<Item> {
    if items != [] && items[|items| - 1].Note? then Some(items[|items| - 1]) else None
  }

  lemma OpenSplit(items: seq<Item>)
    requires Opens(items)
    ensures var ws := Body(items)[..|Body(items)| - 1];
            items == ws + BraceItems(Open, NoteOf(items))
    ensures NoteOf(items).Some? ==> NoteOf(items).value.Note?
    ensures !Closes(items)
  {
    var b := Body(items);
    assert b == b[..|b| - 1] + [Open];
    if b != items {
      assert items == b + [items[|items| - 1]];
    }
  }

  lemma OpenState(before: seq<Line>, ln: Line)
    requires CanonLine(before, ln) && Opens(ln.items) && !Closes(ln.items)
    ensures var h := Flush(WithItems(At(before), ln.items, BlankOf(ln)));
            At(before + [ln]) == h.(depth := At(before).depth + 1, suppress := true)
  {
    hide Opens, Closes, Shape, ItemsOk, At;
    FlushedAt(before, ln);
    StateFacts(before, ln.items, BlankOf(ln));
    FlushDepth(WithItems(At(before), ln.items, BlankOf(ln)));
  }

  lemma OpenFacts(before: seq<Line>, ln: Line)
    requires CanonLine(before, ln) && Opens(ln.items)
    ensures var h := Flush(WithItems(At(before), ln.items, BlankOf(ln)));
            At(before + [ln]) == h.(depth := At(before).depth + 1, suppress := true)
    ensures var ws := Body(ln.items)[..|Body(ln.items)| - 1];
            && (forall i :: 0 <= i < |ws| ==> ItemOk(ws[i]))
            && ln.items == ws + BraceItems(Open, NoteOf(ln.items))
    ensures NoteOf(ln.items).Some? ==> NoteOf(ln.items).value.Note?
  {
    hide At, Flush, WithItems, BraceItems, ItemOk, Shape, NoteOf;
    OpenSplit(ln.items);
    OpenState(before, ln);
    WordsOk(ln.items);
  }

  lemma OpenLineLaidOut(before: seq<Line>, ln: Line, line: nat, ts: seq<Token>)
    requires CanonLine(before, ln) && Opens(ln.items) && AllWords(Body(ln.items)[..|Body(ln.items)| - 1])
    ensures LayOut(At(before), LineTokens(ln, line) + ts) == LayOut(At(before + [ln]), ts)
  {
    hide LayOut, CanonLine, ItemOk, LineTokens, At, WithItems, Flush, ItemTokens, LinesIn, BraceTokens, BraceItems, NoteOf;
    OpenFacts(before, ln);
    var ws, note, bl := Body(ln.items)[..|Body(ln.items)| - 1], NoteOf(ln.items), BlankOf(ln);
    StateFacts(before, ws, bl);
    var bl' := if ws == [] then bl else 0;
    var m := line + bl + LinesIn(ws);
    BraceItemTokens(Open, note, bl', m);
    WordsThen(before, ln, line, ws, BraceItems(Open, note), ts);
    EndOpen(WithItems(At(before), ws, bl), note, bl', m, ts);
    WithItemsConcat(At(before), ws, BraceItems(Open, note), bl);
  }

  lemma FlushDepth(f: Fmt)
    ensures Flush(f).depth == f.depth
  {
  }

  lemma CloseFacts(before: seq<Line>, ln: Line)
    requires CanonLine(before, ln) && Closes(ln.items)
    ensures var d := if At(before).depth > 0 then At(before).depth - 1 else 0;
            Flush(WithItems(At(before).(depth := d), ln.items, 0)) == At(before + [ln])
    ensures BlankOf(ln) == 0 && ln.items == BraceItems(Close, NoteOf(ln.items)) == [] + BraceItems(Close, NoteOf(ln.items))
    ensures NoteOf(ln.items).Some? ==> NoteOf(ln.items).value.Note?
    ensures WithItems(At(before), [], 0) == At(before)
  {
    FlushedCloseAt(before, ln);
  }

  lemma CloseLineLaidOut(before: seq<Line>, ln: Line, line: nat, ts: seq<Token>)
    requires CanonLine(before, ln) && Closes(ln.items)
    ensures LayOut(At(before), LineTokens(ln, line) + ts) == LayOut(At(before + [ln]), ts)
  {
    hide LayOut, CanonLine, LineTokens, Closes, At, WithItems, Flush, ItemTokens, LinesIn, BraceTokens, BraceItems, NoteOf, BlankOf;
    CloseFacts(before, ln);
    var note := NoteOf(ln.items);
    StateFacts(before, [], 0);
    NoTail(0, line, ts);
    BraceItemTokens(Close, note, 0, line);
    WordsThen(before, ln, line, [], BraceItems(Close, note), ts);
    EndClose(At(before), note, line, ts);
  }

  /** Laying out the tokens of a canonical line gives that line. */
  lemma LineLaidOut(before: seq<Line>, ln: Line, line: nat, ts: seq<Token>)
    requires CanonLine(before, ln)
    ensures LayOut(At(before), LineTokens(ln, line) + ts) == LayOut(At(before + [ln]), ts)
  {
    hide LayOut, LineTokens;
    var b := Body(ln.items);
    if b == [Close] {
      CloseLineLaidOut(before, ln, line, ts);
    } else if b != [] && b[|b| - 1] == Open {
      OpenLineLaidOut(before, ln, line, ts);
    } else if b == ln.items {
      PlainLineLaidOut(before, ln, line, ts);
    } else {
      CommentLineLaidOut(before, ln, line, ts);
    }
  }

  lemma {:induction false} CanonPrefix(a: seq<Line>, b: seq<Line>)
    requires Canon(a + b)
    ensures Canon(a)
    decreases |b|
  {
    if b == [] {
      assert a + b == a;
    } else {
      assert (a + b)[..|a + b| - 1] == a + b[..|b| - 1];
      CanonPrefix(a, b[..|b| - 1]);
    }
  }

  lemma CanonNext(before: seq<Line>, lines: seq<Line>)
    requires Canon(before + lines) && lines != []
    ensures before + lines == before + [lines[0]] + lines[1..]
    ensures CanonLine(before, lines[0])
  {
    hide CanonLine;
    assert before + lines == before + [lines[0]] + lines[1..];
    CanonPrefix(before + [lines[0]], lines[1..]);
    assert (before + [lines[0]])[..|before|] == before;
  }

  /** Laying out what was scanned from canonical lines gives those lines back. */
  lemma {:induction false} LinesLaidOut(before: seq<Line>, lines: seq<Line>, line: nat)
    requires Canon(before + lines)
    ensures LayOut(At(before), AllTokens(lines, line)) == before + lines
    decreases |lines|
  {
    hide LayOut, At, LineTokens, NextLine, CanonLine, Canon;
    if lines == [] {
      EndLaidOut(before, line);
    } else {
      var ln, rest := lines[0], lines[1..];
      CanonNext(before, lines);
      LineLaidOut(before, ln, line, AllTokens(rest, NextLine(ln, line)));
      LinesLaidOut(before + [ln], rest, NextLine(ln, line));
    }
  }

  lemma EndLaidOut(before: seq<Line>, line: nat)
    ensures LayOut(At(before), AllTokens([], line)) == before + []
  {
    var t := Token(EOF, "", false, 0, line);
    assert [t] + [] == [t];
    OneRound(At(before), t, []);
  }
}
