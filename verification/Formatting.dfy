/** The formatter (internal/cadishfile/format.go, Format) at the token level: tokens are laid out in
    lines, and lines are rendered. */
module Formatting {
  import opened Objects
  import opened Lexer
  import opened Quoting

  /** What a line is made of. A word carries whether it is rendered quoted. */
  datatype Item = W(text: string, quoted: bool) | Open | Close | Note(text: string)

  /** One output line: whether a blank line precedes it, its indentation depth, its items. */
  datatype Line = Line(blank: bool, depth: nat, items: seq<Item>)

  // ----- Layout -----

  /** The formatter's state: depth, the finished lines, the line being filled, and the two
      blank-line flags. */
  datatype Fmt = Fmt(depth: nat, lines: seq<Line>, cur: seq<Item>, curBlank: bool, pending: bool, suppress: bool)

  const FRESH := Fmt(0, [], [], false, false, false)

  /** Ends the current line if anything is on it. */
  function Flush(f: Fmt): Fmt {
    if f.cur == [] then f
    else f.(lines := f.lines + [Line(f.curBlank, f.depth, f.cur)], cur := [], curBlank := false)
  }

  /** Adds an item to the current line, starting it if need be; a requested blank line is honoured
      unless nothing has been written yet. */
  function Add(f: Fmt, it: Item): Fmt {
    if f.cur == [] then f.(cur := [it], curBlank := f.pending && f.lines != [], pending := false)
    else f.(cur := f.cur + [it])
  }

  /** The blank-line bookkeeping at the head of the token loop. */
  function Observe(f: Fmt, t: Token): Fmt {
    f.(pending := f.pending || (t.blank > 0 && f.cur == [] && !f.suppress),
       suppress := f.suppress && (t.kind == Newline || (t.kind == Semicolon && f.cur == [])))
  }

  /** A comment right after a brace, on the brace's own source line, stays with it. */
  predicate TrailingComment(toks: seq<Token>) {
    |toks| >= 2 && toks[1].kind == Comment && toks[1].line == toks[0].line
  }

  /** The brace at the head of `toks`, with its trailing comment. */
  function AddBrace(f: Fmt, brace: Item, toks: seq<Token>): Fmt {
    var g := Add(f, brace);
    Flush(if TrailingComment(toks) then Add(g, Note(toks[1].text)) else g)
  }

  /** One round of the token loop: the new state and how many tokens it consumed. */
  function Round(f: Fmt, toks: seq<Token>): (r: (Fmt, nat))
    requires toks != []
    ensures 1 <= r.1 <= |toks|
  {
    var t := toks[0];
    var g := Observe(f, t);
    var used := if TrailingComment(toks) then 2 else 1;
    match t.kind
    case EOF => (g, 1)
    case Newline => (Flush(g), 1)
    case Semicolon => (Flush(g), 1)
    case Comment => (Flush(Add(g, Note(t.text))), 1)
    case OpenBrace =>
      (AddBrace(g, Open, toks).(depth := g.depth + 1, pending := false, suppress := true), used)
    case CloseBrace =>
      var h := Flush(g);
      (AddBrace(h.(depth := if h.depth > 0 then h.depth - 1 else 0, pending := false), Close, toks), used)
    case Word => (Add(g, W(t.text, t.quoted || NeedsQuoting(t.text))), 1)
  }

  /** All the lines of a token list. */
  function LayOut(f: Fmt, toks: seq<Token>): seq<Line>
    decreases |toks|
  {
    if toks == [] then Flush(f).lines
    else
      var (g, used) := Round(f, toks);
      LayOut(g, toks[used..])
  }

  // ----- Rendering -----

  function Indent(depth: nat): string {
    if depth == 0 then "" else "    " + Indent(depth - 1)
  }

  function RenderItem(it: Item): string {
    match it
    case W(text, quoted) => if quoted then Quote(text) else text
    case Open => "{"
    case Close => "}"
    case Note(text) => text
  }

  function RenderItems(items: seq<Item>): string {
    if items == [] then ""
    else if |items| == 1 then RenderItem(items[0])
    else RenderItems(items[..|items| - 1]) + " " + RenderItem(items[|items| - 1])
  }

  function RenderLine(l: Line): string {
    (if l.blank then "\n" else "") + Indent(l.depth) + RenderItems(l.items) + "\n"
  }

  function Render(lines: seq<Line>): string {
    if lines == [] then "" else Render(lines[..|lines| - 1]) + RenderLine(lines[|lines| - 1])
  }

  /** The canonical text of a token list. */
  function FormatTokens(toks: seq<Token>): string {
    Render(LayOut(FRESH, toks))
  }
}
