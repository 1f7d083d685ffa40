/** The Cadishfile scanner (internal/cadishfile/lex.go) as functions on the remaining input.
    Text is a sequence of Unicode code points; columns are not modelled. */
module Lexer {
  import opened Objects

  datatype Kind = Word | OpenBrace | CloseBrace | Semicolon | Newline | Comment | EOF

  /** `blank` is the number of blank lines before a line's first token. */
  datatype Token = Token(kind: Kind, text: string, quoted: bool, blank: nat, line: nat)

  datatype Error = Unterminated | ControlCharacter

  /** The scanner's state: what is left of the input and the line bookkeeping. */
  datatype Lex = Lex(src: string, blank: nat, atStart: bool, line: nat)

  datatype Step = Tok(token: Token, rest: Lex) | Fail(error: Error)

  datatype Tokens = Ok(toks: seq<Token>) | Err(error: Error)

  const BOM: char := '\U{FEFF}'

  predicate IsControl(c: char) {
    c != '\t' && c != '\n' && c != '\r' && (c < ' ' || c == '\U{7F}')
  }

  predicate IsBlank(c: char) {
    c == ' ' || c == '\t' || c == '\n' || c == '\r'
  }

  /** A backslash directly before a line break. */
  predicate Continuation(s: string) {
    |s| >= 2 && s[0] == '\\' && (s[1] == '\n' || (|s| >= 3 && s[1] == '\r' && s[2] == '\n'))
  }

  function Plus(n: nat, o: Option<nat>): (r: Option<nat>)
  {
    if o == None then None else Some(n + o.value)
  }

  /** The length of the brace-balanced run that closes `depth` open braces, if it is reached before
      a blank, a control character or the end. */
  function Scan(s: string, depth: nat): (r: Option<nat>)
    ensures r.Some? ==> 1 <= r.value <= |s|
  {
    if s == [] || IsBlank(s[0]) || IsControl(s[0]) then None
    else if s[0] == '{' then Plus(1, Scan(s[1..], depth + 1))
    else if s[0] == '}' then (if depth <= 1 then Some(1) else Plus(1, Scan(s[1..], depth - 1)))
    else Plus(1, Scan(s[1..], depth))
  }

  /** The length of the bare word at the front of `s`; placeholders are taken whole. */
  function WordLen(s: string): (n: nat)
    ensures n <= |s|
  {
    if s == [] then 0
    else
      var c := s[0];
      if c == '\\' then (if Continuation(s) then 0 else 1 + WordLen(s[1..]))
      else if IsBlank(c) || IsControl(c) || c == ';' || c == '}' then 0
      else if c == '{' then
        match Scan(s, 0)
        case None => 0
        case Some(n) => n + WordLen(s[n..])
      else 1 + WordLen(s[1..])
  }

  datatype Quoted = Closed(text: string, rest: string) | Broken(error: Error)

  function Prepend(t: string, q: Quoted): Quoted {
    if q.Closed? then q.(text := t + q.text) else q
  }

  /** The body of a quoted string, from after its opening quote. */
  function QuotedBody(s: string): (q: Quoted)
    ensures q.Closed? ==> |q.rest| < |s|
  {
    if s == [] then Broken(Unterminated)
    else if IsControl(s[0]) then Broken(ControlCharacter)
    else if s[0] == '\\' then
      if |s| == 1 then Broken(Unterminated)
      else if IsControl(s[1]) then Broken(ControlCharacter)
      else if s[1] == '"' || s[1] == '\\' then Prepend([s[1]], QuotedBody(s[2..]))
      else Prepend(['\\', s[1]], QuotedBody(s[2..]))
    else if s[0] == '"' then Closed("", s[1..])
    else Prepend([s[0]], QuotedBody(s[1..]))
  }

  function CommentLen(s: string): (n: nat)
    ensures n <= |s|
  {
    if s == [] || s[0] == '\n' || IsControl(s[0]) then 0 else 1 + CommentLen(s[1..])
  }

  /** Drops trailing spaces, tabs and carriage returns. */
  function TrimRight(t: string): string {
    if t != [] && t[|t| - 1] in {' ', '\t', '\r'} then TrimRight(t[..|t| - 1]) else t
  }

  function NewlinesIn(t: string): nat {
    if t == [] then 0 else (if t[0] == '\n' then 1 else 0) + NewlinesIn(t[1..])
  }

  /** Blank lines count only for the first token of a line. */
  function TakenBlank(l: Lex): nat {
    if l.atStart then l.blank else 0
  }

  /** The state after a significant token that leaves `src` to scan, `lines` line breaks further on. */
  function After(l: Lex, src: string, lines: nat): Lex {
    Lex(src, if l.atStart then 0 else l.blank, false, l.line + lines)
  }

  function LexWord(l: Lex): Step {
    var n := WordLen(l.src);
    Tok(Token(Word, l.src[..n], false, TakenBlank(l), l.line), After(l, l.src[n..], 0))
  }

  function LexComment(l: Lex): Step {
    var n := CommentLen(l.src);
    Tok(Token(Comment, TrimRight(l.src[..n]), false, TakenBlank(l), l.line), After(l, l.src[n..], 0))
  }

  function LexQuoted(l: Lex): Step
    requires l.src != []
  {
    match QuotedBody(l.src[1..])
    case Broken(e) => Fail(e)
    case Closed(text, rest) =>
      Tok(Token(Word, text, true, TakenBlank(l), l.line), After(l, rest, NewlinesIn(text)))
  }

  /** The next token, skipping blanks, continuations and blank lines. */
  function Next(l: Lex): (r: Step)
    ensures r.Tok? && r.token.kind != EOF ==> |r.rest.src| < |l.src|
    decreases |l.src|
  {
    if l.src == [] then Tok(Token(EOF, "", false, TakenBlank(l), l.line), l.(blank := if l.atStart then 0 else l.blank))
    else
      var c, tail := l.src[0], l.src[1..];
      if IsControl(c) then Fail(ControlCharacter)
      else if c == '\n' then
        if l.atStart then Next(Lex(tail, l.blank + 1, true, l.line + 1))
        else Tok(Token(Newline, "", false, 0, l.line), Lex(tail, l.blank, true, l.line + 1))
      else if IsBlank(c) then Next(l.(src := tail))
      else if c == '\\' && Continuation(l.src) then
        Next(l.(src := if l.src[1] == '\r' then l.src[3..] else l.src[2..], line := l.line + 1))
      else if c == '#' then CommentProgress(l.src); LexComment(l)
      else if c == '{' && Scan(l.src, 0) == None then
        Tok(Token(OpenBrace, "{", false, TakenBlank(l), l.line), After(l, tail, 0))
      else if c == '}' then Tok(Token(CloseBrace, "}", false, TakenBlank(l), l.line), After(l, tail, 0))
      else if c == ';' then Tok(Token(Semicolon, ";", false, 0, l.line), l.(src := tail, atStart := false))
      else if c == '"' then LexQuoted(l)
      else WordProgress(l.src); LexWord(l)
  }

  lemma CommentProgress(s: string)
    requires s != [] && s[0] == '#'
    ensures CommentLen(s) > 0
  {
  }

  lemma WordProgress(s: string)
    requires s != [] && !IsBlank(s[0]) && !IsControl(s[0]) && s[0] != ';' && s[0] != '}'
    requires s[0] == '\\' ==> !Continuation(s)
    requires s[0] == '{' ==> Scan(s, 0) != None
    ensures WordLen(s) > 0
  {
  }

  /** All tokens from here on, the last one EOF. */
  function TokensFrom(l: Lex): Tokens
    decreases |l.src|
  {
    match Next(l)
    case Fail(e) => Err(e)
    case Tok(t, rest) =>
      if t.kind == EOF then Ok([t])
      else match TokensFrom(rest)
           case Err(e) => Err(e)
           case Ok(ts) => Ok([t] + ts)
  }

  /** The scanner's start: a leading byte order mark is discarded. */
  function Start(src: string): Lex {
    Lex(if src != [] && src[0] == BOM then src[1..] else src, 0, true, 1)
  }

  function Tokenize(src: string): Tokens {
    TokensFrom(Start(src))
  }
}
