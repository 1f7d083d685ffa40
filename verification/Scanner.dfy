/** The scanner as the source runs it (internal/cadishfile/lex.go): a cursor over the text and
    line bookkeeping, updated in place and rolled back when a brace turns out to open a block. Every
    method is proved against the functions of module Lexer. */
module Scanner {
  import opened Objects
  import opened Lexer

  datatype Result = Got(token: Token) | Failed(error: Error)

  // ----- Slices -----

  lemma SliceAgain(s: string, i: nat, j: nat)
    requires i + j <= |s|
    ensures s[i..][j..] == s[i + j..]
  {
  }

  lemma Longer(s: string, i: nat, j: nat, k: nat)
    requires i <= j <= k <= |s|
    ensures s[i..j] + s[j..k] == s[i..k]
    ensures k == j + 1 ==> s[j..k] == [s[j]]
  {
  }

  lemma SliceStep(s: string, i: nat)
    requires i < |s|
    ensures s[i..] != [] && s[i..][0] == s[i] && s[i..][1..] == s[i + 1..]
  {
  }

  lemma {:induction false} NewlinesAppend(t: string, u: string)
    ensures NewlinesIn(t + u) == NewlinesIn(t) + NewlinesIn(u)
  {
    if t == [] {
      assert t + u == u;
    } else {
      assert (t + u)[1..] == t[1..] + u;
      NewlinesAppend(t[1..], u);
    }
  }

  lemma PrependTwice(t: string, u: string, q: Quoted)
    ensures Prepend(t, Prepend(u, q)) == Prepend(t + u, q)
  {
    if q.Closed? {
      assert t + (u + q.text) == t + u + q.text;
    }
  }

  lemma QuotedStart(s: string)
    ensures QuotedBody(s) == Prepend("", QuotedBody(s)) && NewlinesIn("") == 0
  {
    if QuotedBody(s).Closed? {
      assert "" + QuotedBody(s).text == QuotedBody(s).text;
    }
  }

  // ----- One step of each scan, at position `i` -----

  lemma ScanStart(s: string)
    ensures Scan(s, 0) == Plus(0, Scan(s, 0))
  {
  }

  lemma ScanFails(s: string, from: nat, i: nat, depth: nat)
    requires from <= i <= |s| && (i == |s| || IsBlank(s[i]) || IsControl(s[i]))
    ensures Plus(i - from, Scan(s[i..], depth)) == None
  {
  }

  lemma ScanStep(s: string, from: nat, i: nat, depth: nat)
    requires from <= i < |s| && !IsBlank(s[i]) && !IsControl(s[i]) && (s[i] == '}' ==> depth >= 1)
    ensures var r := Plus(i - from, Scan(s[i..], depth));
            if s[i] == '{' then r == Plus(i + 1 - from, Scan(s[i + 1..], depth + 1))
            else if s[i] == '}' && depth == 1 then r == Some(i + 1 - from)
            else r == Plus(i + 1 - from, Scan(s[i + 1..], if s[i] == '}' then depth - 1 else depth))
  {
    SliceStep(s, i);
  }

  predicate EndsWord(s: string) {
    s == [] || IsBlank(s[0]) || IsControl(s[0]) || s[0] == ';' || s[0] == '}'
    || Continuation(s) || (s[0] == '{' && Scan(s, 0) == None)
  }

  lemma WordEnds(s: string, i: nat)
    requires i == |s| || (i < |s| && EndsWord(s[i..]))
    ensures WordLen(s[i..]) == 0
  {
  }

  lemma StepWord(s: string, i: nat)
    requires i < |s|
    ensures s[i] != '{' && !EndsWord(s[i..]) ==> WordLen(s[i..]) == 1 + WordLen(s[i + 1..])
    ensures s[i] == '{' ==> EndsWord(s[i..]) == (Scan(s[i..], 0) == None)
    ensures s[i] == '{' && Scan(s[i..], 0) != None ==>
              var n := Scan(s[i..], 0).value; WordLen(s[i..]) == n + WordLen(s[i + n..])
  {
    SliceStep(s, i);
    if s[i] == '{' && Scan(s[i..], 0) != None {
      SliceAgain(s, i, Scan(s[i..], 0).value);
    }
  }

  lemma CommentStep(s: string, i: nat)
    requires i <= |s|
    ensures i == |s| || s[i] == '\n' || IsControl(s[i]) ==> CommentLen(s[i..]) == 0
    ensures i < |s| && s[i] != '\n' && !IsControl(s[i]) ==> CommentLen(s[i..]) == 1 + CommentLen(s[i + 1..])
  {
    if i < |s| {
      SliceStep(s, i);
    }
  }

  /** What a quoted string does with the backslash at `i`. */
  lemma QuotedEscape(s: string, i: nat, text: string)
    requires i + 1 < |s| && s[i] == '\\' && !IsControl(s[i + 1])
    ensures var more := if s[i + 1] == '"' || s[i + 1] == '\\' then [s[i + 1]] else ['\\', s[i + 1]];
            && Prepend(text, QuotedBody(s[i..])) == Prepend(text + more, QuotedBody(s[i + 2..]))
            && NewlinesIn(text + more) == NewlinesIn(text) + (if s[i + 1] == '\n' then 1 else 0)
  {
    SliceStep(s, i);
    assert s[i..][2..] == s[i + 2..];
    var more := if s[i + 1] == '"' || s[i + 1] == '\\' then [s[i + 1]] else ['\\', s[i + 1]];
    PrependTwice(text, more, QuotedBody(s[i + 2..]));
    NewlinesAppend(text, more);
    assert s[i..][1] == s[i + 1];
    assert NewlinesIn([s[i + 1]]) == if s[i + 1] == '\n' then 1 else 0;
    assert |more| == 2 ==> more[1..] == [s[i + 1]];
  }

  lemma QuotedChar(s: string, i: nat, text: string)
    requires i < |s| && s[i] != '\\' && s[i] != '"' && !IsControl(s[i])
    ensures Prepend(text, QuotedBody(s[i..])) == Prepend(text + [s[i]], QuotedBody(s[i + 1..]))
    ensures NewlinesIn(text + [s[i]]) == NewlinesIn(text) + (if s[i] == '\n' then 1 else 0)
  {
    SliceStep(s, i);
    PrependTwice(text, [s[i]], QuotedBody(s[i + 1..]));
    NewlinesAppend(text, [s[i]]);
  }

  lemma QuotedStops(s: string, i: nat, text: string)
    requires i <= |s|
    ensures var q := Prepend(text, QuotedBody(s[i..]));
            && (i == |s| ==> q == Broken(Unterminated))
            && (i < |s| && IsControl(s[i]) ==> q == Broken(ControlCharacter))
            && (i < |s| && s[i] == '"' ==> q == Closed(text, s[i + 1..]))
            && (i < |s| && s[i] == '\\' && i + 1 == |s| ==> q == Broken(Unterminated))
            && (i + 1 < |s| && s[i] == '\\' && IsControl(s[i + 1]) ==> q == Broken(ControlCharacter))
  {
    if i < |s| {
      SliceStep(s, i);
      assert text + "" == text;
    }
  }

  /** What the next token is when the first character is not part of it. */
  lemma NextHere(l: Lex)
    ensures l.src == [] ==>
              Next(l) == Tok(Token(EOF, "", false, TakenBlank(l), l.line), l.(blank := if l.atStart then 0 else l.blank))
    ensures l.src != [] && IsControl(l.src[0]) ==> Next(l) == Fail(ControlCharacter)
    ensures l.src != [] && l.src[0] == '\n' && l.atStart ==>
              Next(l) == Next(Lex(l.src[1..], l.blank + 1, true, l.line + 1))
    ensures l.src != [] && l.src[0] == '\n' && !l.atStart ==>
              Next(l) == Tok(Token(Newline, "", false, 0, l.line), Lex(l.src[1..], l.blank, true, l.line + 1))
    ensures l.src != [] && IsBlank(l.src[0]) && l.src[0] != '\n' ==> Next(l) == Next(l.(src := l.src[1..]))
    ensures Continuation(l.src) ==>
              Next(l) == Next(l.(src := l.src[if l.src[1] == '\r' then 3 else 2..], line := l.line + 1))
  {
  }

  class Scanner {
    const src: string
    var pos: nat
    var line: nat
    var pendingBlank: nat
    var atLineStart: bool

    ghost predicate Valid()
      reads this
    {
      pos <= |src|
    }

    /** What module Lexer calls the scanner's state. */
    ghost function State(): Lex
      requires Valid()
      reads this
    {
      Lex(src[pos..], pendingBlank, atLineStart, line)
    }

    constructor (text: string)
      ensures Valid() && State() == Start(text)
    {
      src := if text != [] && text[0] == BOM then text[1..] else text;
      pos, line, pendingBlank, atLineStart := 0, 1, 0, true;
    }

    /** Consumes one character. */
    method Advance() returns (c: char)
      requires Valid() && pos < |src|
      modifies this
      ensures Valid() && pos == old(pos) + 1 && c == src[old(pos)]
      ensures line == old(line) + (if c == '\n' then 1 else 0)
      ensures pendingBlank == old(pendingBlank) && atLineStart == old(atLineStart)
    {
      c := src[pos];
      pos := pos + 1;
      if c == '\n' {
        line := line + 1;
      }
    }

    /** Takes the pending blank lines, at the start of a line only. */
    method TakeBlank() returns (n: nat)
      requires Valid()
      modifies this
      ensures Valid() && n == TakenBlank(old(State()))
      ensures State() == old(State().(blank := if atLineStart then 0 else pendingBlank))
    {
      n := 0;
      if atLineStart {
        n := pendingBlank;
        pendingBlank := 0;
      }
    }

    predicate IsLineContinuation()
      requires Valid() && pos < |src| && src[pos] == '\\'
      reads this
      ensures IsLineContinuation() == Continuation(src[pos..])
    {
      var i := if pos + 1 < |src| && src[pos + 1] == '\r' then pos + 2 else pos + 1;
      i < |src| && src[i] == '\n'
    }

    /** Looks ahead for a placeholder without consuming anything. */
    method LooksLikePlaceholder() returns (ok: bool)
      requires Valid() && pos < |src| && src[pos] == '{'
      ensures ok == (Scan(src[pos..], 0) != None)
    {
      var depth, i := 0, pos;
      while i < |src|
        invariant pos <= i <= |src| && depth >= 0 && (i == pos || depth >= 1)
        invariant (Scan(src[pos..], 0) == None) == (Scan(src[i..], depth) == None)
      {
        var c := src[i];
        SliceStep(src, i);
        i := i + 1;
        if IsControl(c) || IsBlank(c) {
          return false;
        }
        if c == '{' {
          depth := depth + 1;
        } else if c == '}' {
          depth := depth - 1;
          if depth == 0 {
            return true;
          }
        }
      }
      return false;
    }

    /** Consumes a placeholder, or rolls the cursor back. */
    method ScanPlaceholder() returns (text: string, ok: bool)
      requires Valid() && pos < |src| && src[pos] == '{'
      modifies this
      ensures Valid() && ok == (Scan(old(src[pos..]), 0) != None)
      ensures ok ==> pos == old(pos) + Scan(old(src[pos..]), 0).value && text == src[old(pos)..pos]
      ensures !ok ==> pos == old(pos)
      ensures line == old(line) && pendingBlank == old(pendingBlank) && atLineStart == old(atLineStart)
    {
      hide Scan, Plus;
      var savePos, saveLine := pos, line;
      var depth := 0;
      ScanStart(src[pos..]);
      text := "";
      while true
        invariant Valid() && savePos <= pos && depth >= 0 && (pos == savePos || depth >= 1)
        invariant line == saveLine && pendingBlank == old(pendingBlank) && atLineStart == old(atLineStart)
        invariant text == src[savePos..pos]
        invariant Scan(src[savePos..], 0) == Plus(pos - savePos, Scan(src[pos..], depth))
        decreases |src| - pos
      {
        if pos == |src| || IsBlank(src[pos]) || IsControl(src[pos]) {
          ScanFails(src, savePos, pos, depth);
          pos, line := savePos, saveLine;
          return "", false;
        }
        ScanStep(src, savePos, pos, depth);
        Longer(src, savePos, pos, pos + 1);
        var c := Advance();
        text := text + [c];
        if c == '{' {
          depth := depth + 1;
        } else if c == '}' {
          depth := depth - 1;
          if depth == 0 {
            return text, true;
          }
        }
      }
    }

    /** Whether the word being read stops here, an opening brace aside. */
    predicate StopsWord()
      requires Valid() && pos < |src|
      reads this
      ensures StopsWord() == (src[pos] != '{' && EndsWord(src[pos..]))
    {
      SliceStep(src, pos);
      var c := src[pos];
      if c == '\\' then IsLineContinuation()
      else IsBlank(c) || IsControl(c) || c == ';' || c == '}'
    }

    /** The text of the bare word that starts here. */
    method ReadWord() returns (text: string)
      requires Valid()
      modifies this
      ensures Valid() && pos == old(pos) + WordLen(old(src[pos..])) && text == src[old(pos)..pos]
      ensures line == old(line) && pendingBlank == old(pendingBlank) && atLineStart == old(atLineStart)
    {
      hide WordLen, Scan, EndsWord;
      text := "";
      ghost var from := pos;
      while pos < |src|
        invariant Valid() && from <= pos
        invariant line == old(line) && pendingBlank == old(pendingBlank) && atLineStart == old(atLineStart)
        invariant text == src[from..pos]
        invariant WordLen(src[from..]) == pos - from + WordLen(src[pos..])
        decreases |src| - pos
      {
        if StopsWord() {
          break;
        }
        StepWord(src, pos);
        ghost var was := pos;
        var more: string;
        if src[pos] == '{' {
          var ok;
          more, ok := ScanPlaceholder();
          if !ok {
            break;
          }
        } else {
          var c := Advance();
          more := [c];
        }
        Longer(src, from, was, pos);
        text := text + more;
      }
      WordEnds(src, pos);
    }

    /** A bare word. */
    method LexWord() returns (t: Token)
      requires Valid()
      modifies this
      ensures Valid() && Tok(t, State()) == Lexer.LexWord(old(State()))
    {
      hide WordLen;
      ghost var from := pos;
      var start := line;
      var blank := TakeBlank();
      var text := ReadWord();
      Cut(from);
      atLineStart := false;
      t := Token(Word, text, false, blank, start);
    }

    /** A comment, to the end of the line. */
    method LexComment() returns (t: Token)
      requires Valid()
      modifies this
      ensures Valid() && Tok(t, State()) == Lexer.LexComment(old(State()))
    {
      hide CommentLen, IsControl, TrimRight;
      ghost var l := State();
      var start := line;
      var blank := TakeBlank();
      var from := pos;
      while pos < |src| && src[pos] != '\n' && !IsControl(src[pos])
        invariant Valid() && from <= pos
        invariant line == start && pendingBlank == (if l.atStart then 0 else l.blank)
        invariant CommentLen(src[from..]) == pos - from + CommentLen(src[pos..])
        decreases |src| - pos
      {
        CommentStep(src, pos);
        var _ := Advance();
      }
      CommentStep(src, pos);
      Cut(from);
      atLineStart := false;
      t := Token(Comment, TrimRight(src[from..pos]), false, blank, start);
    }

    lemma Cut(from: nat)
      requires Valid() && from <= pos
      ensures src[from..][..pos - from] == src[from..pos] && src[from..][pos - from..] == src[pos..]
    {
    }

    /** The body of the quoted string that starts here, and its closing quote. */
    method ReadQuoted() returns (text: string, failure: Option<Error>)
      requires Valid()
      modifies this
      ensures Valid() && pendingBlank == old(pendingBlank) && atLineStart == old(atLineStart)
      ensures match QuotedBody(old(src[pos..]))
              case Broken(e) => failure == Some(e)
              case Closed(t, rest) =>
                failure == None && text == t && src[pos..] == rest && line == old(line) + NewlinesIn(t)
    {
      hide QuotedBody, IsControl, NewlinesIn, Prepend;
      text := "";
      ghost var from := pos;
      QuotedStart(src[pos..]);
      while true
        invariant Valid() && pendingBlank == old(pendingBlank) && atLineStart == old(atLineStart)
        invariant line == old(line) + NewlinesIn(text)
        invariant QuotedBody(src[from..]) == Prepend(text, QuotedBody(src[pos..]))
        decreases |src| - pos
      {
        QuotedStops(src, pos, text);
        if pos == |src| {
          return text, Some(Unterminated);
        }
        if IsControl(src[pos]) {
          return text, Some(ControlCharacter);
        }
        if src[pos] == '\\' {
          if pos + 1 < |src| && !IsControl(src[pos + 1]) {
            QuotedEscape(src, pos, text);
          }
          var c := Advance();
          if pos == |src| {
            return text, Some(Unterminated);
          }
          if IsControl(src[pos]) {
            return text, Some(ControlCharacter);
          }
          c := Advance();
          text := text + (if c == '"' || c == '\\' then [c] else ['\\', c]);
        } else if src[pos] == '"' {
          var _ := Advance();
          return text, None;
        } else {
          QuotedChar(src, pos, text);
          var c := Advance();
          text := text + [c];
        }
      }
    }

    /** A quoted string. */
    method LexQuoted() returns (r: Result)
      requires Valid() && pos < |src| && src[pos] == '"'
      modifies this
      ensures Valid() && Agrees(r, State(), Lexer.LexQuoted(old(State())))
    {
      hide QuotedBody, NewlinesIn;
      SliceStep(src, pos);
      var start := line;
      var blank := TakeBlank();
      var _ := Advance();
      var text, failure := ReadQuoted();
      if failure.Some? {
        return Failed(failure.value);
      }
      atLineStart := false;
      r := Got(Token(Word, text, true, blank, start));
    }

    /** Steps over a backslash and the line break after it. */
    method SkipContinuation()
      requires Valid() && pos < |src| && Continuation(src[pos..])
      modifies this
      ensures Valid() && pos == old(pos) + (if src[old(pos) + 1] == '\r' then 3 else 2)
      ensures State() == old(State()).(src := old(src[pos..])[if src[old(pos) + 1] == '\r' then 3 else 2..], line := old(line) + 1)
    {
      var c := Advance();
      if src[pos] == '\r' {
        c := Advance();
      }
      c := Advance();
    }

    /** A one-character token. */
    method LexMark(kind: Kind, text: string) returns (t: Token)
      requires Valid() && pos < |src| && src[pos] != '\n'
      modifies this
      ensures Valid()
      ensures Tok(t, State()) == Tok(Token(kind, text, false, TakenBlank(old(State())), old(line)),
                                     After(old(State()), old(src[pos..])[1..], 0))
    {
      SliceStep(src, pos);
      var start := line;
      var blank := TakeBlank();
      var _ := Advance();
      atLineStart := false;
      t := Token(kind, text, false, blank, start);
    }

    /** The token that starts here. */
    method NextSignificant() returns (r: Result)
      requires Valid() && pos < |src| && !IsBlank(src[pos]) && !IsControl(src[pos])
      requires src[pos] == '\\' ==> !Continuation(src[pos..])
      modifies this
      ensures Valid() && Agrees(r, State(), Lexer.Next(old(State())))
    {
      var c := src[pos];
      SliceStep(src, pos);
      if c == '"' {
        r := LexQuoted();
        return;
      }
      var t: Token;
      if c == '#' {
        t := LexComment();
      } else if c == '}' {
        t := LexMark(CloseBrace, "}");
      } else if c == ';' {
        t := Token(Semicolon, ";", false, 0, line);
        var _ := Advance();
        atLineStart := false;
      } else {
        var word := true;
        if c == '{' {
          word := LooksLikePlaceholder();
        }
        if word {
          t := LexWord();
        } else {
          t := LexMark(OpenBrace, "{");
        }
      }
      r := Got(t);
    }

    /** The next token. */
    method Next() returns (r: Result)
      requires Valid()
      modifies this
      ensures Valid() && Agrees(r, State(), Lexer.Next(old(State())))
    {
      hide Continuation, IsControl, Lexer.Next;
      ghost var l := State();
      while pos < |src|
        invariant Valid() && Lexer.Next(State()) == Lexer.Next(l)
        decreases |src| - pos
      {
        var c := src[pos];
        SliceStep(src, pos);
        NextHere(State());
        if IsControl(c) {
          return Failed(ControlCharacter);
        }
        if c == '\n' {
          var start := line;
          c := Advance();
          if atLineStart {
            pendingBlank := pendingBlank + 1;
          } else {
            atLineStart := true;
            return Got(Token(Newline, "", false, 0, start));
          }
        } else if IsBlank(c) {
          c := Advance();
        } else if c == '\\' && IsLineContinuation() {
          SkipContinuation();
        } else {
          r := NextSignificant();
          return;
        }
      }
      NextHere(State());
      var blank := TakeBlank();
      r := Got(Token(EOF, "", false, blank, line));
    }
  }

  /** The whole text, token by token. */
  method TokenizeText(text: string) returns (r: Tokens)
    ensures r == Tokenize(text)
  {
    var l := new Scanner(text);
    var toks := [];
    while true
      invariant l.Valid()
      invariant Tokenize(text) == Behind(toks, TokensFrom(l.State()))
      decreases |l.src| - l.pos
    {
      var t := l.Next();
      match t
      case Failed(e) => return Err(e);
      case Got(tok) =>
        toks := toks + [tok];
        if tok.kind == EOF {
          return Ok(toks);
        }
    }
  }

  ghost function Behind(ts: seq<Token>, r: Tokens): Tokens {
    if r.Ok? then Ok(ts + r.toks) else r
  }

  /** A scanner's answer and state are what the function says; after a failure nothing more is read. */
  ghost predicate Agrees(r: Result, l: Lex, s: Step) {
    match s
    case Fail(e) => r == Failed(e)
    case Tok(t, rest) => r == Got(t) && l == rest
  }
}
