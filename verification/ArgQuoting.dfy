/** Values put into generated text (QuoteArg) stay one word and cannot reach the text around them. */
module ArgQuoting {
  import opened Objects
  import opened Lexer
  import opened Quoting
  import opened Ast
  import Env

  /** Text without blanks, separators, braces and control characters is one bare word. */
  lemma {:induction false} PlainIsWhole(t: string)
    requires NoControl(t) && forall i :: 0 <= i < |t| ==> !IsBlank(t[i]) && t[i] !in {';', '{', '}'}
    ensures WholeWord(t)
  {
    if t != [] {
      PlainIsWhole(t[1..]);
    }
  }

  predicate Quotes(t: string) {
    NeedsQuoting(t) || '{' in t || '}' in t
  }

  /** Whatever the value and whatever follows the separator: the scanner reads exactly one word with
      that text, quoted or not, and goes on with what follows, its line count moved by the value's own
      line breaks. */
  lemma QuoteArgReadBack(t: string, rest: string, l: Lex)
    requires NoControl(t) && Separated(rest) && l.src == QuoteArg(t) + rest
    ensures Next(l) == Tok(Token(Word, t, Quotes(t), TakenBlank(l), l.line), After(l, rest, NewlinesIn(t)))
  {
    if Quotes(t) {
      QuotedForm(t, rest, l);
    } else {
      BareForm(t, rest, l);
    }
  }

  lemma QuotedForm(t: string, rest: string, l: Lex)
    requires NoControl(t) && l.src == Quote(t) + rest
    ensures Next(l) == Tok(Token(Word, t, true, TakenBlank(l), l.line), After(l, rest, NewlinesIn(t)))
  {
    hide QuotedBody, Escaped;
    QuotedReadBack(t, rest);
    assert l.src[0] == '"';
    assert l.src[1..] == Escaped(t) + ("\"" + rest);
  }

  lemma BareForm(t: string, rest: string, l: Lex)
    requires NoControl(t) && !Quotes(t) && Separated(rest) && l.src == t + rest
    ensures Next(l) == Tok(Token(Word, t, false, TakenBlank(l), l.line), After(l, rest, NewlinesIn(t)))
  {
    hide WordLen, Scan, WholeWord, NewlinesIn;
    BareFacts(t, rest);
    NoNewlines(t);
    assert (t + rest)[..|t|] == t && (t + rest)[|t|..] == rest && l.src[0] == t[0];
  }

  lemma BareFacts(t: string, rest: string)
    requires NoControl(t) && !Quotes(t) && Separated(rest)
    ensures WordLen(t + rest) == |t| && !Continuation(t + rest)
    ensures t != [] && t[0] !in {'"', '#', '{', '}', ';', '\n'} && !IsBlank(t[0]) && !IsControl(t[0])
  {
    hide WordLen, Scan;
    PlainIsWhole(t);
    WordExtends(t, rest);
    assert |t| > 1 ==> !IsBlank(t[1]);
  }

  lemma {:induction false} NoNewlines(t: string)
    requires forall i :: 0 <= i < |t| ==> t[i] != '\n'
    ensures NewlinesIn(t) == 0
  {
    if t != [] {
      NoNewlines(t[1..]);
    }
  }

  /** A value without an unescaped "{$" also survives environment substitution, whatever the
      environment: the argument read from its quoted form is not changed. */
  lemma QuoteArgIsInert(t: string, lookup: Env.Lookup)
    requires !Env.Contains(t)
    ensures Env.SubstituteArg(ArgOf(t, Quotes(t)), lookup) == ArgOf(t, Quotes(t))
  {
    Env.InertArg(ArgOf(t, Quotes(t)), lookup);
  }
}
