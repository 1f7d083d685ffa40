/** Rendering a word back to source (internal/cadishfile/format.go: needsQuoting, quote, QuoteArg)
    and why the scanner reads it back. */
module Quoting {
  import opened Objects
  import opened Lexer

  /** Whether the text must be quoted to survive being read again as a bare word. */
  predicate NeedsQuoting(t: string) {
    t == [] || t[|t| - 1] == '\\' || t[0] == '#' || exists i :: 0 <= i < |t| && (IsBlank(t[i]) || t[i] == '"' || t[i] == ';')
  }

  function EscapedChar(c: char): string {
    if c == '\\' || c == '"' then ['\\', c] else [c]
  }

  function Escaped(t: string): string {
    if t == [] then [] else EscapedChar(t[0]) + Escaped(t[1..])
  }

  function Quote(t: string): string {
    "\"" + Escaped(t) + "\""
  }

  /** The builder loop of the source. */
  lemma EscapedNothing()
    ensures Escaped("") == ""
  {
  }

  method QuoteText(t: string) returns (b: string)
    ensures b == Quote(t)
  {
    hide Escaped;
    b := "\"";
    EscapedNothing();
    for i := 0 to |t|
      invariant b == "\"" + Escaped(t[..i])
    {
      EscapedAppend(t[..i], t[i]);
      assert t[..i + 1] == t[..i] + [t[i]];
      if t[i] == '\\' || t[i] == '"' {
        b := b + ['\\'];
      }
      b := b + [t[i]];
    }
    assert t[..|t|] == t;
    b := b + "\"";
  }

  lemma {:induction false} EscapedAppend(t: string, c: char)
    ensures Escaped(t + [c]) == Escaped(t) + EscapedChar(c)
  {
    if t == [] {
      assert t + [c] == [c] && [c][1..] == [];
    } else {
      assert (t + [c])[1..] == t[1..] + [c];
      EscapedAppend(t[1..], c);
    }
  }

  /** The quoter for values put into generated text: braces are quoted as well. */
  function QuoteArg(t: string): string {
    if NeedsQuoting(t) || '{' in t || '}' in t then Quote(t) else t
  }

  predicate NoControl(t: string) {
    forall i :: 0 <= i < |t| ==> !IsControl(t[i])
  }

  // ----- Quoted strings are read back -----

  /** Reading the escaped form gives back the text and stops right after the closing quote. */
  lemma {:induction false} QuotedReadBack(t: string, rest: string)
    requires NoControl(t)
    ensures QuotedBody(Escaped(t) + ("\"" + rest)) == Closed(t, rest)
  {
    hide QuotedBody, Escaped;
    var end := "\"" + rest;
    if t == [] {
      ClosesHere(rest);
    } else {
      QuotedReadBack(t[1..], rest);
      EscapedStep(t, end);
      CharReadBack(t[0], Escaped(t[1..]) + end);
      assert [t[0]] + t[1..] == t;
    }
  }

  lemma ClosesHere(rest: string)
    ensures QuotedBody(Escaped("") + ("\"" + rest)) == Closed("", rest)
  {
    assert Escaped("") + ("\"" + rest) == "\"" + rest;
    assert ("\"" + rest)[1..] == rest;
  }

  lemma EscapedStep(t: string, end: string)
    requires t != []
    ensures Escaped(t) + end == EscapedChar(t[0]) + (Escaped(t[1..]) + end)
  {
    Regroup(EscapedChar(t[0]), Escaped(t[1..]), end);
  }

  lemma Regroup(a: string, b: string, c: string)
    ensures a + b + c == a + (b + c)
  {
  }

  lemma CharReadBack(c: char, tail: string)
    requires !IsControl(c)
    ensures QuotedBody(EscapedChar(c) + tail) == Prepend([c], QuotedBody(tail))
  {
    var s := EscapedChar(c) + tail;
    if c == '\\' || c == '"' {
      assert s[2..] == tail;
    } else {
      assert s[1..] == tail;
    }
  }

  // ----- Bare words are read back -----

  /** A balanced run is recognised whatever follows it. */
  lemma {:induction false} ScanExtends(s: string, depth: nat, rest: string)
    requires Scan(s, depth).Some?
    ensures Scan(s + rest, depth) == Scan(s, depth)
  {
    assert (s + rest)[0] == s[0] && (s + rest)[1..] == s[1..] + rest;
    if s[0] == '{' {
      ScanExtends(s[1..], depth + 1, rest);
    } else if s[0] == '}' {
      if depth > 1 {
        ScanExtends(s[1..], depth - 1, rest);
      }
    } else {
      ScanExtends(s[1..], depth, rest);
    }
  }

  /** And it needs nothing of what follows. */
  lemma {:induction false} ScanPrefix(s: string, depth: nat)
    requires Scan(s, depth).Some?
    ensures Scan(s[..Scan(s, depth).value], depth) == Scan(s, depth)
  {
    var n := Scan(s, depth).value;
    var t := s[..n];
    assert t[0] == s[0];
    if s[0] == '{' {
      ScanPrefix(s[1..], depth + 1);
      assert t[1..] == s[1..][..n - 1];
    } else if s[0] == '}' {
      if depth > 1 {
        ScanPrefix(s[1..], depth - 1);
        assert t[1..] == s[1..][..n - 1];
      }
    } else {
      ScanPrefix(s[1..], depth);
      assert t[1..] == s[1..][..n - 1];
    }
  }

  /** A text that the scanner takes whole as one bare word. */
  predicate WholeWord(t: string) {
    WordLen(t) == |t|
  }

  predicate Separated(rest: string) {
    rest == [] || IsBlank(rest[0]) || rest[0] == ';' || rest[0] == '}'
  }

  /** A whole word not ending in a backslash is still exactly the word before any separator. */
  lemma {:induction false} WordExtends(t: string, rest: string)
    requires WholeWord(t) && Separated(rest)
    requires t != [] ==> t[|t| - 1] != '\\'
    ensures WordLen(t + rest) == |t|
  {
    hide Scan, Continuation;
    var s := t + rest;
    if t == [] {
      assert s == rest;
    } else {
      assert s[0] == t[0];
      if t[0] == '{' {
        var n := Scan(t, 0).value;
        ScanExtends(t, 0, rest);
        assert s[n..] == t[n..] + rest;
        WordExtends(t[n..], rest);
      } else {
        assert s[1..] == t[1..] + rest;
        if t[0] == '\\' {
          NotBlankInside(t, 1);
          NoContinuation(t, rest);
        }
        WordExtends(t[1..], rest);
      }
    }
  }

  lemma NoContinuation(t: string, rest: string)
    requires |t| > 1 && !IsBlank(t[1])
    ensures !Continuation(t + rest)
  {
    assert (t + rest)[1] == t[1];
  }

  /** A whole word holds no blank. */
  lemma {:induction false} NotBlankInside(t: string, i: nat)
    requires WholeWord(t) && i < |t|
    ensures !IsBlank(t[i]) && !IsControl(t[i])
  {
    if t[0] == '{' {
      var n := Scan(t, 0).value;
      if i < n {
        ScanNoBlank(t, 0, i);
      } else {
        NotBlankInside(t[n..], i - n);
      }
    } else if i > 0 {
      NotBlankInside(t[1..], i - 1);
    }
  }

  lemma {:induction false} ScanNoBlank(s: string, depth: nat, i: nat)
    requires Scan(s, depth).Some? && i < Scan(s, depth).value
    ensures !IsBlank(s[i]) && !IsControl(s[i])
  {
    if i > 0 {
      if s[0] == '{' {
        ScanNoBlank(s[1..], depth + 1, i - 1);
      } else if s[0] == '}' {
        ScanNoBlank(s[1..], depth - 1, i - 1);
      } else {
        ScanNoBlank(s[1..], depth, i - 1);
      }
    }
  }

  /** What the scanner cuts off as a bare word is a whole word. */
  lemma {:induction false} CutIsWhole(s: string)
    ensures WholeWord(s[..WordLen(s)])
  {
    var n := WordLen(s);
    var t := s[..n];
    if n > 0 {
      assert t[0] == s[0];
      if s[0] == '{' {
        var k := Scan(s, 0).value;
        CutIsWhole(s[k..]);
        ScanPrefix(s, 0);
        assert t == s[..k] + s[k..n];
        ScanExtends(s[..k], 0, s[k..n]);
        assert t[k..] == s[k..][..n - k];
        assert Scan(t, 0) == Some(k);
      } else {
        CutIsWhole(s[1..]);
        assert t[1..] == s[1..][..n - 1];
        assert WholeWord(t[1..]);
        if s[0] == '\\' && n >= 2 {
          NotBlankInside(t[1..], 0);
          assert t[1..][0] == t[1];
        }
        assert s[0] == '\\' ==> !Continuation(t);
      }
    }
  }
}
