/** Environment placeholders (internal/cadishfile/env.go): finding them, expanding them, and the pass
    over the syntax tree. */
module Env {
  import opened Objects
  import opened Ast

  type Lookup = string -> Option<string>

  // ----- Finding -----

  /** An unescaped "{$" somewhere in the text. */
  predicate Contains(s: string) {
    if |s| < 2 then false
    else if s[0] == '\\' then Contains(s[2..])
    else (s[0] == '{' && s[1] == '$') || Contains(s[1..])
  }

  method ContainsEnvPlaceholder(s: string) returns (found: bool)
    ensures found == Contains(s)
  {
    var i := 0;
    while i + 1 < |s|
      invariant 0 <= i && (i <= |s| ==> Contains(s) == Contains(s[i..]))
      invariant i > |s| ==> !Contains(s)
    {
      assert s[i..][1..] == s[i + 1..] && s[i..][2..] == s[i + 2..];
      if s[i] == '\\' {
        i := i + 2;
      } else if s[i] == '{' && s[i + 1] == '$' {
        return true;
      } else {
        i := i + 1;
      }
    }
    return false;
  }

  // ----- Expanding -----

  /** The first position of `c`, or the length of `s`. */
  function IndexOf(s: string, c: char): (n: nat)
    ensures n <= |s| && c !in s[..n] && (n < |s| ==> s[n] == c)
  {
    if s == [] || s[0] == c then 0 else 1 + IndexOf(s[1..], c)
  }

  /** What "{$spec}" stands for: the variable's value, else what follows the first colon, else nothing. */
  function Value(spec: string, lookup: Lookup): string {
    var colon := IndexOf(spec, ':');
    match lookup(spec[..colon])
    case Some(v) => v
    case None => if colon < |spec| then spec[colon + 1..] else ""
  }

  /** Every "{$...}" replaced. Escapes are copied, and so is every other brace span, whole. */
  function Expand(s: string, lookup: Lookup): string
    decreases |s|
  {
    if s == [] then []
    else if s[0] == '\\' && |s| >= 2 then s[..2] + Expand(s[2..], lookup)
    else if s[0] == '{' then
      var end := IndexOf(s, '}');
      if end == |s| then s
      else
        var inner := s[1..end];
        (if inner != [] && inner[0] == '$' then Value(inner[1..], lookup) else s[..end + 1])
        + Expand(s[end + 1..], lookup)
    else [s[0]] + Expand(s[1..], lookup)
  }

  method ExpandEnv(s: string, lookup: Lookup) returns (b: string)
    ensures b == Expand(s, lookup)
  {
    hide Expand, ExpandFront;
    b := "";
    var i := 0;
    ExpandEmpty(s, lookup);
    while i < |s|
      invariant 0 <= i <= |s| && Expand(s, lookup) == b + Expand(s[i..], lookup)
    {
      ExpandSteps(s[i..], lookup);
      var more, used := ExpandOne(s, i, lookup);
      SliceAgain(s, i, used);
      Regroup(b, more, Expand(s[i + used..], lookup));
      b, i := b + more, i + used;
    }
    ExpandEmpty(b, lookup);
    assert s[i..] == [];
  }

  /** What the expansion writes for the characters at the front, and how many they are. */
  function ExpandFront(s: string, lookup: Lookup): (r: (string, nat))
    requires s != []
    ensures 1 <= r.1 <= |s|
  {
    if s[0] == '\\' && |s| >= 2 then (s[..2], 2)
    else if s[0] == '{' then
      var end := IndexOf(s, '}');
      if end == |s| then (s, |s|)
      else if s[1..end] != [] && s[1..end][0] == '$' then (Value(s[1..end][1..], lookup), end + 1)
      else (s[..end + 1], end + 1)
    else ([s[0]], 1)
  }

  lemma ExpandSteps(s: string, lookup: Lookup)
    requires s != []
    ensures var (t, n) := ExpandFront(s, lookup);
            Expand(s, lookup) == t + Expand(s[n..], lookup)
  {
    hide Value;
    if s[0] == '{' && IndexOf(s, '}') == |s| {
      assert s[|s|..] == [] && s + [] == s;
    }
  }

  /** One round of the loop, at position `i`. */
  method ExpandOne(s: string, i: nat, lookup: Lookup) returns (more: string, used: nat)
    requires i < |s|
    ensures 1 <= used <= |s| - i && (more, used) == ExpandFront(s[i..], lookup)
  {
    hide Value;
    var c := s[i];
    if c == '\\' && i + 1 < |s| {
      Slices(s, i, 1);
      return s[i..i + 2], 2;
    }
    if c == '{' {
      var end := IndexOf(s[i..], '}');
      if i + end == |s| {
        return s[i..], end;
      }
      Slices(s, i, end);
      var inner := s[i + 1..i + end];
      if inner != [] && inner[0] == '$' {
        return Value(inner[1..], lookup), end + 1;
      }
      return s[i..i + end + 1], end + 1;
    }
    return [c], 1;
  }

  lemma ExpandEmpty(b: string, lookup: Lookup)
    ensures Expand([], lookup) == [] && b + [] == b
    ensures "" + Expand(b, lookup) == Expand(b, lookup) && b[0..] == b
  {
    hide Value;
  }

  lemma SliceAgain(s: string, i: nat, n: nat)
    requires i + n <= |s|
    ensures s[i..][n..] == s[i + n..]
  {
  }

  lemma Regroup(a: string, b: string, c: string)
    ensures a + b + c == a + (b + c)
  {
  }

  lemma Slices(s: string, i: nat, n: nat)
    requires i + n < |s|
    ensures s[i..][0] == s[i] && s[i..][1..] == s[i + 1..]
    ensures s[i..][..n + 1] == s[i..i + n + 1] && s[i..][n + 1..] == s[i + n + 1..]
    ensures n > 0 ==> s[i..][1..n] == s[i + 1..i + n]
  {
  }

  // ----- A text without placeholders is left alone -----

  /** The two scans treat escapes inside a brace span differently; they agree again after it, since the
      span ends in a brace, escaped or not. */
  lemma {:induction false} SkipSpan(s: string, n: nat)
    requires n < |s| && '}' !in s[..n] && s[n] == '}' && !Contains(s)
    ensures !Contains(s[n + 1..])
    decreases n
  {
    if n == 0 {
      if |s| < 2 {
        assert s[1..] == [];
      }
    } else if s[0] == '\\' {
      if n == 1 {
        assert s[n + 1..] == s[2..];
      } else {
        assert s[2..][n - 2 + 1..] == s[n + 1..];
        assert forall i :: 0 <= i < n - 2 ==> s[2..][i] == s[..n][i + 2];
        SkipSpan(s[2..], n - 2);
      }
    } else {
      assert s[1..][n - 1 + 1..] == s[n + 1..];
      assert forall i :: 0 <= i < n - 1 ==> s[1..][i] == s[..n][i + 1];
      SkipSpan(s[1..], n - 1);
    }
  }

  /** For every lookup function: expansion changes nothing where no placeholder was found. */
  lemma {:induction false} ExpandWithout(s: string, lookup: Lookup)
    requires !Contains(s)
    ensures Expand(s, lookup) == s
    decreases |s|
  {
    if |s| < 2 {
      if s != [] && s[0] != '{' {
        assert s[1..] == [] && [s[0]] + [] == s;
      }
    } else if s[0] == '\\' {
      ExpandWithout(s[2..], lookup);
      assert s[..2] + s[2..] == s;
    } else if s[0] == '{' {
      var end := IndexOf(s, '}');
      if end < |s| {
        SkipSpan(s, end);
        ExpandWithout(s[end + 1..], lookup);
        assert s[..end + 1] + s[end + 1..] == s;
      }
    } else {
      ExpandWithout(s[1..], lookup);
      assert [s[0]] + s[1..] == s;
    }
  }

  // ----- The pass over arguments and nodes -----

  predicate HasSpan(s: string) {
    exists i :: 0 <= i < |s| - 1 && s[i] == '{' && s[i + 1] == '$'
  }

  /** A bare placeholder argument is expanded and classified again; a quoted one is expanded but stays
      a literal. */
  function SubstituteArg(a: Arg, lookup: Lookup): Arg {
    if a.kind == Placeholder then
      var t := Expand(a.raw, lookup);
      Arg(t, a.quoted, ClassifyArg(t, a.quoted))
    else if a.quoted && HasSpan(a.raw) then a.(raw := Expand(a.raw, lookup))
    else a
  }

  /** The arguments of a statement, rewritten in place. */
  method SubstituteArgs(args: array<Arg>, lookup: Lookup)
    modifies args
    ensures args[..] == SubstituteAll(old(args[..]), lookup)
  {
    for i := 0 to args.Length
      invariant forall j :: 0 <= j < i ==> args[j] == SubstituteArg(old(args[j]), lookup)
      invariant forall j :: i <= j < args.Length ==> args[j] == old(args[j])
    {
      var a := args[i];
      if a.kind == Placeholder {
        var t := ExpandEnv(a.raw, lookup);
        args[i] := Arg(t, a.quoted, ClassifyArg(t, a.quoted));
      } else if a.quoted && HasSpan(a.raw) {
        var t := ExpandEnv(a.raw, lookup);
        args[i] := a.(raw := t);
      }
    }
  }

  function SubstituteAll(args: seq<Arg>, lookup: Lookup): (r: seq<Arg>)
  {
    seq(|args|, i requires 0 <= i < |args| => SubstituteArg(args[i], lookup))
  }

  function SubstituteNode(n: Node, lookup: Lookup): Node
    decreases n
  {
    match n
    case MatcherDef(name, typ, args) => MatcherDef(name, typ, SubstituteAll(args, lookup))
    case Directive(name, args, hasBlock, block) =>
      Directive(name, SubstituteAll(args, lookup), hasBlock, SubstituteNodes(block, lookup))
  }

  function SubstituteNodes(ns: seq<Node>, lookup: Lookup): seq<Node>
    decreases ns
  {
    if ns == [] then [] else [SubstituteNode(ns[0], lookup)] + SubstituteNodes(ns[1..], lookup)
  }

  /** An argument as the parser builds it, without a placeholder. */
  predicate Inert(a: Arg) {
    a == ArgOf(a.raw, a.quoted) && !Contains(a.raw)
  }

  predicate InertNode(n: Node)
    decreases n
  {
    && (forall i :: 0 <= i < |n.args| ==> Inert(n.args[i]))
    && (n.Directive? ==> InertNodes(n.block))
  }

  predicate InertNodes(ns: seq<Node>)
    decreases ns
  {
    ns != [] ==> InertNode(ns[0]) && InertNodes(ns[1..])
  }

  lemma InertArg(a: Arg, lookup: Lookup)
    requires Inert(a)
    ensures SubstituteArg(a, lookup) == a
  {
    ExpandWithout(a.raw, lookup);
  }

  lemma InertArgs(args: seq<Arg>, lookup: Lookup)
    requires forall i :: 0 <= i < |args| ==> Inert(args[i])
    ensures SubstituteAll(args, lookup) == args
  {
    hide SubstituteArg, Inert;
    forall i | 0 <= i < |args|
      ensures SubstituteArg(args[i], lookup) == args[i]
    {
      InertArg(args[i], lookup);
    }
  }

  /** For every environment: a tree none of whose arguments holds an unescaped "{$" is left as it is. */
  lemma {:induction false} InertNodesKept(ns: seq<Node>, lookup: Lookup)
    requires InertNodes(ns)
    ensures SubstituteNodes(ns, lookup) == ns
    decreases ns
  {
    if ns != [] {
      InertNodeKept(ns[0], lookup);
      InertNodesKept(ns[1..], lookup);
      assert [ns[0]] + ns[1..] == ns;
    }
  }

  lemma {:induction false} InertNodeKept(n: Node, lookup: Lookup)
    requires InertNode(n)
    ensures SubstituteNode(n, lookup) == n
    decreases n
  {
    InertArgs(n.args, lookup);
    if n.Directive? {
      InertNodesKept(n.block, lookup);
    }
  }
}
