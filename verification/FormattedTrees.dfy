/** What formatting does to the syntax tree of a block body or an imported fragment: a bare word that
    has to be quoted loses its bare status, and nothing else changes. */
module FormattedTrees {
  import opened Ast
  import opened Quoting
  import opened Grammar

  // ----- The formatted symbols -----

  function Requoted(s: Sym): Sym {
    if s.Word? then Word(s.text, s.quoted || NeedsQuoting(s.text)) else s
  }

  /** Every gap becomes a line break or nothing; a brace stands at the end of its line, a closing brace
      at the start of one as well. */
  function Spread(ms: seq<Mark>, afterBrace: bool): (r: seq<Mark>)
    ensures |r| == |ms|
  {
    if ms == [] then []
    else
      [Mark(if ms[0].gap != Tight || ms[0].sym == Close || afterBrace then Line else Tight, Requoted(ms[0].sym))]
      + Spread(ms[1..], !ms[0].sym.Word?)
  }

  // ----- The formatted tree -----

  function RequotedArg(a: Arg): Arg {
    ArgOf(a.raw, a.quoted || NeedsQuoting(a.raw))
  }

  function RequotedArgs(args: seq<Arg>): (r: seq<Arg>)
  {
    seq(|args|, i requires 0 <= i < |args| => RequotedArg(args[i]))
  }

  /** A matcher whose name has to be quoted turns into a directive. */
  function RequotedNode(n: Node): Node
    decreases n
  {
    match n
    case MatcherDef(name, typ, args) =>
      if NeedsQuoting("@" + name) then Directive("@" + name, [ArgOf(typ, false)] + RequotedArgs(args), false, [])
      else MatcherDef(name, typ, RequotedArgs(args))
    case Directive(name, args, hasBlock, block) => Directive(name, RequotedArgs(args), hasBlock, RequotedNodes(block))
  }

  function RequotedNodes(ns: seq<Node>): seq<Node>
    decreases ns
  {
    if ns == [] then [] else [RequotedNode(ns[0])] + RequotedNodes(ns[1..])
  }

  predicate EndsInBlock(n: Node) {
    n.Directive? && n.hasBlock
  }

  // ----- Statements -----

  lemma {:induction false} SpreadWords(ms: seq<Mark>)
    ensures var n, s := Words(ms), Spread(ms, false);
            && Words(s) == n && s[n..] == Spread(ms[n..], false)
            && forall i :: 0 <= i < n ==> s[i] == Mark(Tight, Requoted(ms[i].sym))
  {
    hide NeedsQuoting, Spread, Requoted;
    var s := Spread(ms, false);
    if Words(ms) > 0 {
      SpreadStep(ms, false);
      SpreadWords(ms[1..]);
      var n := Words(ms[1..]);
      WordStep(ms, s);
      assert ms[1..][n..] == ms[1 + n..] && s[1..][n..] == s[1 + n..];
      assert forall i :: 1 <= i < 1 + n ==> s[i] == s[1..][i - 1] && ms[i] == ms[1..][i - 1];
    } else {
      assert ms[0..] == ms && s[0..] == s;
      if ms != [] {
        SpreadStep(ms, false);
        RequotedWord(ms[0].sym);
      }
    }
  }

  lemma WordStep(ms: seq<Mark>, s: seq<Mark>)
    requires Words(ms) > 0 && s != [] && s[0] == Mark(Tight, Requoted(ms[0].sym))
    ensures Words(ms) == 1 + Words(ms[1..]) && Words(s) == 1 + Words(s[1..])
  {
    hide NeedsQuoting;
  }

  lemma RequotedWord(s: Sym)
    ensures Requoted(s).Word? == s.Word?
  {
  }

  lemma SpreadArgs(ms: seq<Mark>, s: seq<Mark>)
    requires |ms| == |s|
    requires forall i :: 0 <= i < |ms| ==> ms[i].sym.Word? && s[i].sym.Word? && s[i].sym == Requoted(ms[i].sym)
    ensures ArgsOf(s) == RequotedArgs(ArgsOf(ms))
  {
    hide NeedsQuoting, ClassifyArg;
  }

  lemma SpreadStep(ms: seq<Mark>, b: bool)
    requires ms != []
    ensures var s := Spread(ms, b);
            && s[0].sym == Requoted(ms[0].sym) && s[1..] == Spread(ms[1..], !ms[0].sym.Word?)
            && s[0].gap == if ms[0].gap != Tight || ms[0].sym == Close || b then Line else Tight
  {
    hide NeedsQuoting;
  }

  /** The words after a statement's first symbol. */
  lemma SpreadTail(ms: seq<Mark>, b: bool)
    requires ms != [] && ms[0].sym.Word?
    ensures var n, s := Words(ms[1..]), Spread(ms, b);
            && s[0].sym == Requoted(ms[0].sym) && Words(s[1..]) == n && s[1 + n..] == Spread(ms[1 + n..], false)
            && ArgsOf(s[1..1 + n]) == RequotedArgs(ArgsOf(ms[1..1 + n]))
            && (n > 0 ==> s[1].sym == Requoted(ms[1].sym) && ArgsOf(s[2..1 + n]) == RequotedArgs(ArgsOf(ms[2..1 + n])))
  {
    hide NeedsQuoting, ClassifyArg, RequotedArgs, ArgsOf, Words, Spread;
    var s := Spread(ms, b);
    SpreadStep(ms, b);
    SpreadWords(ms[1..]);
    var n := Words(ms[1..]);
    assert ms[1..][n..] == ms[1 + n..] && s[1..][n..] == s[1 + n..];
    assert forall i :: 0 <= i < n ==> ms[1 + i] == ms[1..][i] && s[1 + i] == s[1..][i];
    SpreadArgs(ms[1..1 + n], s[1..1 + n]);
    if n > 0 {
      SpreadArgs(ms[2..1 + n], s[2..1 + n]);
    }
  }

  lemma SpreadEnds(ms: seq<Mark>, b: bool)
    ensures EndsHere(ms) ==> EndsHere(Spread(ms, b))
    ensures OpensHere(Spread(ms, false)) == OpensHere(ms)
    ensures OpensHere(ms) ==> ms != [] && Spread(ms, false) != [] && Spread(ms, false)[1..] == Spread(ms[1..], true)
    ensures EndsHere(ms) ==> !OpensHere(ms)
  {
    hide NeedsQuoting;
  }

  lemma SpreadMatcher(ms: seq<Mark>, b: bool)
    requires ms != [] && StartsMatcher(ms[0].sym) && MatcherStatement(ms).Ok?
    ensures var r := MatcherStatement(ms);
            Statement(Spread(ms, b), 0) == Ok(RequotedNode(r.value), Spread(r.rest, false))
    ensures forall d :: Statement(Spread(ms, b), d) == Statement(Spread(ms, b), 0)
  {
    hide NeedsQuoting, ClassifyArg, RequotedArgs, ArgsOf, Words, EndsHere, OpensHere, Spread, Block, ContainsPlaceholder;
    SpreadTail(ms, b);
    var n := Words(ms[1..]);
    SpreadEnds(ms[1 + n..], false);
    assert "@" + ms[0].sym.text[1..] == ms[0].sym.text;
    OneArg(ms[1..1 + n]);
    assert ms[1..1 + n][1..] == ms[2..1 + n];
    RequotedOne(ms[1].sym.text, ArgsOf(ms[2..1 + n]));
  }

  lemma OneArg(ms: seq<Mark>)
    requires ms != [] && forall i :: 0 <= i < |ms| ==> ms[i].sym.Word?
    ensures ArgsOf(ms) == [ArgOf(ms[0].sym.text, ms[0].sym.quoted)] + ArgsOf(ms[1..])
  {
    hide ClassifyArg;
  }

  lemma RequotedOne(typ: string, args: seq<Arg>)
    requires !NeedsQuoting(typ)
    ensures RequotedArgs([ArgOf(typ, false)] + args) == [ArgOf(typ, false)] + RequotedArgs(args)
  {
    hide NeedsQuoting, ClassifyArg;
  }

  lemma {:induction false} SpreadDirective(ms: seq<Mark>, b: bool, depth: nat)
    requires ms != [] && ms[0].sym.Word? && !StartsMatcher(ms[0].sym) && DirectiveStatement(ms, depth).Ok?
    ensures var r := DirectiveStatement(ms, depth);
            Statement(Spread(ms, b), depth) == Ok(RequotedNode(r.value), Spread(r.rest, EndsInBlock(r.value)))
    decreases |ms|, 0
  {
    hide NeedsQuoting, ClassifyArg, RequotedArgs, ArgsOf, Words, EndsHere, OpensHere, Spread, Block;
    SpreadTail(ms, b);
    var n := Words(ms[1..]);
    var rest := ms[1 + n..];
    SpreadEnds(rest, false);
    if OpensHere(rest) {
      SpreadBlock(rest[1..], true, depth);
      SpreadEnds(Block(rest[1..], depth).rest, true);
    }
  }

  lemma {:induction false} SpreadStatement(ms: seq<Mark>, b: bool, depth: nat)
    requires ms != [] && Statement(ms, depth).Ok?
    ensures var r := Statement(ms, depth);
            Statement(Spread(ms, b), depth) == Ok(RequotedNode(r.value), Spread(r.rest, EndsInBlock(r.value)))
    decreases |ms|, 1
  {
    hide MatcherStatement, DirectiveStatement, Spread, RequotedNode;
    if StartsMatcher(ms[0].sym) {
      SpreadMatcher(ms, b);
      MatcherNoBlock(ms);
    } else {
      SpreadDirective(ms, b, depth);
    }
  }

  lemma MatcherNoBlock(ms: seq<Mark>)
    requires ms != [] && StartsMatcher(ms[0].sym) && MatcherStatement(ms).Ok?
    ensures !EndsInBlock(MatcherStatement(ms).value)
  {
    hide TypeOk, ArgsOf, Words, EndsHere, OpensHere;
  }

  lemma {:induction false} SpreadBlock(ms: seq<Mark>, b: bool, depth: nat)
    requires Block(ms, depth).Ok?
    ensures Block(Spread(ms, b), depth) == Ok(RequotedNodes(Block(ms, depth).value), Spread(Block(ms, depth).rest, true))
    decreases |ms|, 3
  {
    hide Spread, RequotedNodes, Body;
    SpreadBody(ms, b, depth + 1);
  }

  /** A formatted block body parses to the formatted tree. */
  lemma {:induction false} SpreadBody(ms: seq<Mark>, b: bool, depth: nat)
    requires Body(ms, depth).Ok?
    ensures Body(Spread(ms, b), depth) == Ok(RequotedNodes(Body(ms, depth).value), Spread(Body(ms, depth).rest, true))
    decreases |ms|, 2
  {
    hide Statement, RequotedNode, NeedsQuoting;
    if ms[0].sym == Close {
      assert Spread(ms, b)[1..] == Spread(ms[1..], true);
    } else {
      SpreadStatement(ms, b, depth);
      var r := Statement(ms, depth);
      SpreadBody(r.rest, EndsInBlock(r.value), depth);
      PrependRequoted(r.value, Body(r.rest, depth).value);
      SpreadFront(ms, b);
    }
  }

  lemma SpreadFront(ms: seq<Mark>, b: bool)
    requires ms != []
    ensures Spread(ms, b) != [] && (Spread(ms, b)[0].sym == Close) == (ms[0].sym == Close)
    ensures (Spread(ms, b)[0].sym == Open) == (ms[0].sym == Open)
  {
  }

  lemma PrependRequoted(n: Node, ns: seq<Node>)
    ensures RequotedNodes([n] + ns) == [RequotedNode(n)] + RequotedNodes(ns)
  {
    hide RequotedNode;
    assert ([n] + ns)[1..] == ns;
  }

  /** And so does a formatted fragment. */
  lemma {:induction false} SpreadFragment(ms: seq<Mark>, b: bool)
    requires Fragment(ms).Ok?
    ensures Fragment(Spread(ms, b)) == Ok(RequotedNodes(Fragment(ms).value), [])
    decreases |ms|
  {
    hide Statement, RequotedNode, NeedsQuoting, Spread;
    if ms == [] {
      assert Spread(ms, b) == [];
    } else {
      SpreadStatement(ms, b, 0);
      var r := Statement(ms, 0);
      SpreadFragment(r.rest, EndsInBlock(r.value));
      PrependRequoted(r.value, Fragment(r.rest).value);
      SpreadFront(ms, b);
    }
  }

  // ----- When the tree is unchanged -----

  /** Classified as the parser does, and not a bare word that has to be quoted. */
  predicate SettledArg(a: Arg) {
    a.kind == ClassifyArg(a.raw, a.quoted) && (a.quoted || !NeedsQuoting(a.raw))
  }

  predicate SettledNode(n: Node)
    decreases n
  {
    && (forall i :: 0 <= i < |n.args| ==> SettledArg(n.args[i]))
    && (n.MatcherDef? ==> !NeedsQuoting("@" + n.name))
    && (n.Directive? ==> Settled(n.block))
  }

  predicate Settled(ns: seq<Node>)
    decreases ns
  {
    ns != [] ==> SettledNode(ns[0]) && Settled(ns[1..])
  }

  lemma SettledArgs(args: seq<Arg>)
    ensures RequotedArgs(args) == args <==> forall i :: 0 <= i < |args| ==> SettledArg(args[i])
  {
    hide NeedsQuoting, ClassifyArg;
    var r := RequotedArgs(args);
    assert forall i :: 0 <= i < |args| ==> r[i] == RequotedArg(args[i]);
    assert forall i :: 0 <= i < |args| ==> (RequotedArg(args[i]) == args[i] <==> SettledArg(args[i]));
    if r == args {
      assert forall i :: 0 <= i < |args| ==> r[i] == args[i];
    }
  }

  lemma {:induction false} SettledNodeIff(n: Node)
    ensures RequotedNode(n) == n <==> SettledNode(n)
    decreases n
  {
    hide NeedsQuoting, SettledArg, RequotedArgs;
    SettledArgs(n.args);
    if n.Directive? {
      SettledIff(n.block);
    }
  }

  /** Formatting keeps a tree exactly when no bare argument and no matcher name in it has to be
      quoted. */
  lemma {:induction false} SettledIff(ns: seq<Node>)
    ensures RequotedNodes(ns) == ns <==> Settled(ns)
    decreases ns
  {
    hide RequotedNode, SettledNode;
    if ns != [] {
      SettledNodeIff(ns[0]);
      SettledIff(ns[1..]);
      var r := RequotedNodes(ns);
      assert r[0] == RequotedNode(ns[0]) && r[1..] == RequotedNodes(ns[1..]);
      assert [ns[0]] + ns[1..] == ns;
    }
  }
}
