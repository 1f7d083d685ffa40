/** The cache-key fingerprint (internal/config/cache.go:14-68): what a site's key vocabulary is
    serialised to before it is hashed. */
module Fingerprint {
  import opened Objects
  import opened Ast
  import Quoting

  const VOCABULARY: set<string> := {"cache_key", "normalize", "classify", "tenant", "device_detect", "geo"}

  const NAME: char := '\U{01}'
  const ARG: char := '\U{02}'
  const OPEN: char := '\U{03}'
  const CLOSE: char := '\U{04}'

  /** What the fingerprint sees of a directive: not its arguments' quoting, and no matchers in its block. */
  datatype Shape = Shape(name: string, args: seq<string>, hasBlock: bool, block: seq<Shape>)

  function Raws(args: seq<Arg>): (r: seq<string>)
    ensures |r| == |args|
  {
    seq(|args|, i requires 0 <= i < |args| => args[i].raw)
  }

  function ShapesOf(ns: seq<Node>): seq<Shape>
    decreases ns
  {
    if ns == [] then []
    else (if ns[0].Directive? then [ShapeOf(ns[0])] else []) + ShapesOf(ns[1..])
  }

  function ShapeOf(n: Node): Shape
    requires n.Directive?
    decreases n
  {
    Shape(n.name, Raws(n.args), n.hasBlock, if n.hasBlock then ShapesOf(n.block) else [])
  }

  // ----- Writing -----

  function ArgsText(args: seq<string>): string {
    if args == [] then "" else [ARG] + args[0] + ArgsText(args[1..])
  }

  function Write(d: Shape): string
    decreases d
  {
    [NAME] + d.name + ArgsText(d.args) + (if d.hasBlock then [OPEN] + WriteAll(d.block) + [CLOSE] else "")
  }

  function WriteAll(ds: seq<Shape>): string
    decreases ds
  {
    if ds == [] then "" else Write(ds[0]) + WriteAll(ds[1..])
  }

  /** The builder's recursion over the tree. */
  method WriteDirective(b: string, n: Node) returns (r: string)
    requires n.Directive?
    ensures r == b + Write(ShapeOf(n))
    decreases n, 1
  {
    hide ArgsText, ShapesOf, WriteAll, Raws;
    var head := b + [NAME] + n.name;
    r := WriteArgs(head, n.args);
    ghost var args := ArgsText(Raws(n.args));
    if n.hasBlock {
      r := WriteBlock(r + [OPEN], n);
      ghost var body := WriteAll(ShapesOf(n.block));
      assert head + args + [OPEN] + body + [CLOSE] == b + ([NAME] + n.name + args + ([OPEN] + body + [CLOSE]));
      r := r + [CLOSE];
    } else {
      assert head + args == b + ([NAME] + n.name + args + "");
    }
  }

  method WriteArgs(b: string, args: seq<Arg>) returns (r: string)
    ensures r == b + ArgsText(Raws(args))
  {
    hide ArgsText;
    r := b;
    ghost var raws := Raws(args);
    assert raws[0..] == raws;
    for i := 0 to |args|
      invariant r + ArgsText(raws[i..]) == b + ArgsText(raws)
    {
      ArgsFront(raws[i..]);
      assert raws[i..][1..] == raws[i + 1..];
      Regroup(r, [ARG] + args[i].raw, ArgsText(raws[i + 1..]));
      Regroup(r, [ARG], args[i].raw);
      r := r + [ARG] + args[i].raw;
    }
    NoArgs(raws[|args|..], r);
  }

  lemma ArgsFront(args: seq<string>)
    requires args != []
    ensures ArgsText(args) == [ARG] + args[0] + ArgsText(args[1..])
  {
  }

  lemma NoArgs(args: seq<string>, r: string)
    requires args == []
    ensures r + ArgsText(args) == r
  {
  }

  method WriteBlock(b: string, n: Node) returns (r: string)
    requires n.Directive?
    ensures r == b + WriteAll(ShapesOf(n.block))
    decreases n, 0
  {
    hide WriteAll, ShapesOf, Write, ShapeOf;
    r := b;
    assert n.block[0..] == n.block;
    for i := 0 to |n.block|
      invariant r + WriteAll(ShapesOf(n.block[i..])) == b + WriteAll(ShapesOf(n.block))
    {
      OneShape(n.block[i..], r);
      assert n.block[i..][1..] == n.block[i + 1..];
      if n.block[i].Directive? {
        r := WriteDirective(r, n.block[i]);
      }
    }
    NoBlock(n.block[|n.block|..], r);
  }

  lemma NoBlock(ns: seq<Node>, r: string)
    requires ns == []
    ensures r + WriteAll(ShapesOf(ns)) == r
  {
  }

  lemma OneShape(ns: seq<Node>, r: string)
    requires ns != []
    ensures r + WriteAll(ShapesOf(ns)) ==
            (if ns[0].Directive? then r + Write(ShapeOf(ns[0])) else r) + WriteAll(ShapesOf(ns[1..]))
  {
    hide Write, ShapeOf, WriteAll;
    var more := ShapesOf(ns[1..]);
    if ns[0].Directive? {
      WriteFront(ShapeOf(ns[0]), more);
      Regroup(r, Write(ShapeOf(ns[0])), WriteAll(more));
    } else {
      assert [] + more == more;
    }
  }

  lemma WriteFront(d: Shape, more: seq<Shape>)
    ensures WriteAll([d] + more) == Write(d) + WriteAll(more)
  {
    hide Write;
    assert ([d] + more)[1..] == more;
  }

  lemma Regroup(a: string, b: string, c: string)
    ensures a + b + c == a + (b + c)
  {
  }

  // ----- Reading -----

  predicate IsMark(c: char) {
    NAME <= c <= CLOSE
  }

  predicate CleanText(t: string) {
    forall i :: 0 <= i < |t| ==> !IsMark(t[i])
  }

  function TextLen(s: string): (n: nat)
    ensures n <= |s| && (n < |s| ==> IsMark(s[n]))
  {
    if s == [] || IsMark(s[0]) then 0 else 1 + TextLen(s[1..])
  }

  function ReadArgs(s: string): (r: (seq<string>, string))
    ensures |r.1| <= |s|
  {
    if s == [] || s[0] != ARG then ([], s)
    else
      var n := TextLen(s[1..]);
      var (more, rest) := ReadArgs(s[1 + n..]);
      ([s[1..1 + n]] + more, rest)
  }

  function Read(s: string): (r: (Shape, string))
    requires s != [] && s[0] == NAME
    ensures |r.1| < |s|
    decreases |s|, 0
  {
    var n := TextLen(s[1..]);
    var (args, rest) := ReadArgs(s[1 + n..]);
    if rest == [] || rest[0] != OPEN then (Shape(s[1..1 + n], args, false, []), rest)
    else
      var (block, after) := ReadAll(rest[1..]);
      (Shape(s[1..1 + n], args, true, block), if after == [] then [] else after[1..])
  }

  function ReadAll(s: string): (r: (seq<Shape>, string))
    ensures |r.1| <= |s|
    decreases |s|, 1
  {
    if s == [] || s[0] != NAME then ([], s)
    else
      var (d, rest) := Read(s);
      var (more, after) := ReadAll(rest);
      ([d] + more, after)
  }

  // ----- The reader undoes the writer -----

  predicate Clean(d: Shape)
    decreases d
  {
    && CleanText(d.name) && (forall i :: 0 <= i < |d.args| ==> CleanText(d.args[i]))
    && (!d.hasBlock ==> d.block == []) && CleanAll(d.block)
  }

  predicate CleanAll(ds: seq<Shape>)
    decreases ds
  {
    ds != [] ==> Clean(ds[0]) && CleanAll(ds[1..])
  }

  lemma {:induction false} TextRead(t: string, rest: string)
    requires CleanText(t) && (rest == [] || IsMark(rest[0]))
    ensures TextLen(t + rest) == |t|
  {
    if t == [] {
      assert t + rest == rest;
    } else {
      assert (t + rest)[1..] == t[1..] + rest;
      TextRead(t[1..], rest);
    }
  }

  /** What may follow a directive: nothing, another one, or the end of the block. */
  predicate Follows(rest: string) {
    rest == [] || rest[0] == NAME || rest[0] == CLOSE
  }

  lemma {:induction false} ArgsRead(args: seq<string>, rest: string)
    requires (forall i :: 0 <= i < |args| ==> CleanText(args[i])) && (rest == [] || (IsMark(rest[0]) && rest[0] != ARG))
    ensures ReadArgs(ArgsText(args) + rest) == (args, rest)
  {
    if args == [] {
      assert "" + rest == rest;
    } else {
      hide ReadArgs, TextLen, CleanText;
      ArgsRead(args[1..], rest);
      var tail := ArgsText(args[1..]) + rest;
      ArgsStart(args[1..], rest);
      Regroup([ARG] + args[0], ArgsText(args[1..]), rest);
      ArgRead(args[0], tail);
      assert [args[0]] + args[1..] == args;
    }
  }

  lemma ArgRead(arg: string, tail: string)
    requires CleanText(arg) && (tail == [] || IsMark(tail[0]))
    ensures ReadArgs([ARG] + arg + tail) == ([arg] + ReadArgs(tail).0, ReadArgs(tail).1)
  {
    hide TextLen;
    TextRead(arg, tail);
    var s := [ARG] + arg + tail;
    assert s[1..] == arg + tail;
    assert s[1..1 + |arg|] == arg && s[1 + |arg|..] == tail;
  }

  lemma ArgsStart(args: seq<string>, rest: string)
    requires rest == [] || IsMark(rest[0])
    ensures var s := ArgsText(args) + rest; s == [] || IsMark(s[0])
  {
    if args == [] {
      assert "" + rest == rest;
    } else {
      assert (ArgsText(args) + rest)[0] == ARG;
    }
  }

  lemma {:induction false} ReadBack(d: Shape, rest: string)
    requires Clean(d) && Follows(rest)
    ensures Read(Write(d) + rest) == (d, rest)
    decreases d
  {
    hide ReadArgs, ArgsText, CleanText, TextLen;
    var tail := if d.hasBlock then [OPEN] + (WriteAll(d.block) + ([CLOSE] + rest)) else rest;
    var s := Write(d) + rest;
    var args := ArgsText(d.args) + tail;
    assert s == [NAME] + (d.name + args);
    assert s[1..] == d.name + args;
    ArgsStart(d.args, tail);
    TextRead(d.name, args);
    assert s[1..1 + |d.name|] == d.name && s[1 + |d.name|..] == args;
    ArgsRead(d.args, tail);
    if d.hasBlock {
      assert tail[1..] == WriteAll(d.block) + ([CLOSE] + rest);
      AllReadBack(d.block, [CLOSE] + rest);
      assert ([CLOSE] + rest)[1..] == rest;
    }
  }

  lemma {:induction false} AllReadBack(ds: seq<Shape>, rest: string)
    requires CleanAll(ds) && (rest == [] || rest[0] == CLOSE)
    ensures ReadAll(WriteAll(ds) + rest) == (ds, rest)
    decreases ds
  {
    hide Write, Read, Clean;
    if ds == [] {
      assert "" + rest == rest;
    } else {
      var tail := WriteAll(ds[1..]) + rest;
      assert WriteAll(ds) + rest == Write(ds[0]) + tail;
      WriteStarts(ds[0], tail);
      TailFollows(ds[1..], rest);
      ReadBack(ds[0], tail);
      AllReadBack(ds[1..], rest);
      assert [ds[0]] + ds[1..] == ds;
    }
  }

  lemma WriteStarts(d: Shape, tail: string)
    ensures var s := Write(d) + tail; s != [] && s[0] == NAME
  {
  }

  lemma TailFollows(ds: seq<Shape>, rest: string)
    requires rest == [] || rest[0] == CLOSE
    ensures Follows(WriteAll(ds) + rest)
  {
    hide Write;
    if ds == [] {
      assert "" + rest == rest;
    } else {
      WriteStarts(ds[0], WriteAll(ds[1..]) + rest);
      assert WriteAll(ds) + rest == Write(ds[0]) + (WriteAll(ds[1..]) + rest);
    }
  }

  /** Two vocabularies are serialised alike exactly when they are the same directives. */
  lemma WriteInjective(a: seq<Shape>, b: seq<Shape>)
    requires CleanAll(a) && CleanAll(b)
    ensures WriteAll(a) == WriteAll(b) <==> a == b
  {
    hide WriteAll, CleanAll, ReadAll;
    AllReadBack(a, "");
    AllReadBack(b, "");
    assert WriteAll(a) + "" == WriteAll(a) && WriteAll(b) + "" == WriteAll(b);
  }

  // ----- Sites -----

  /** The vocabulary directives of a site body, in order. */
  function Vocabulary(body: seq<Node>): seq<Node> {
    if body == [] then []
    else Vocabulary(body[..|body| - 1]) + (if InVocabulary(body[|body| - 1]) then [body[|body| - 1]] else [])
  }

  predicate InVocabulary(n: Node) {
    n.Directive? && n.name in VOCABULARY
  }

  /** What is hashed for a site. */
  method Serialise(body: seq<Node>) returns (b: string)
    ensures b == WriteAll(ShapesOf(Vocabulary(body)))
  {
    hide Write, ShapeOf, WriteAll, ShapesOf, InVocabulary;
    b := "";
    NothingWritten();
    for i := 0 to |body|
      invariant b == WriteAll(ShapesOf(Vocabulary(body[..i])))
    {
      VocabularyStep(body, i);
      if body[i].Directive? && body[i].name in VOCABULARY {
        WriteLast(Vocabulary(body[..i]), body[i]);
        b := WriteDirective(b, body[i]);
      }
    }
    assert body[..|body|] == body;
  }

  lemma NothingWritten()
    ensures WriteAll(ShapesOf([])) == ""
  {
  }

  lemma VocabularyStep(body: seq<Node>, i: nat)
    requires i < |body|
    ensures InVocabulary(body[i]) == (body[i].Directive? && body[i].name in VOCABULARY)
    ensures Vocabulary(body[..i + 1]) == if InVocabulary(body[i]) then Vocabulary(body[..i]) + [body[i]] else Vocabulary(body[..i])
  {
    assert body[..i + 1][..i] == body[..i];
  }

  lemma {:induction false} WriteLast(ns: seq<Node>, n: Node)
    requires n.Directive?
    ensures WriteAll(ShapesOf(ns + [n])) == WriteAll(ShapesOf(ns)) + Write(ShapeOf(n))
  {
    hide Write, ShapeOf, WriteAll, ShapesOf;
    if ns == [] {
      assert [] + [n] == [n];
      OneWritten(n);
    } else {
      assert (ns + [n])[1..] == ns[1..] + [n] && (ns + [n])[0] == ns[0];
      WriteLast(ns[1..], n);
      OneShape(ns, "");
      OneShape(ns + [n], "");
      EmptyFront(WriteAll(ShapesOf(ns)));
      EmptyFront(WriteAll(ShapesOf(ns + [n])));
      var head := if ns[0].Directive? then "" + Write(ShapeOf(ns[0])) else "";
      Regroup(head, WriteAll(ShapesOf(ns[1..])), Write(ShapeOf(n)));
    }
  }

  lemma EmptyFront(t: string)
    ensures "" + t == t
  {
  }

  lemma OneWritten(n: Node)
    requires n.Directive?
    ensures WriteAll(ShapesOf([n])) == WriteAll(ShapesOf([])) + Write(ShapeOf(n))
  {
    hide Write, ShapeOf;
    assert [n][1..] == [] && [ShapeOf(n)] + [] == [ShapeOf(n)] && [ShapeOf(n)][1..] == [];
    assert Write(ShapeOf(n)) + "" == Write(ShapeOf(n)) && "" + Write(ShapeOf(n)) == Write(ShapeOf(n));
  }

  /** Two sites are serialised alike exactly when their vocabularies have the same shape: the same
      directives, arguments and nested directives in the same order. */
  lemma SitesAlikeIff(a: seq<Node>, b: seq<Node>)
    requires CleanAll(ShapesOf(Vocabulary(a))) && CleanAll(ShapesOf(Vocabulary(b)))
    ensures WriteAll(ShapesOf(Vocabulary(a))) == WriteAll(ShapesOf(Vocabulary(b)))
            <==> ShapesOf(Vocabulary(a)) == ShapesOf(Vocabulary(b))
  {
    WriteInjective(ShapesOf(Vocabulary(a)), ShapesOf(Vocabulary(b)));
  }

  /** Matcher definitions are not part of it, although classifier rows refer to them by name. */
  lemma {:induction false} MatchersUnseen(body: seq<Node>, i: nat, m: Node)
    requires i < |body| && body[i].MatcherDef? && m.MatcherDef?
    ensures Vocabulary(body[i := m]) == Vocabulary(body)
  {
    var n := |body| - 1;
    if i < n {
      MatchersUnseen(body[..n], i, m);
      assert body[i := m][..n] == body[..n][i := m];
    } else {
      assert body[i := m][..n] == body[..n];
    }
  }

  /** With a marker in a text, different directives can be serialised alike. */
  lemma MarkersCollide(name: string, arg: string)
    ensures var a, b := Shape(name, [arg], false, []), Shape(name + [ARG] + arg, [], false, []);
            a != b && Write(a) == Write(b)
  {
    var a, b := Shape(name, [arg], false, []), Shape(name + [ARG] + arg, [], false, []);
    assert [arg][1..] == [];
    assert ArgsText([arg]) == [ARG] + arg + "";
    assert [NAME] + name + ([ARG] + arg + "") + "" == [NAME] + (name + [ARG] + arg) + "" + "";
  }

  // ----- Texts from the scanner -----

  /** A text without control characters, as the scanner delivers it, is clean. */
  lemma ScannedClean(t: string)
    requires Quoting.NoControl(t)
    ensures CleanText(t)
  {
  }
}
