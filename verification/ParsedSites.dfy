/** What the fingerprint is computed on: the sites of a text that parses hold no control characters, so
    the markers between them are unambiguous. */
module ParsedSites {
  import opened Objects
  import opened Ast
  import opened Grammar
  import opened Lexer
  import opened CanonicalLayout
  import opened Addresses
  import Quoting
  import Parsing
  import FormatSource
  import opened Fingerprint

  predicate ScannedSym(s: Sym) {
    s.Word? ==> Quoting.NoControl(s.text)
  }

  predicate ScannedMarks(ms: seq<Mark>) {
    forall i :: 0 <= i < |ms| ==> ScannedSym(ms[i].sym)
  }

  /** The directives of a tree, without control characters. */
  predicate ScannedNode(n: Node)
    decreases n
  {
    n.Directive? ==>
      Quoting.NoControl(n.name) && ScannedArgs(n.args) && ScannedNodes(n.block)
  }

  predicate ScannedArgs(args: seq<Arg>) {
    forall i :: 0 <= i < |args| ==> Quoting.NoControl(args[i].raw)
  }

  predicate ScannedNodes(ns: seq<Node>)
    decreases ns
  {
    ns != [] ==> ScannedNode(ns[0]) && ScannedNodes(ns[1..])
  }

  lemma RestScanned(ms: seq<Mark>, n: nat)
    requires n <= |ms| && ScannedMarks(ms)
    ensures ScannedMarks(ms[n..])
  {
    hide ScannedSym;
  }

  lemma ArgsScanned(ms: seq<Mark>)
    requires ScannedMarks(ms) && forall i :: 0 <= i < |ms| ==> ms[i].sym.Word?
    ensures ScannedArgs(ArgsOf(ms))
  {
    hide Quoting.NoControl, ClassifyArg;
    forall i | 0 <= i < |ms|
      ensures Quoting.NoControl(ArgsOf(ms)[i].raw)
    {
      assert ScannedSym(ms[i].sym);
    }
  }

  lemma {:induction false} StatementScanned(ms: seq<Mark>, depth: nat)
    requires ms != [] && ScannedMarks(ms) && Statement(ms, depth).Ok?
    ensures ScannedNode(Statement(ms, depth).value) && ScannedMarks(Statement(ms, depth).rest)
    decreases |ms|, 0
  {
    hide ScannedMarks, Quoting.NoControl, Block, EndsHere, TypeOk, ArgsOf, Words;
    var n := Words(ms[1..]);
    RestScanned(ms, 1 + n);
    if !StartsMatcher(ms[0].sym) {
      WordScanned(ms, n);
      var rest := ms[1 + n..];
      if OpensHere(rest) {
        RestScanned(rest, 1);
        BlockScanned(rest[1..], depth);
      }
    }
  }

  lemma WordScanned(ms: seq<Mark>, n: nat)
    requires ms != [] && ms[0].sym.Word? && ScannedMarks(ms) && n == Words(ms[1..])
    ensures Quoting.NoControl(ms[0].sym.text)
    ensures ScannedArgs(ArgsOf(ms[1..1 + n]))
  {
    hide Quoting.NoControl, ClassifyArg;
    assert ScannedSym(ms[0].sym);
    var words := ms[1..1 + n];
    assert forall i :: 0 <= i < n ==> words[i] == ms[1..][i];
    ArgsScanned(words);
  }

  lemma {:induction false} BlockScanned(ms: seq<Mark>, depth: nat)
    requires ScannedMarks(ms) && Block(ms, depth).Ok?
    ensures ScannedNodes(Block(ms, depth).value) && ScannedMarks(Block(ms, depth).rest)
    decreases |ms|, 2
  {
    hide ScannedMarks, Body, ScannedNodes;
    BodyScanned(ms, depth + 1);
  }

  lemma {:induction false} BodyScanned(ms: seq<Mark>, depth: nat)
    requires ScannedMarks(ms) && Body(ms, depth).Ok?
    ensures ScannedNodes(Body(ms, depth).value) && ScannedMarks(Body(ms, depth).rest)
    decreases |ms|, 1
  {
    hide ScannedMarks, Statement, ScannedNode;
    if ms[0].sym == Close {
      RestScanned(ms, 1);
    } else {
      StatementScanned(ms, depth);
      var r := Statement(ms, depth);
      BodyScanned(r.rest, depth);
      var more := Body(r.rest, depth).value;
      assert ([r.value] + more)[1..] == more;
    }
  }

  lemma {:induction false} SiteScanned(ms: seq<Mark>, addresses: seq<string>)
    requires ScannedMarks(ms) && SiteFrom(ms, addresses).Ok?
    ensures ScannedNodes(SiteFrom(ms, addresses).value.body) && ScannedMarks(SiteFrom(ms, addresses).rest)
    decreases |ms|
  {
    hide ScannedMarks, Block, ScannedNodes;
    RestScanned(ms, 1);
    if ms[0].sym.Word? {
      SiteScanned(ms[1..], addresses + SplitAddress(ms[0].sym.text));
    } else {
      BlockScanned(ms[1..], 0);
    }
  }

  predicate ScannedSites(f: File) {
    forall i :: 0 <= i < |f.sites| ==> ScannedNodes(f.sites[i].body)
  }

  lemma {:induction false} ConstructsScanned(ms: seq<Mark>, f: File)
    requires ScannedMarks(ms) && ScannedSites(f) && Constructs(ms, f).Ok?
    ensures ScannedSites(Constructs(ms, f).value)
    decreases |ms|
  {
    hide ScannedMarks, StartsSite, BadWrap, Statement, SiteFrom, ScannedNodes;
    if ms != [] {
      if StartsSite(ms) {
        FreshScanned(ms);
        SiteScanned(Fresh(ms), []);
        var r := SiteFrom(Fresh(ms), []);
        ConstructsScanned(r.rest, f.(sites := f.sites + [r.value]));
      } else {
        StatementScanned(ms, 0);
        var r := Statement(ms, 0);
        ConstructsScanned(r.rest, f.(body := f.body + [r.value]));
      }
    }
  }

  lemma FreshScanned(ms: seq<Mark>)
    requires ScannedMarks(ms)
    ensures ScannedMarks(Fresh(ms))
  {
    hide ScannedSym;
  }

  lemma FileScanned(ms: seq<Mark>)
    requires ScannedMarks(ms) && FileFrom(ms).Ok?
    ensures ScannedSites(FileFrom(ms).value)
  {
    hide ScannedMarks, Block, Constructs;
    if ms != [] && ms[0].sym == Open {
      RestScanned(ms, 1);
      BlockScanned(ms[1..], 0);
      var r := Block(ms[1..], 0);
      ConstructsScanned(r.rest, File(true, r.value, [], []));
    } else {
      ConstructsScanned(ms, File(false, [], [], []));
    }
  }

  lemma TokenScanned(t: Token)
    requires TokenOk(t) && t.kind == Kind.Word
    ensures Quoting.NoControl(t.text)
  {
    if !t.quoted {
      forall i | 0 <= i < |t.text|
        ensures !IsControl(t.text[i])
      {
        Quoting.NotBlankInside(t.text, i);
      }
    }
  }

  lemma {:induction false} MarksScanned(toks: seq<Token>, gap: Gap)
    requires forall i :: 0 <= i < |toks| ==> TokenOk(toks[i])
    ensures ScannedMarks(Parsing.MarksOf(toks, gap))
  {
    hide TokenOk, Quoting.NoControl;
    if toks != [] && toks[0].kind != EOF {
      assert forall i :: 0 <= i < |toks[1..]| ==> toks[1..][i] == toks[i + 1];
      if Parsing.IsSeparator(toks[0].kind) {
        MarksScanned(toks[1..], Parsing.Widen(gap, toks[0].kind));
      } else {
        MarksScanned(toks[1..], Tight);
        if toks[0].kind == Kind.Word {
          TokenScanned(toks[0]);
        }
      }
    }
  }

  // ----- Sites of a source text -----

  /** The sites of a text that parses. */
  function SitesOf(src: string): seq<Site> {
    match Tokenize(src)
    case Err(_) => []
    case Ok(toks) => match FormatSource.ParseTokens(toks) case Err(_) => [] case Ok(f, _) => f.sites
  }

  lemma {:induction false} ShapesClean(ns: seq<Node>)
    requires ScannedNodes(ns)
    ensures CleanAll(ShapesOf(ns))
    decreases ns
  {
    hide Quoting.NoControl, CleanText;
    if ns != [] {
      ShapesClean(ns[1..]);
      if ns[0].Directive? {
        ShapeClean(ns[0]);
        var more := ShapesOf(ns[1..]);
        assert ([ShapeOf(ns[0])] + more)[1..] == more;
      } else {
        assert [] + ShapesOf(ns[1..]) == ShapesOf(ns[1..]);
      }
    }
  }

  lemma {:induction false} ShapeClean(n: Node)
    requires n.Directive? && ScannedNode(n)
    ensures Clean(ShapeOf(n))
    decreases n
  {
    hide Quoting.NoControl, CleanText;
    ShapesClean(n.block);
    ScannedClean(n.name);
    forall i | 0 <= i < |n.args|
      ensures CleanText(n.args[i].raw)
    {
      ScannedClean(n.args[i].raw);
    }
  }

  lemma {:induction false} VocabularyScanned(body: seq<Node>)
    requires forall i :: 0 <= i < |body| ==> ScannedNode(body[i])
    ensures forall i :: 0 <= i < |Vocabulary(body)| ==> ScannedNode(Vocabulary(body)[i])
  {
    hide ScannedNode;
    if body != [] {
      VocabularyScanned(body[..|body| - 1]);
    }
  }

  lemma {:induction false} NodesScanned(ns: seq<Node>)
    ensures ScannedNodes(ns) <==> forall i :: 0 <= i < |ns| ==> ScannedNode(ns[i])
  {
    hide ScannedNode;
    if ns != [] {
      NodesScanned(ns[1..]);
      assert forall i :: 1 <= i < |ns| ==> ns[i] == ns[1..][i - 1];
      assert forall i :: 0 <= i < |ns| - 1 ==> ns[1..][i] == ns[i + 1];
    }
  }

  lemma SiteClean(src: string, i: nat)
    requires i < |SitesOf(src)|
    ensures CleanAll(ShapesOf(Vocabulary(SitesOf(src)[i].body)))
  {
    hide Tokenize, FileFrom, Parsing.MarksOf, ShapesOf, ScannedNodes, ScannedMarks, TokenOk, Vocabulary;
    FormatSource.TokenizedOk(src);
    var toks := Tokenize(src).toks;
    MarksScanned(toks, Line);
    FileScanned(Parsing.MarksOf(toks, Line));
    var body := SitesOf(src)[i].body;
    NodesScanned(body);
    VocabularyScanned(body);
    NodesScanned(Vocabulary(body));
    ShapesClean(Vocabulary(body));
  }

  /** Sites of texts that parse are serialised alike exactly when their vocabularies have the same shape. */
  lemma SourcesAlikeIff(a: string, i: nat, b: string, j: nat)
    requires i < |SitesOf(a)| && j < |SitesOf(b)|
    ensures var x, y := ShapesOf(Vocabulary(SitesOf(a)[i].body)), ShapesOf(Vocabulary(SitesOf(b)[j].body));
            WriteAll(x) == WriteAll(y) <==> x == y
  {
    hide SitesOf, Vocabulary, ShapesOf, WriteAll, CleanAll;
    SiteClean(a, i);
    SiteClean(b, j);
    SitesAlikeIff(SitesOf(a)[i].body, SitesOf(b)[j].body);
  }
}
