/** The statement parser as the source runs it (internal/cadishfile/parse.go): a cursor over the tokens
    and a depth counter. Every method is proved against the grammar. */
module Parsing {
  import opened Ast
  import opened Lexer
  import opened Grammar
  import opened Addresses

  datatype Outcome<T> = Got(value: T) | Failed(error: Grammar.Error)

  // ----- Tokens as symbols -----

  /** One EOF, at the end. */
  predicate Stream(toks: seq<Token>) {
    && toks != [] && toks[|toks| - 1].kind == EOF
    && forall i :: 0 <= i < |toks| - 1 ==> toks[i].kind != EOF
  }

  predicate IsSeparator(k: Kind) {
    k == Newline || k == Kind.Semicolon || k == Comment
  }

  function Widen(gap: Gap, k: Kind): Gap {
    if gap == Semi || k == Kind.Semicolon then Semi else Line
  }

  function SymOf(t: Token): Sym {
    if t.kind == OpenBrace then Open else if t.kind == CloseBrace then Close else Sym.Word(t.text, t.quoted)
  }

  /** The symbols of a token list, the first one set off by at least `gap`. */
  function MarksOf(ts: seq<Token>, gap: Gap): seq<Mark> {
    if ts == [] || ts[0].kind == EOF then []
    else if IsSeparator(ts[0].kind) then MarksOf(ts[1..], Widen(gap, ts[0].kind))
    else [Mark(gap, SymOf(ts[0]))] + MarksOf(ts[1..], Tight)
  }

  lemma {:induction false} FreshMarks(ts: seq<Token>, g: Gap, h: Gap)
    ensures Fresh(MarksOf(ts, g)) == Fresh(MarksOf(ts, h))
  {
    if ts != [] && ts[0].kind != EOF && IsSeparator(ts[0].kind) {
      FreshMarks(ts[1..], Widen(g, ts[0].kind), Widen(h, ts[0].kind));
    }
  }

  /** A separator in front widens the gap. */
  lemma {:induction false} WideFront(ts: seq<Token>, g: Gap)
    requires ts != [] && IsSeparator(ts[0].kind)
    ensures MarksOf(ts, g) != [] ==> MarksOf(ts, g)[0].gap != Tight
  {
    Widened(ts[1..], Widen(g, ts[0].kind));
  }

  lemma {:induction false} Widened(ts: seq<Token>, g: Gap)
    requires g != Tight
    ensures MarksOf(ts, g) != [] ==> MarksOf(ts, g)[0].gap != Tight
  {
    if ts != [] && IsSeparator(ts[0].kind) {
      Widened(ts[1..], Widen(g, ts[0].kind));
    }
  }

  lemma FreshTail(ms: seq<Mark>)
    requires ms != []
    ensures Fresh(ms) != [] && Fresh(ms)[0].sym == ms[0].sym && Fresh(ms)[1..] == ms[1..]
  {
  }

  lemma FreshStatement(ms: seq<Mark>, depth: nat)
    requires ms != []
    ensures Statement(Fresh(ms), depth) == Statement(ms, depth)
  {
    hide Block, Words, ArgsOf, TypeOk;
    FreshTail(ms);
    FreshSlices(ms, Words(ms[1..]));
  }

  lemma FreshSlices(ms: seq<Mark>, n: nat)
    requires n < |ms|
    ensures var f := Fresh(ms);
            f[1 + n..] == ms[1 + n..] && f[1..1 + n] == ms[1..1 + n] && (n > 0 ==> f[1] == ms[1] && f[2..1 + n] == ms[2..1 + n])
  {
  }

  lemma FreshBody(ms: seq<Mark>, depth: nat)
    ensures Body(Fresh(ms), depth) == Body(ms, depth)
  {
    hide Statement;
    if ms != [] {
      FreshTail(ms);
      FreshStatement(ms, depth);
    }
  }

  lemma FreshFragment(ms: seq<Mark>)
    ensures Fragment(Fresh(ms)) == Fragment(ms)
  {
    hide Statement;
    if ms != [] {
      FreshTail(ms);
      FreshStatement(ms, 0);
    }
  }

  ghost function Onto(acc: seq<Node>, r: Parsed<seq<Node>>): Parsed<seq<Node>> {
    if r.Ok? then Parsed.Ok(acc + r.value, r.rest) else r
  }

  lemma OntoOne(acc: seq<Node>, n: Node, r: Parsed<seq<Node>>)
    ensures Onto(acc, Grammar.Prepend(n, r)) == Onto(acc + [n], r)
  {
    if r.Ok? {
      assert acc + ([n] + r.value) == acc + [n] + r.value;
    }
  }

  class Parser {
    const toks: seq<Token>
    var pos: nat
    var depth: nat

    ghost predicate Valid()
      reads this
    {
      Stream(toks) && pos < |toks|
    }

    /** What lies ahead at the start of a statement. */
    ghost function Ahead(): seq<Mark>
      requires Valid()
      reads this
    {
      Fresh(MarksOf(toks[pos..], Tight))
    }

    /** What lies ahead inside a statement. */
    ghost function Following(): seq<Mark>
      requires Valid()
      reads this
    {
      MarksOf(toks[pos..], Tight)
    }

    constructor (tokens: seq<Token>)
      requires Stream(tokens)
      ensures Valid() && toks == tokens && Ahead() == Fresh(MarksOf(tokens, Tight)) && depth == 0
    {
      toks, pos, depth := tokens, 0, 0;
      new;
      assert toks[0..] == toks;
    }

    function Cur(): Token
      requires Valid()
      reads this
    {
      toks[pos]
    }

    /** Steps over a token other than EOF. */
    method Next() returns (t: Token)
      requires Valid()
      modifies `pos
      ensures Valid() && t == old(Cur())
      ensures t.kind == EOF ==> pos == old(pos)
      ensures t.kind != EOF ==> pos == old(pos) + 1 && toks[pos..] == old(toks[pos..])[1..]
    {
      t := toks[pos];
      if t.kind != EOF {
        pos := pos + 1;
      }
    }

    method SkipSeparators()
      requires Valid()
      modifies `pos
      ensures Valid() && pos >= old(pos) && Ahead() == old(Ahead()) && !IsSeparator(Cur().kind)
    {
      while IsSeparator(Cur().kind)
        invariant Valid() && pos >= old(pos) && Ahead() == old(Ahead())
        decreases |toks| - pos
      {
        FreshMarks(toks[pos..][1..], Widen(Tight, Cur().kind), Tight);
        var _ := Next();
      }
    }

    method ParseArgs() returns (args: seq<Arg>)
      requires Valid()
      modifies `pos
      ensures Valid() && pos >= old(pos) && !Cur().kind.Word?
      ensures var n := Words(old(Following()));
              args == ArgsOf(old(Following())[..n]) && Following() == old(Following())[n..]
    {
      hide MarksOf, Words;
      args := [];
      ghost var k := 0;
      while Cur().kind.Word?
        invariant Valid() && pos >= old(pos) && k <= Words(old(Following()))
        invariant Words(old(Following())) == k + Words(Following())
        invariant Following() == old(Following())[k..] && args == ArgsOf(old(Following())[..k])
        decreases |toks| - pos
      {
        WordAhead(toks[pos..]);
        var t := Next();
        OneMoreArg(old(Following()), k);
        args := args + [ArgOf(t.text, t.quoted)];
        k := k + 1;
      }
      NoWordAhead(toks[pos..]);
    }

    /** A separator is consumed; a closing brace or the end is left to the caller. */
    method ExpectStatementEnd() returns (ok: bool)
      requires Valid()
      modifies `pos
      ensures Valid() && pos >= old(pos) && ok == EndsHere(old(Following()))
      ensures ok ==> Ahead() == Fresh(old(Following()))
    {
      hide MarksOf, Fresh;
      EndToken(toks[pos..]);
      match Cur().kind {
        case Newline => var _ := Next(); ok := true;
        case Semicolon => var _ := Next(); ok := true;
        case Comment => var _ := Next(); ok := true;
        case CloseBrace => ok := true;
        case EOF => ok := true;
        case _ => ok := false;
      }
    }

    /** "@name type arg..." */
    method ParseMatcherDef() returns (r: Outcome<Node>)
      requires Valid() && Cur().kind.Word? && StartsMatcher(SymOf(Cur()))
      modifies `pos
      ensures Valid() && pos > old(pos)
      ensures Agrees(r, MatcherStatement(old(Following())), this)
    {
      hide MarksOf, Fresh, Words, TypeOk, EndsHere;
      ghost var ms := Following();
      WordAhead(toks[pos..]);
      var nameTok := Next();
      var name := nameTok.text[1..];
      if name == "" {
        return Failed(EmptyMatcherName);
      }
      var tt := Cur();
      if !tt.kind.Word? {
        NoWordAhead(toks[pos..]);
        return Failed(MissingType);
      }
      WordAhead(toks[pos..]);
      if !TypeOk(SymOf(tt)) {
        return Failed(BadType);
      }
      var _ := Next();
      var args := ParseArgs();
      MatcherSlices(ms);
      OpenToken(toks[pos..]);
      if Cur().kind == OpenBrace {
        return Failed(MatcherBlock);
      }
      var ok := ExpectStatementEnd();
      if !ok {
        return Failed(AfterStatement);
      }
      r := Got(MatcherDef(name, tt.text, args));
    }

    /** "name arg..." and an optional block. */
    method ParseDirective() returns (r: Outcome<Node>)
      requires Valid() && Cur().kind.Word?
      modifies `pos, `depth
      ensures Valid() && pos > old(pos) && depth == old(depth)
      ensures Agrees(r, DirectiveStatement(old(Following()), old(depth)), this)
      decreases |toks| - pos, 0
    {
      hide MarksOf, Fresh, Words, EndsHere, Block, ArgsOf;
      ghost var ms := Following();
      WordAhead(toks[pos..]);
      var nameTok := Next();
      var args := ParseArgs();
      DirectiveSlices(ms);
      OpenToken(toks[pos..]);
      if Cur().kind == OpenBrace {
        BraceAhead(toks[pos..]);
        var _ := Next();
        FreshBlock(Following(), depth);
        var b := ParseBlockBody();
        if b.Failed? {
          return Failed(b.error);
        }
        var ok := ExpectStatementEnd();
        if !ok {
          return Failed(AfterStatement);
        }
        return Got(Directive(nameTok.text, args, true, b.value));
      }
      var ok := ExpectStatementEnd();
      if !ok {
        return Failed(AfterStatement);
      }
      r := Got(Directive(nameTok.text, args, false, []));
    }

    method ParseStatement() returns (r: Outcome<Node>)
      requires Valid() && !IsSeparator(Cur().kind) && Cur().kind != EOF
      modifies `pos, `depth
      ensures Valid() && depth == old(depth) && pos >= old(pos) && (r.Got? ==> pos > old(pos))
      ensures old(Ahead()) != [] && Agrees(r, Statement(old(Ahead()), old(depth)), this)
      decreases |toks| - pos, 1
    {
      hide MatcherStatement, DirectiveStatement, Fresh;
      SymAhead(toks[pos..]);
      FreshStatement(Following(), depth);
      FreshTail(Following());
      if !Cur().kind.Word? {
        return Failed(ExpectedName);
      }
      if StartsMatcher(SymOf(Cur())) {
        r := ParseMatcherDef();
      } else {
        r := ParseDirective();
      }
    }

    /** A block, from after its opening brace; the depth counter is restored in every case. */
    method ParseBlockBody() returns (r: Outcome<seq<Node>>)
      requires Valid()
      modifies `pos, `depth
      ensures Valid() && pos >= old(pos) && depth == old(depth)
      ensures AgreesBody(r, Block(old(Ahead()), old(depth)), this)
      decreases |toks| - pos, 3
    {
      depth := depth + 1;
      if depth > MAX_BLOCK_DEPTH {
        depth := depth - 1;
        return Failed(TooDeep);
      }
      r := ParseBody();
      depth := depth - 1;
    }

    method ParseBody() returns (r: Outcome<seq<Node>>)
      requires Valid()
      modifies `pos, `depth
      ensures Valid() && pos >= old(pos) && depth == old(depth)
      ensures AgreesBody(r, Body(old(Ahead()), old(depth)), this)
      decreases |toks| - pos, 2
    {
      hide Statement, Fresh, MarksOf;
      var body := [];
      ghost var want := Body(Ahead(), depth);
      OntoNothing(want);
      while true
        invariant Valid() && pos >= old(pos) && depth == old(depth)
        invariant want == Onto(body, Body(Ahead(), depth))
        decreases |toks| - pos
      {
        SkipSeparators();
        BodyHere(toks[pos..], body, depth);
        if Cur().kind == CloseBrace {
          var _ := Next();
          return Got(body);
        }
        if Cur().kind == EOF {
          return Failed(MissingBrace);
        }
        ghost var ms := Ahead();
        var s := ParseStatement();
        if s.Failed? {
          return Failed(s.error);
        }
        FreshBody(Statement(ms, depth).rest, depth);
        OntoOne(body, s.value, Body(Ahead(), depth));
        body := body + [s.value];
      }
    }

    /** An imported fragment. */
    method ParseFragmentBody() returns (r: Outcome<seq<Node>>)
      requires Valid() && depth == 0
      modifies `pos, `depth
      ensures AgreesFragment(r, Fragment(old(Ahead())))
    {
      hide Statement, Fresh, MarksOf;
      var body := [];
      ghost var want := Fragment(Ahead());
      OntoNothing(want);
      while true
        invariant Valid() && depth == 0 && want == Onto(body, Fragment(Ahead()))
        decreases |toks| - pos
      {
        SkipSeparators();
        FragmentHere(toks[pos..], body);
        if Cur().kind == EOF {
          return Got(body);
        }
        if Cur().kind == CloseBrace {
          return Failed(StrayClose);
        }
        ghost var ms := Ahead();
        var s := ParseStatement();
        if s.Failed? {
          return Failed(s.error);
        }
        FreshFragment(Statement(ms, 0).rest);
        OntoOne(body, s.value, Fragment(Ahead()));
        body := body + [s.value];
      }
    }

    // ----- The top level -----

    /** Looks ahead for a site header. */
    method StartsSiteBlock() returns (r: bool)
      requires Valid() && CommentsEnd(toks) && !IsSeparator(Cur().kind) && Cur().kind != EOF
      ensures Ahead() != [] && r == StartsSite(Ahead())
    {
      hide CommaAddress, HeaderAhead, MarksOf, Fresh;
      SymAhead(toks[pos..]);
      FreshAhead(toks[pos..]);
      if Cur().kind.Word? && StartsMatcher(SymOf(Cur())) {
        return false;
      }
      var commas, i := true, pos;
      ghost var gap := Line;
      while i < |toks|
        invariant pos <= i < |toks|
        invariant StartsSite(Ahead()) == HeaderAhead(MarksOf(toks[i..], gap), commas)
        invariant gap != Semi && (gap == Line && !commas ==> toks[i].kind in {Newline, EOF})
        decreases |toks| - i
      {
        HeaderHere(toks, i, gap, commas);
        match toks[i].kind {
          case OpenBrace => return true;
          case Word =>
            commas := commas && CommaAddress(SymOf(toks[i]));
            gap := Tight;
          case Comment =>
            gap := Line;
          case Newline =>
            if !commas {
              return false;
            }
            gap := Line;
          case _ => return false;
        }
        i := i + 1;
      }
    }

    /** Looks ahead for an address list broken without commas. */
    method UnseparatedAddrWrap() returns (r: bool)
      requires Valid() && CommentsEnd(toks) && !IsSeparator(Cur().kind) && Cur().kind != EOF
      ensures Ahead() != [] && r == BadWrap(Ahead())
    {
      hide IsAddress, IsClearHost, WrapAhead, MarksOf, Fresh;
      SymAhead(toks[pos..]);
      TightAhead(toks[pos..]);
      var first := Cur();
      if !first.kind.Word? || first.quoted || IsMatcherRef(first.text) || !IsClearHost(first.text) {
        return false;
      }
      var hosts, broken, i := 0, false, pos;
      ghost var gap := Tight;
      while i < |toks|
        invariant pos <= i < |toks|
        invariant BadWrap(Ahead()) == WrapAhead(MarksOf(toks[i..], gap), broken, hosts)
        invariant gap != Tight && !broken ==> toks[i].kind in {Newline, EOF}
        decreases |toks| - i
      {
        WrapHere(toks, i, gap, broken, hosts);
        match toks[i].kind {
          case Word =>
            if toks[i].quoted || !IsAddress(toks[i].text) {
              return false;
            }
            if IsClearHost(toks[i].text) {
              hosts := hosts + 1;
            }
            gap := Tight;
          case Newline =>
            broken := true;
            gap := Widen(gap, Newline);
          case Semicolon =>
            broken := true;
            gap := Semi;
          case Comment =>
            gap := Widen(gap, Comment);
          case OpenBrace => return broken && hosts >= 2;
          case _ => return false;
        }
        i := i + 1;
      }
    }

    /** A site: its header words, then its body. */
    method ParseSite() returns (r: Outcome<Site>)
      requires Valid() && depth == 0 && !IsSeparator(Cur().kind) && Cur().kind != EOF
      modifies `pos, `depth
      ensures Valid() && depth == 0 && pos >= old(pos) && (r.Got? ==> pos > old(pos))
      ensures AgreesSite(r, SiteFrom(old(Ahead()), []), this)
    {
      hide MarksOf, Fresh, SiteFrom, Block, SplitAddress;
      ghost var want := SiteFrom(Ahead(), []);
      MarksLine(toks[pos..]);
      ghost var gap := Line;
      var addresses := [];
      while true
        invariant Valid() && depth == 0 && pos >= old(pos) && gap != Semi
        invariant want == SiteFrom(MarksOf(toks[pos..], gap), addresses)
        decreases |toks| - pos
      {
        SiteHere(toks[pos..], gap, addresses);
        match Cur().kind {
          case OpenBrace =>
            if addresses == [] {
              return Failed(NoAddress);
            }
            var _ := Next();
            FreshBlock(Following(), depth);
            var b := ParseBlockBody();
            if b.Failed? {
              return Failed(b.error);
            }
            return Got(Site(addresses, b.value));
          case Word =>
            var t := Next();
            addresses := addresses + SplitAddress(t.text);
            gap := Tight;
          case Newline =>
            var _ := Next();
            gap := Line;
          case Comment =>
            var _ := Next();
            gap := Line;
          case _ => return Failed(NoSiteBlock);
        }
      }
    }

    /** One site or statement, added to the file so far. */
    method ParseConstruct(f: File) returns (r: Outcome<File>)
      requires Valid() && depth == 0 && CommentsEnd(toks) && !IsSeparator(Cur().kind) && Cur().kind != EOF
      modifies `pos, `depth
      ensures Valid() && depth == 0
      ensures r.Failed? ==> Constructs(old(Ahead()), f) == Parsed.Err(r.error)
      ensures r.Got? ==> pos > old(pos) && Constructs(old(Ahead()), f) == Constructs(Ahead(), r.value)
    {
      hide MarksOf, Fresh, Block, Constructs, Statement, StartsSite, BadWrap, SiteFrom;
      KindHere(toks[pos..]);
      ghost var ms := Ahead();
      ConstructsHere(ms, f);
      FreshTwice(Following());
      if Cur().kind == CloseBrace {
        return Failed(StrayClose);
      }
      var site := StartsSiteBlock();
      if site {
        var s := ParseSite();
        if s.Failed? {
          return Failed(s.error);
        }
        var g := f.(sites := f.sites + [s.value]);
        FreshConstructs(Following(), g);
        return Got(g);
      }
      var bad := UnseparatedAddrWrap();
      if bad {
        return Failed(AddressWrap);
      }
      var s := ParseStatement();
      if s.Failed? {
        return Failed(s.error);
      }
      var g := f.(body := f.body + [s.value]);
      FreshConstructs(Statement(ms, 0).rest, g);
      r := Got(g);
    }

    /** A whole file. */
    method ParseFile() returns (r: Outcome<File>)
      requires Valid() && depth == 0 && CommentsEnd(toks)
      modifies `pos, `depth
      ensures AgreesFile(r, FileFrom(old(Ahead())))
    {
      hide MarksOf, Fresh, Block, Constructs, Statement, StartsSite, BadWrap, SiteFrom;
      SkipSeparators();
      var f := File(false, [], [], []);
      ghost var want := FileFrom(Ahead());
      KindHere(toks[pos..]);
      if Cur().kind == OpenBrace {
        BraceAhead(toks[pos..]);
        FreshTail(Following());
        var _ := Next();
        FreshBlock(Following(), depth);
        var b := ParseBlockBody();
        if b.Failed? {
          return Failed(b.error);
        }
        f := File(true, b.value, [], []);
        FreshConstructs(Following(), f);
        SkipSeparators();
      }
      while Cur().kind != EOF
        invariant Valid() && depth == 0 && !IsSeparator(Cur().kind) && want == Constructs(Ahead(), f)
        decreases |toks| - pos
      {
        var c := ParseConstruct(f);
        if c.Failed? {
          return Failed(c.error);
        }
        f := c.value;
        SkipSeparators();
      }
      KindHere(toks[pos..]);
      NoConstructs(f);
      r := Got(f);
    }
  }

  /** A method's answer is the grammar's, and the cursor stands where the grammar says. */
  ghost predicate Agrees(o: Outcome<Node>, r: Parsed<Node>, p: Parser)
    requires p.Valid()
    reads p
  {
    match r
    case Err(e) => o == Failed(e)
    case Ok(v, rest) => o == Got(v) && p.Ahead() == Fresh(rest)
  }

  ghost predicate AgreesBody(o: Outcome<seq<Node>>, r: Parsed<seq<Node>>, p: Parser)
    requires p.Valid()
    reads p
  {
    match r
    case Err(e) => o == Failed(e)
    case Ok(v, rest) => o == Got(v) && p.Following() == rest
  }

  ghost predicate AgreesFragment(o: Outcome<seq<Node>>, r: Parsed<seq<Node>>) {
    match r
    case Err(e) => o == Failed(e)
    case Ok(v, _) => o == Got(v)
  }

  // ----- The token under the cursor -----

  lemma EndToken(ts: seq<Token>)
    requires ts != []
    ensures var k, ms := ts[0].kind, MarksOf(ts, Tight);
            && EndsHere(ms) == (IsSeparator(k) || k == CloseBrace || k == EOF)
            && (IsSeparator(k) ==> Fresh(MarksOf(ts[1..], Tight)) == Fresh(ms))
  {
    if IsSeparator(ts[0].kind) {
      WideFront(ts, Tight);
      FreshMarks(ts[1..], Tight, Widen(Tight, ts[0].kind));
    }
  }

  lemma OpenToken(ts: seq<Token>)
    requires ts != []
    ensures OpensHere(MarksOf(ts, Tight)) == (ts[0].kind == OpenBrace)
  {
    if IsSeparator(ts[0].kind) {
      WideFront(ts, Tight);
    }
  }

  lemma BraceAhead(ts: seq<Token>)
    requires ts != [] && ts[0].kind == OpenBrace
    ensures MarksOf(ts, Tight) != [] && MarksOf(ts, Tight)[1..] == MarksOf(ts[1..], Tight)
  {
  }

  lemma SymAhead(ts: seq<Token>)
    requires ts != [] && !IsSeparator(ts[0].kind) && ts[0].kind != EOF
    ensures MarksOf(ts, Tight) != [] && MarksOf(ts, Tight)[0] == Mark(Tight, SymOf(ts[0]))
  {
  }

  lemma MatcherSlices(ms: seq<Mark>)
    requires |ms| >= 2 && Words(ms[1..]) == 1 + Words(ms[1..][1..])
    ensures var n := Words(ms[1..]);
            && ms[1..][1..] == ms[2..] && 1 + n <= |ms|
            && ms[2..][Words(ms[2..])..] == ms[1 + n..] && ms[2..][..Words(ms[2..])] == ms[2..1 + n]
  {
    assert ms[1..][1..] == ms[2..];
  }

  lemma DirectiveSlices(ms: seq<Mark>)
    requires ms != []
    ensures var n := Words(ms[1..]);
            ms[1..][n..] == ms[1 + n..] && ms[1..][..n] == ms[1..1 + n]
  {
  }

  lemma FreshBlock(ms: seq<Mark>, depth: nat)
    ensures Block(Fresh(ms), depth) == Block(ms, depth)
  {
    hide Body, Fresh;
    FreshBody(ms, depth + 1);
  }

  lemma OntoNothing(r: Parsed<seq<Node>>)
    ensures Onto([], r) == r
  {
    if r.Ok? {
      assert [] + r.value == r.value;
    }
  }

  ghost function BodyAfter(r: Parsed<Node>, depth: nat): Parsed<seq<Node>> {
    if r.Err? then Parsed.Err(r.error) else Grammar.Prepend(r.value, Body(r.rest, depth))
  }

  ghost function FragmentAfter(r: Parsed<Node>): Parsed<seq<Node>> {
    if r.Err? then Parsed.Err(r.error) else Grammar.Prepend(r.value, Fragment(r.rest))
  }

  /** Where the body loop stands, by the token under the cursor. */
  lemma BodyHere(ts: seq<Token>, acc: seq<Node>, depth: nat)
    requires ts != [] && !IsSeparator(ts[0].kind)
    ensures var ms := Fresh(MarksOf(ts, Tight));
            && (ts[0].kind == EOF ==> Onto(acc, Body(ms, depth)) == Parsed.Err(MissingBrace))
            && (ts[0].kind == CloseBrace ==> Onto(acc, Body(ms, depth)) == Parsed.Ok(acc, MarksOf(ts[1..], Tight)))
            && (ts[0].kind != EOF && ts[0].kind != CloseBrace ==>
                  && ms != []
                  && Body(ms, depth) == BodyAfter(Statement(ms, depth), depth))
  {
    hide Statement;
    if ts[0].kind == CloseBrace {
      assert acc + [] == acc;
    }
  }

  lemma FragmentHere(ts: seq<Token>, acc: seq<Node>)
    requires ts != [] && !IsSeparator(ts[0].kind)
    ensures var ms := Fresh(MarksOf(ts, Tight));
            && (ts[0].kind == EOF ==> Onto(acc, Fragment(ms)) == Parsed.Ok(acc, []))
            && (ts[0].kind == CloseBrace ==> Onto(acc, Fragment(ms)) == Parsed.Err(StrayClose))
            && (ts[0].kind != EOF && ts[0].kind != CloseBrace ==>
                  && ms != []
                  && Fragment(ms) == FragmentAfter(Statement(ms, 0)))
  {
    hide Statement;
    assert acc + [] == acc;
  }

  lemma WordAhead(ts: seq<Token>)
    requires ts != [] && ts[0].kind.Word?
    ensures var ms := MarksOf(ts, Tight);
            && ms != [] && ms[0] == Mark(Tight, Sym.Word(ts[0].text, ts[0].quoted))
            && ms[1..] == MarksOf(ts[1..], Tight) && Words(ms) == 1 + Words(ms[1..])
  {
  }

  lemma NoWordAhead(ts: seq<Token>)
    requires ts != [] && !ts[0].kind.Word?
    ensures Words(MarksOf(ts, Tight)) == 0
  {
    if IsSeparator(ts[0].kind) {
      WideFront(ts, Tight);
    }
  }

  lemma {:induction false} OneMoreArg(ms: seq<Mark>, k: nat)
    requires k < Words(ms)
    ensures k < |ms| && ms[k..][1..] == ms[k + 1..] && ms[k].sym.Word?
    ensures ArgsOf(ms[..k + 1]) == ArgsOf(ms[..k]) + [ArgOf(ms[k].sym.text, ms[k].sym.quoted)]
  {
    hide ClassifyArg;
    ArgsAppend(ms[..k], ms[k]);
    assert ms[..k + 1] == ms[..k] + [ms[k]];
  }

  lemma ArgsAppend(ms: seq<Mark>, m: Mark)
    requires (forall i :: 0 <= i < |ms| ==> ms[i].sym.Word?) && m.sym.Word?
    ensures forall i :: 0 <= i < |ms + [m]| ==> (ms + [m])[i].sym.Word?
    ensures ArgsOf(ms + [m]) == ArgsOf(ms) + [ArgOf(m.sym.text, m.sym.quoted)]
  {
    hide ClassifyArg;
  }

  /** A comment runs to the end of its line. */
  predicate CommentsEnd(toks: seq<Token>) {
    forall i :: 0 <= i < |toks| && toks[i].kind == Comment ==> i + 1 < |toks| && toks[i + 1].kind in {Newline, EOF}
  }

  lemma FreshAhead(ts: seq<Token>)
    requires ts != [] && !IsSeparator(ts[0].kind) && ts[0].kind != EOF
    ensures var ms := Fresh(MarksOf(ts, Tight));
            ms != [] && ms[0].sym == SymOf(ts[0]) && Fresh(ms) == MarksOf(ts, Line)
  {
  }

  lemma TightAhead(ts: seq<Token>)
    requires ts != [] && !IsSeparator(ts[0].kind) && ts[0].kind != EOF
    ensures var ms := Fresh(MarksOf(ts, Tight));
            ms != [] && ms[0].sym == SymOf(ts[0]) && [ms[0].(gap := Tight)] + ms[1..] == MarksOf(ts, Tight)
  {
  }

  /** One step of the header scan. */
  lemma HeaderHere(toks: seq<Token>, i: nat, gap: Gap, commas: bool)
    requires i < |toks| && gap != Semi
    requires gap == Line && !commas ==> toks[i].kind in {Newline, EOF}
    ensures var k, r, more := toks[i].kind, HeaderAhead(MarksOf(toks[i..], gap), commas), toks[i + 1..];
            && (k == OpenBrace ==> r)
            && (k == Kind.Word ==> r == HeaderAhead(MarksOf(more, Tight), commas && CommaAddress(SymOf(toks[i]))))
            && (k == Comment || (k == Newline && commas) ==> r == HeaderAhead(MarksOf(more, Line), commas))
            && (k == Newline && !commas ==> !r)
            && (k == Kind.Semicolon || k == CloseBrace || k == EOF ==> !r)
  {
    hide CommaAddress;
    var ts := toks[i..];
    assert ts[0] == toks[i] && ts[1..] == toks[i + 1..];
    if IsSeparator(ts[0].kind) {
      Widened(ts[1..], Widen(gap, ts[0].kind));
      if ts[0].kind == Kind.Semicolon {
        Parted(ts[1..]);
      }
    }
  }

  lemma {:induction false} Parted(ts: seq<Token>)
    ensures MarksOf(ts, Semi) != [] ==> MarksOf(ts, Semi)[0].gap == Semi
  {
    if ts != [] && IsSeparator(ts[0].kind) {
      Parted(ts[1..]);
    }
  }

  /** One step of the wrap scan. */
  lemma WrapHere(toks: seq<Token>, i: nat, gap: Gap, broken: bool, hosts: nat)
    requires i < |toks|
    requires gap != Tight && !broken ==> toks[i].kind in {Newline, EOF}
    ensures var t, k, r, more := toks[i], toks[i].kind, WrapAhead(MarksOf(toks[i..], gap), broken, hosts), toks[i + 1..];
            && (k == OpenBrace ==> r == (broken && hosts >= 2))
            && (k == Kind.Word && (t.quoted || !IsAddress(t.text)) ==> !r)
            && (k == Kind.Word && !t.quoted && IsAddress(t.text) ==>
                  r == WrapAhead(MarksOf(more, Tight), broken, if IsClearHost(t.text) then hosts + 1 else hosts))
            && (k == Comment ==> r == WrapAhead(MarksOf(more, Widen(gap, Comment)), broken, hosts))
            && (k == Newline || k == Kind.Semicolon ==> r == WrapAhead(MarksOf(more, Widen(gap, k)), true, hosts))
            && (k == CloseBrace || k == EOF ==> !r)
  {
    hide IsAddress, IsClearHost;
    var ts := toks[i..];
    assert ts[0] == toks[i] && ts[1..] == toks[i + 1..];
    if IsSeparator(ts[0].kind) {
      Widened(ts[1..], Widen(gap, ts[0].kind));
    }
  }

  ghost predicate AgreesSite(o: Outcome<Site>, r: Parsed<Site>, p: Parser)
    requires p.Valid()
    reads p
  {
    match r
    case Err(e) => o == Failed(e)
    case Ok(v, rest) => o == Got(v) && p.Following() == rest
  }

  ghost predicate AgreesFile(o: Outcome<File>, r: Parsed<File>) {
    match r
    case Err(e) => o == Failed(e)
    case Ok(v, _) => o == Got(v)
  }

  lemma MarksLine(ts: seq<Token>)
    requires ts != [] && !IsSeparator(ts[0].kind)
    ensures Fresh(MarksOf(ts, Tight)) == MarksOf(ts, Line)
  {
  }

  lemma KindHere(ts: seq<Token>)
    requires ts != [] && !IsSeparator(ts[0].kind)
    ensures var ms := Fresh(MarksOf(ts, Tight));
            && (ms == []) == (ts[0].kind == EOF)
            && (ms != [] ==> ms[0].sym == SymOf(ts[0]))
  {
  }

  lemma FreshTwice(ms: seq<Mark>)
    ensures Fresh(Fresh(ms)) == Fresh(ms)
  {
  }

  /** One step through a site header. */
  lemma SiteHere(ts: seq<Token>, gap: Gap, addresses: seq<string>)
    requires ts != [] && gap != Semi
    ensures var k, r := ts[0].kind, SiteFrom(MarksOf(ts, gap), addresses);
            && (k == OpenBrace && addresses == [] ==> r == Parsed.Err(NoAddress))
            && (k == OpenBrace && addresses != [] ==> r == SiteAfter(addresses, Block(MarksOf(ts[1..], Tight), 0)))
            && (k == Kind.Word ==> r == SiteFrom(MarksOf(ts[1..], Tight), addresses + SplitAddress(ts[0].text)))
            && (k == Newline || k == Comment ==> r == SiteFrom(MarksOf(ts[1..], Line), addresses))
            && (k == Kind.Semicolon || k == CloseBrace || k == EOF ==> r == Parsed.Err(NoSiteBlock))
  {
    hide Block, SplitAddress;
    if ts[0].kind == Kind.Semicolon {
      Parted(ts[1..]);
    }
  }

  ghost function SiteAfter(addresses: seq<string>, b: Parsed<seq<Node>>): Parsed<Site> {
    if b.Ok? then Parsed.Ok(Site(addresses, b.value), b.rest) else Parsed.Err(b.error)
  }

  lemma FreshConstructs(ms: seq<Mark>, f: File)
    ensures Constructs(Fresh(ms), f) == Constructs(ms, f)
  {
    hide Statement, SiteFrom, HeaderAhead, WrapAhead;
    if ms != [] {
      FreshTail(ms);
      FreshTwice(ms);
      FreshStatement(ms, 0);
    }
  }

  lemma NoConstructs(f: File)
    ensures Constructs([], f) == Parsed.Ok(f, [])
  {
  }

  /** One construct of a file. */
  lemma ConstructsHere(ms: seq<Mark>, f: File)
    requires ms != []
    ensures var r := Constructs(ms, f);
            && (ms[0].sym == Close ==> r == Parsed.Err(StrayClose))
            && (ms[0].sym != Close && StartsSite(ms) ==> r == SiteThen(f, SiteFrom(Fresh(ms), [])))
            && (ms[0].sym != Close && !StartsSite(ms) && BadWrap(ms) ==> r == Parsed.Err(AddressWrap))
            && (ms[0].sym != Close && !StartsSite(ms) && !BadWrap(ms) ==> r == StatementThen(f, Statement(ms, 0)))
  {
    hide Statement, SiteFrom, StartsSite, BadWrap;
  }

  ghost function SiteThen(f: File, r: Parsed<Site>): Parsed<File> {
    if r.Ok? then Constructs(r.rest, f.(sites := f.sites + [r.value])) else Parsed.Err(r.error)
  }

  ghost function StatementThen(f: File, r: Parsed<Node>): Parsed<File> {
    if r.Ok? then Constructs(r.rest, f.(body := f.body + [r.value])) else Parsed.Err(r.error)
  }
}
