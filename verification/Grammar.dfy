/** The Cadishfile grammar (internal/cadishfile/parse.go) on symbols and the gaps between them. A gap
    tells whether a symbol follows the one before it directly, on a later line, or after a ';'. */
module Grammar {
  import opened Ast
  import opened Quoting
  import opened Addresses

  const MAX_BLOCK_DEPTH := 1000

  datatype Gap = Tight | Line | Semi

  datatype Sym = Word(text: string, quoted: bool) | Open | Close

  datatype Mark = Mark(gap: Gap, sym: Sym)

  datatype Error =
    | ExpectedName
    | EmptyMatcherName
    | MissingType
    | BadType
    | MatcherBlock
    | AfterStatement
    | MissingBrace
    | TooDeep
    | StrayClose
    | NoAddress
    | NoSiteBlock
    | AddressWrap

  datatype Parsed<T> = Ok(value: T, rest: seq<Mark>) | Err(error: Error)

  /** A symbol that starts a statement: how it is set off from the one before no longer matters. */
  function Fresh(ms: seq<Mark>): (r: seq<Mark>)
    ensures |r| == |ms|
  {
    if ms == [] then [] else [ms[0].(gap := Line)] + ms[1..]
  }

  // ----- Statements and blocks -----

  /** The words directly behind. */
  function Words(ms: seq<Mark>): (n: nat)
    ensures n <= |ms|
    ensures forall i :: 0 <= i < n ==> ms[i].sym.Word? && ms[i].gap == Tight
    ensures n < |ms| ==> ms[n].gap != Tight || !ms[n].sym.Word?
  {
    if ms == [] || ms[0].gap != Tight || !ms[0].sym.Word? then 0 else 1 + Words(ms[1..])
  }

  function ArgsOf(ms: seq<Mark>): (r: seq<Arg>)
    requires forall i :: 0 <= i < |ms| ==> ms[i].sym.Word?
  {
    seq(|ms|, i requires 0 <= i < |ms| => ArgOf(ms[i].sym.text, ms[i].sym.quoted))
  }

  /** A statement ends at a separator, before a closing brace, or at the end of the text. */
  predicate EndsHere(ms: seq<Mark>) {
    ms == [] || ms[0].gap != Tight || ms[0].sym == Close
  }

  predicate OpensHere(ms: seq<Mark>) {
    ms != [] && ms[0].gap == Tight && ms[0].sym == Open
  }

  /** "@name", unquoted. */
  predicate StartsMatcher(s: Sym) {
    s.Word? && !s.quoted && IsMatcherRef(s.text)
  }

  /** A matcher's type is a clean bare word. */
  predicate TypeOk(s: Sym) {
    s.Word? && !s.quoted && !IsMatcherRef(s.text) && !ContainsPlaceholder(s.text) && !NeedsQuoting(s.text)
  }

  function MatcherStatement(ms: seq<Mark>): (r: Parsed<Node>)
    requires ms != [] && StartsMatcher(ms[0].sym)
    ensures r.Ok? ==> |r.rest| < |ms|
  {
    var name, n := ms[0].sym.text[1..], Words(ms[1..]);
    if name == "" then Err(EmptyMatcherName)
    else if n == 0 then Err(MissingType)
    else if !TypeOk(ms[1].sym) then Err(BadType)
    else
      var rest := ms[1 + n..];
      if OpensHere(rest) then Err(MatcherBlock)
      else if !EndsHere(rest) then Err(AfterStatement)
      else Ok(MatcherDef(name, ms[1].sym.text, ArgsOf(ms[2..1 + n])), rest)
  }

  function DirectiveStatement(ms: seq<Mark>, depth: nat): (r: Parsed<Node>)
    requires ms != [] && ms[0].sym.Word?
    ensures r.Ok? ==> |r.rest| < |ms|
    decreases |ms|, 0
  {
    var n := Words(ms[1..]);
    var args, rest := ArgsOf(ms[1..1 + n]), ms[1 + n..];
    if OpensHere(rest) then
      match Block(rest[1..], depth)
      case Err(e) => Err(e)
      case Ok(block, after) =>
        if !EndsHere(after) then Err(AfterStatement)
        else Ok(Directive(ms[0].sym.text, args, true, block), after)
    else if !EndsHere(rest) then Err(AfterStatement)
    else Ok(Directive(ms[0].sym.text, args, false, []), rest)
  }

  function Statement(ms: seq<Mark>, depth: nat): (r: Parsed<Node>)
    requires ms != []
    ensures r.Ok? ==> |r.rest| < |ms|
    decreases |ms|, 1
  {
    if !ms[0].sym.Word? then Err(ExpectedName)
    else if StartsMatcher(ms[0].sym) then MatcherStatement(ms)
    else DirectiveStatement(ms, depth)
  }

  function Prepend(n: Node, r: Parsed<seq<Node>>): Parsed<seq<Node>> {
    if r.Ok? then Ok([n] + r.value, r.rest) else r
  }

  /** A block, from after its opening brace. */
  function Block(ms: seq<Mark>, depth: nat): (r: Parsed<seq<Node>>)
    ensures r.Ok? ==> |r.rest| < |ms|
    decreases |ms|, 3
  {
    if depth >= MAX_BLOCK_DEPTH then Err(TooDeep) else Body(ms, depth + 1)
  }

  /** Statements up to the closing brace. */
  function Body(ms: seq<Mark>, depth: nat): (r: Parsed<seq<Node>>)
    ensures r.Ok? ==> |r.rest| < |ms|
    decreases |ms|, 2
  {
    if ms == [] then Err(MissingBrace)
    else if ms[0].sym == Close then Ok([], ms[1..])
    else
      match Statement(ms, depth)
      case Err(e) => Err(e)
      case Ok(n, rest) => Prepend(n, Body(rest, depth))
  }

  /** An imported fragment: statements up to the end of the text. */
  function Fragment(ms: seq<Mark>): (r: Parsed<seq<Node>>)
    decreases |ms|
  {
    if ms == [] then Ok([], [])
    else if ms[0].sym == Close then Err(StrayClose)
    else
      match Statement(ms, 0)
      case Err(e) => Err(e)
      case Ok(n, rest) => Prepend(n, Fragment(rest))
  }

  // ----- The top level -----

  /** A word of a header that may be broken after it. */
  predicate CommaAddress(s: Sym) {
    s.Word? && !s.quoted && IsAddress(s.text) && |s.text| > 0 && s.text[|s.text| - 1] == ','
  }

  /** Whether an opening brace ends the words ahead, breaking lines only in a pure list of addresses each
      followed by a comma. */
  predicate HeaderAhead(ms: seq<Mark>, commas: bool) {
    if ms == [] || ms[0].gap == Semi || (ms[0].gap == Line && !commas) then false
    else if ms[0].sym.Word? then HeaderAhead(ms[1..], commas && CommaAddress(ms[0].sym))
    else ms[0].sym == Open
  }

  predicate StartsSite(ms: seq<Mark>)
    requires ms != []
  {
    !StartsMatcher(ms[0].sym) && HeaderAhead(Fresh(ms), true)
  }

  /** Unquoted addresses up to an opening brace, broken somewhere, at least two of them clearly hosts. */
  predicate WrapAhead(ms: seq<Mark>, broken: bool, hosts: nat) {
    if ms == [] then false
    else
      var b := broken || ms[0].gap != Tight;
      if ms[0].sym.Word? then
        && !ms[0].sym.quoted && IsAddress(ms[0].sym.text)
        && WrapAhead(ms[1..], b, if IsClearHost(ms[0].sym.text) then hosts + 1 else hosts)
      else ms[0].sym == Open && b && hosts >= 2
  }

  predicate BadWrap(ms: seq<Mark>)
    requires ms != []
  {
    && ms[0].sym.Word? && !ms[0].sym.quoted && !IsMatcherRef(ms[0].sym.text) && IsClearHost(ms[0].sym.text)
    && WrapAhead([ms[0].(gap := Tight)] + ms[1..], false, 0)
  }

  datatype Site = Site(addresses: seq<string>, body: seq<Node>)

  datatype File = File(hasGlobal: bool, global: seq<Node>, sites: seq<Site>, body: seq<Node>)

  /** A site: its addresses up to the opening brace, then its body. */
  function SiteFrom(ms: seq<Mark>, addresses: seq<string>): (r: Parsed<Site>)
    ensures r.Ok? ==> |r.rest| < |ms|
    decreases |ms|
  {
    if ms == [] || ms[0].sym == Close || ms[0].gap == Semi then Err(NoSiteBlock)
    else if ms[0].sym.Word? then SiteFrom(ms[1..], addresses + SplitAddress(ms[0].sym.text))
    else if addresses == [] then Err(NoAddress)
    else
      match Block(ms[1..], 0)
      case Err(e) => Err(e)
      case Ok(body, rest) => Ok(Site(addresses, body), rest)
  }

  /** Sites and statements up to the end of the text. */
  function Constructs(ms: seq<Mark>, f: File): (r: Parsed<File>)
    decreases |ms|
  {
    if ms == [] then Ok(f, [])
    else if ms[0].sym == Close then Err(StrayClose)
    else if StartsSite(ms) then
      match SiteFrom(Fresh(ms), [])
      case Err(e) => Err(e)
      case Ok(site, rest) => Constructs(rest, f.(sites := f.sites + [site]))
    else if BadWrap(ms) then Err(AddressWrap)
    else
      match Statement(ms, 0)
      case Err(e) => Err(e)
      case Ok(n, rest) => Constructs(rest, f.(body := f.body + [n]))
  }

  /** A whole file: a leading block holds the global options. */
  function FileFrom(ms: seq<Mark>): Parsed<File> {
    if ms != [] && ms[0].sym == Open then
      match Block(ms[1..], 0)
      case Err(e) => Err(e)
      case Ok(opts, rest) => Constructs(rest, File(true, opts, [], []))
    else Constructs(ms, File(false, [], [], []))
  }
}
