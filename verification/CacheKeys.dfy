/** Cache keys as a request computes them (internal/pipeline/cachekey.go, classify.go, pipeline.go), from what
    the server makes of the request under the site's settings (internal/server/handler.go:202-395). */
module CacheKeys {
  import opened Objects
  import opened Ast
  import opened Fingerprint
  import Addresses

  // ----- What a site is compiled from -----

  /** An argument as the compiler sees it: its text, and whether it was read as a reference. */
  datatype Seen = Seen(raw: string, kind: ArgKind)

  datatype Dir = Dir(name: string, args: seq<Seen>, hasBlock: bool, block: seq<Dir>)

  datatype Def = Def(typ: string, args: seq<string>)

  /** The key vocabulary, the named matchers, and what else of a site a key can depend on: the cookie of the
      first sticky upstream, the routes, the cookie allowlist, the trusted proxies declared outside the geo
      block, whether there is a security gate and a cluster, the origins, and what the geo databases held
      when they were opened. */
  datatype Site = Site(
    vocab: seq<Dir>,
    defs: map<string, Def>,
    sticky: string,
    routes: seq<Dir>,
    allow: Option<seq<string>>,
    proxies: seq<string>,
    gate: bool,
    clustered: bool,
    origins: seq<Dir>,
    data: string)

  function SeenArgs(args: seq<Arg>): (r: seq<Seen>)
    ensures |r| == |args| && forall i :: 0 <= i < |args| ==> r[i] == Seen(args[i].raw, args[i].kind)
  {
    seq(|args|, i requires 0 <= i < |args| => Seen(args[i].raw, args[i].kind))
  }

  function DirsOf(ns: seq<Node>): seq<Dir>
    decreases ns
  {
    if ns == [] then []
    else (if ns[0].Directive? then [DirOf(ns[0])] else []) + DirsOf(ns[1..])
  }

  function DirOf(n: Node): Dir
    requires n.Directive?
    decreases n
  {
    Dir(n.name, SeenArgs(n.args), n.hasBlock, if n.hasBlock then DirsOf(n.block) else [])
  }

  /** The node, if it is one of these directives. */
  function Pick(n: Node, names: set<string>): seq<Dir> {
    if n.Directive? && n.name in names then [DirOf(n)] else []
  }

  function Picks(body: seq<Node>, names: set<string>): seq<Dir> {
    if body == [] then [] else Picks(body[..|body| - 1], names) + Pick(body[|body| - 1], names)
  }

  /** A name defined twice does not compile. */
  function DefsOf(body: seq<Node>): map<string, Def> {
    if body == [] then map[]
    else
      var n, rest := body[|body| - 1], DefsOf(body[..|body| - 1]);
      if n.MatcherDef? then rest[n.name := Def(n.typ, Raws(n.args))] else rest
  }

  /** `sticky by cookie NAME` of an upstream. */
  function CookieAfter(args: seq<Seen>): Option<string> {
    if |args| < 2 then None else if args[0].raw == "cookie" then Some(args[1].raw) else CookieAfter(args[1..])
  }

  function StickyIn(block: seq<Dir>): string {
    if block == [] then ""
    else if block[0].name == "sticky" && CookieAfter(block[0].args).Some? then CookieAfter(block[0].args).value
    else StickyIn(block[1..])
  }

  function StickyOf(upstreams: seq<Dir>): string {
    if upstreams == [] then ""
    else if StickyIn(upstreams[0].block) != "" then StickyIn(upstreams[0].block)
    else StickyOf(upstreams[1..])
  }

  /** The last allowlist counts. */
  function AllowOf(dirs: seq<Dir>): Option<seq<string>> {
    if dirs == [] then None else Some(RawsOf(dirs[|dirs| - 1].args))
  }

  function AllArgs(dirs: seq<Dir>): seq<string> {
    if dirs == [] then [] else RawsOf(dirs[0].args) + AllArgs(dirs[1..])
  }

  predicate Holds(block: seq<Dir>, name: string) {
    exists i :: 0 <= i < |block| && block[i].name == name
  }

  /** A `cluster` block of peers, rather than a named pool. */
  predicate Clustered(dirs: seq<Dir>) {
    exists i :: 0 <= i < |dirs| && dirs[i].args == [] && Holds(dirs[i].block, "peers")
  }

  const GATES: set<string> := {"allow", "deny", "rate_limit"}
  const ORIGINS: set<string> := {"upstream", "cluster"}

  function SiteOf(body: seq<Node>, data: string): Site {
    Site(Picks(body, VOCABULARY), DefsOf(body), StickyOf(Picks(body, {"upstream"})), Picks(body, {"route"}),
         AllowOf(Picks(body, {"cookie_allow"})), AllArgs(Picks(body, {"trust_proxy"})), Picks(body, GATES) != [],
         Clustered(Picks(body, {"cluster"})), Picks(body, ORIGINS), data)
  }

  // ----- Reading arguments -----

  function RawsOf(args: seq<Seen>): (r: seq<string>)
    ensures |r| == |args| && forall i :: 0 <= i < |args| ==> r[i] == args[i].raw
  {
    seq(|args|, i requires 0 <= i < |args| => args[i].raw)
  }

  function TrimAt(t: string): string {
    if IsMatcherRef(t) then t[1..] else t
  }

  /** "@a" or "!@a", inside an `all` matcher. */
  function SecRef(t: string): (string, bool) {
    if "!@" <= t then (t[2..], true) else (TrimAt(t), false)
  }

  /** "{TOKEN}==VALUE" or "{TOKEN}!=VALUE": the token, the value, and whether the test is negated. */
  function ClassTest(t: string): (string, string, bool) {
    match Addresses.Find(t, "!=")
    case Some(i) => (t[..i], t[i + 2..], true)
    case None =>
      match Addresses.Find(t, "==")
      case Some(i) => (t[..i], t[i + 2..], false)
      case None => ("", "", false)
  }

  function Arrow(args: seq<Seen>): (n: nat)
    ensures n <= |args|
  {
    if args == [] || args[0].raw == "->" then 0 else 1 + Arrow(args[1..])
  }

  function ArrowValue(args: seq<Seen>): string {
    var n := Arrow(args);
    if n + 1 < |args| then args[n + 1].raw else ""
  }

  /** The block of the classifier for a token. */
  function RowsOf(vocab: seq<Dir>, token: string): seq<Dir> {
    if vocab == [] then []
    else if vocab[0].name == "classify" && |vocab[0].args| == 1 && vocab[0].args[0].raw == token then vocab[0].block
    else RowsOf(vocab[1..], token)
  }

  // ----- What the server makes of a request -----

  /** A request as it arrives: the peer's address, the addresses it forwards, its cookies, the hop header of
      a cluster peer, and the rest of it. */
  datatype Request<!R> = Request(peer: string, forwarded: seq<string>, cookies: seq<(string, string)>, hop: string, rest: R)

  datatype Place = Place(country: string, continent: string, region: string)

  /** The same once the site's settings were applied; `rewritten` if the cookie header was written anew. */
  datatype Prepared<!R> = Prepared(cookies: seq<(string, string)>, rewritten: bool, hop: string, place: Place, rest: R)

  /** What matchers and tokens are evaluated in: the request, the upstream it is routed to, the address that
      `ip` matchers test, and the client's. */
  datatype Context<!R> = Context(req: Prepared<R>, up: string, address: Option<string>, client: string)

  /** The parts of the pipeline that a key only passes a request to: plain matchers, tokens read off the
      request alone, tokens of a normalizer, tenant or device directive, whether an address is inside a prefix
      and a name matches a pattern, where an address is, and whether an origin is up. Any functions will do. */
  datatype World<!R> = World(
    accepts: (string, seq<string>, Prepared<R>) -> bool,
    part: (string, seq<string>, Prepared<R>) -> string,
    derived: (seq<Dir>, string, Prepared<R>) -> Option<string>,
    inside: (string, string) -> bool,
    named: (string, string) -> bool,
    place: (seq<Dir>, string, string, bool, R) -> Place,
    healthy: (seq<Dir>, string, R) -> bool)

  function GeoDirs(vocab: seq<Dir>): seq<Dir> {
    if vocab == [] then [] else (if vocab[0].name == "geo" then [vocab[0]] else []) + GeoDirs(vocab[1..])
  }

  /** The prefixes of the geo block's own trust_proxy rows. */
  function GeoProxies(geo: seq<Dir>): seq<string> {
    if geo == [] then [] else RowProxies(geo[0].block) + GeoProxies(geo[1..])
  }

  function RowProxies(rows: seq<Dir>): seq<string> {
    if rows == [] then []
    else (if rows[0].name == "trust_proxy" then RawsOf(rows[0].args) else []) + RowProxies(rows[1..])
  }

  function Proxies(s: Site): seq<string> {
    GeoProxies(GeoDirs(s.vocab)) + s.proxies
  }

  ghost predicate Trusts<R>(w: World<R>, proxies: seq<string>, a: string) {
    exists i :: 0 <= i < |proxies| && w.inside(a, proxies[i])
  }

  /** The nearest forwarded address that is no trusted proxy. */
  ghost function Nearest<R>(w: World<R>, proxies: seq<string>, forwarded: seq<string>, peer: string): string {
    if forwarded == [] then peer
    else
      var a := forwarded[|forwarded| - 1];
      if Trusts(w, proxies, a) then Nearest(w, proxies, forwarded[..|forwarded| - 1], peer) else a
  }

  /** A peer that is no trusted proxy is the client itself. */
  ghost function ClientOf<R>(w: World<R>, proxies: seq<string>, q: Request<R>): string {
    if Trusts(w, proxies, q.peer) then Nearest(w, proxies, q.forwarded, q.peer) else q.peer
  }

  /** The cookies that a derives_from row names; a final `forward` or `keep` is no name. */
  function DerivedNames(args: seq<Seen>): seq<string> {
    if |args| < 2 then []
    else if |args| > 2 && args[|args| - 1].raw in {"forward", "keep"} then RawsOf(args[1..|args| - 1])
    else RawsOf(args[1..])
  }

  ghost predicate RowDerives(rows: seq<Dir>, name: string) {
    exists i :: 0 <= i < |rows| && rows[i].name == "derives_from" && name in DerivedNames(rows[i].args)
  }

  ghost predicate ArgDerives(vocab: seq<Dir>, args: seq<Seen>, name: string) {
    exists i :: 0 <= i < |args| && RowDerives(RowsOf(vocab, args[i].raw), name)
  }

  /** A cookie that a classifier in some recipe derives from outlives the allowlist. */
  ghost predicate Survives(vocab: seq<Dir>, name: string) {
    exists i :: 0 <= i < |vocab| && vocab[i].name == "cache_key" && ArgDerives(vocab, vocab[i].args, name)
  }

  ghost predicate Allowed<R>(w: World<R>, s: Site, name: string)
    requires s.allow.Some?
  {
    (exists i :: 0 <= i < |s.allow.value| && w.named(s.allow.value[i], name)) || Survives(s.vocab, name)
  }

  ghost function Kept<R>(w: World<R>, s: Site, cookies: seq<(string, string)>): seq<(string, string)>
    requires s.allow.Some?
  {
    if cookies == [] then []
    else (if Allowed(w, s, cookies[0].0) then [cookies[0]] else []) + Kept(w, s, cookies[1..])
  }

  ghost function Prepare<R>(w: World<R>, s: Site, q: Request<R>): Prepared<R> {
    var trusted := Trusts(w, Proxies(s), q.peer);
    Prepared(if s.allow.Some? then Kept(w, s, q.cookies) else q.cookies,
             s.allow.Some?,
             if s.clustered && !trusted then "" else q.hop,
             w.place(GeoDirs(s.vocab), s.data, ClientOf(w, Proxies(s), q), trusted, q.rest),
             q.rest)
  }

  // ----- Matchers and classifiers -----

  /** Most matchers test the request; some test where it is routed, which origins are up, or its address,
      known only behind a security gate. */
  ghost predicate Plain<R>(w: World<R>, s: Site, c: Context<R>, typ: string, args: seq<string>) {
    if typ == "upstream" then c.up in args
    else if typ == "upstream_healthy" then exists i :: 0 <= i < |args| && w.healthy(s.origins, args[i], c.req.rest)
    else if typ == "ip" then c.address.Some? && exists i :: 0 <= i < |args| && w.inside(c.address.value, args[i])
    else w.accepts(typ, args, c.req)
  }

  /** Whether a named matcher accepts. Matchers may read classifiers and classifiers matchers; compiling
      refuses a cycle, so that enough `fuel` is never used up. */
  ghost predicate Passes<R>(w: World<R>, s: Site, c: Context<R>, name: string, fuel: nat)
    decreases fuel, 0
  {
    && fuel > 0 && name in s.defs
    && var d := s.defs[name];
       if d.typ == "classify" then
         |d.args| == 1 &&
         var (token, value, negate) := ClassTest(d.args[0]);
         (Classified(w, s, c, token, fuel - 1) == value) != negate
       else if d.typ == "all" then
         forall i :: 0 <= i < |d.args| ==> Passes(w, s, c, SecRef(d.args[i]).0, fuel - 1) != SecRef(d.args[i]).1
       else Plain(w, s, c, d.typ, d.args)
  }

  /** A `when` row: a conjunction of named matchers, or one inline matcher. */
  ghost predicate RowFires<R>(w: World<R>, s: Site, c: Context<R>, cond: seq<Seen>, fuel: nat)
    decreases fuel, 1
  {
    if cond != [] && cond[0].kind == MatcherRef then
      forall i :: 0 <= i < |cond| ==>
        cond[i].raw in {"and", "AND"} || (cond[i].kind == MatcherRef && Passes(w, s, c, TrimAt(cond[i].raw), fuel))
    else cond != [] && Plain(w, s, c, cond[0].raw, RawsOf(cond[1..]))
  }

  /** The value of the first row that fires, or the default's. */
  ghost function FirstRow<R>(w: World<R>, s: Site, c: Context<R>, rows: seq<Dir>, fuel: nat): Option<string>
    decreases fuel, 2, |rows|
  {
    if rows == [] then None
    else if rows[0].name == "when" && RowFires(w, s, c, rows[0].args[..Arrow(rows[0].args)], fuel) then
      Some(ArrowValue(rows[0].args))
    else FirstRow(w, s, c, rows[1..], fuel)
  }

  function Default(rows: seq<Dir>): string {
    if rows == [] then "" else if rows[0].name == "default" then ArrowValue(rows[0].args) else Default(rows[1..])
  }

  ghost function Classified<R>(w: World<R>, s: Site, c: Context<R>, token: string, fuel: nat): string
    decreases fuel, 3
  {
    var rows := RowsOf(s.vocab, token);
    match FirstRow(w, s, c, rows, fuel)
    case Some(v) => v
    case None => Default(rows)
  }

  // ----- Routes -----

  /** No condition takes every request; one of several references is enough. */
  ghost predicate RouteTakes<R>(w: World<R>, s: Site, c: Context<R>, cond: seq<Seen>, fuel: nat) {
    if cond == [] then true
    else if cond[0].kind == MatcherRef then
      exists i :: 0 <= i < |cond| && cond[i].kind == MatcherRef && Passes(w, s, c, TrimAt(cond[i].raw), fuel)
    else Plain(w, s, c, cond[0].raw, RawsOf(cond[1..]))
  }

  /** The target of the first route that takes the request; the pipeline's default is never set. */
  ghost function Routed<R>(w: World<R>, s: Site, c: Context<R>, routes: seq<Dir>, fuel: nat): string {
    if routes == [] then ""
    else if RouteTakes(w, s, c, routes[0].args[..Arrow(routes[0].args)], fuel) then ArrowValue(routes[0].args)
    else Routed(w, s, c, routes[1..], fuel)
  }

  // ----- The key -----

  const SEP: char := '\U{1F}'

  predicate IsPlaceholder(t: string) {
    |t| > 2 && t[0] == '{' && t[|t| - 1] == '}'
  }

  predicate StartsToken(t: string) {
    || t in {"method", "host", "path", "url", "query", "query_allow", "query_strip"}
    || "header:" <= t || "cookie:" <= t || IsPlaceholder(t)
  }

  /** The parameter names that query_allow and query_strip take. */
  function Params(args: seq<Seen>): (n: nat)
    ensures n <= |args|
  {
    if args == [] || StartsToken(args[0].raw) then 0 else 1 + Params(args[1..])
  }

  function Cookie(cookies: seq<(string, string)>, name: string): string {
    if cookies == [] then "" else if cookies[0].0 == name then cookies[0].1 else Cookie(cookies[1..], name)
  }

  /** A value is written without the separator. */
  function Unseparated(t: string): string {
    if t == [] then [] else (if t[0] == SEP then [] else [t[0]]) + Unseparated(t[1..])
  }

  function Sticky<R>(s: Site, c: Context<R>): string {
    if s.sticky != "" && Cookie(c.req.cookies, s.sticky) != "" then Unseparated(Cookie(c.req.cookies, s.sticky)) else c.client
  }

  ghost function Piece<R>(w: World<R>, s: Site, c: Context<R>, raw: string, params: seq<string>, fuel: nat): string {
    if raw == "{sticky}" then Sticky(s, c)
    else if raw == "{geo}" then c.req.place.country
    else if raw == "{geo.continent}" then c.req.place.continent
    else if raw == "{geo.region}" then c.req.place.region
    else if "cookie:" <= raw then Unseparated(Cookie(c.req.cookies, raw[7..]))
    else if !IsPlaceholder(raw) then w.part(raw, params, c.req)
    else match w.derived(s.vocab, raw, c.req)
         case Some(v) => v
         case None => Classified(w, s, c, raw, fuel)
  }

  ghost function Join<R>(w: World<R>, s: Site, c: Context<R>, args: seq<Seen>, fuel: nat): string {
    if args == [] then ""
    else
      var raw := args[0].raw;
      var n := if raw in {"query_allow", "query_strip"} then Params(args[1..]) else 0;
      var rest := args[1 + n..];
      var piece := Piece(w, s, c, raw, RawsOf(args[1..1 + n]), fuel);
      if rest == [] then piece else piece + [SEP] + Join(w, s, c, rest, fuel)
  }

  /** The leading matcher references of a recipe. */
  function Refs(args: seq<Seen>): (n: nat)
    ensures n <= |args| && forall i :: 0 <= i < n ==> args[i].kind == MatcherRef
  {
    if args == [] || args[0].kind != MatcherRef then 0 else 1 + Refs(args[1..])
  }

  /** A recipe for every request, or for those that one of the matchers in front accepts. */
  ghost predicate Selects<R>(w: World<R>, s: Site, c: Context<R>, args: seq<Seen>, fuel: nat) {
    Refs(args) == 0 || exists i :: 0 <= i < Refs(args) && Passes(w, s, c, TrimAt(args[i].raw), fuel)
  }

  function Recipe(args: seq<Seen>): seq<Seen> {
    if args != [] && args[0].raw == "default" then args[1..] else args[Refs(args)..]
  }

  const METHOD_HOST_PATH := [Seen("method", Literal), Seen("host", Literal), Seen("path", Literal)]

  /** The first recipe that selects the request. */
  ghost function Selected<R>(w: World<R>, s: Site, c: Context<R>, dirs: seq<Dir>, fuel: nat): seq<Seen> {
    if dirs == [] then []
    else if dirs[0].name == "cache_key" && Selects(w, s, c, dirs[0].args, fuel) then Recipe(dirs[0].args)
    else Selected(w, s, c, dirs[1..], fuel)
  }

  /** Without tokens, method, host and path. */
  ghost function KeyIn<R>(w: World<R>, s: Site, c: Context<R>, fuel: nat): string {
    var recipe := Selected(w, s, c, s.vocab, fuel);
    Join(w, s, c, if recipe == [] then METHOD_HOST_PATH else recipe, fuel)
  }

  /** Before routing: a route sees no upstream. */
  ghost function Unrouted<R>(w: World<R>, s: Site, q: Request<R>): Context<R> {
    var client := ClientOf(w, Proxies(s), q);
    Context(Prepare(w, s, q), "", if s.gate then Some(client) else None, client)
  }

  ghost function ContextOf<R>(w: World<R>, s: Site, q: Request<R>, fuel: nat): Context<R> {
    var c := Unrouted(w, s, q);
    c.(up := Routed(w, s, c, s.routes, fuel))
  }

  ghost function Key<R>(w: World<R>, s: Site, q: Request<R>, fuel: nat): string {
    KeyIn(w, s, ContextOf(w, s, q, fuel), fuel)
  }
}
