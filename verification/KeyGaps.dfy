/** Sites with one fingerprint and different keys: one pair for each thing outside the fingerprint that a key
    can depend on. */
module KeyGaps {
  import opened Objects
  import opened Ast
  import opened Fingerprint
  import opened CacheKeys

  function Bareword(t: string): Arg {
    ArgOf(t, false)
  }

  // ----- Adding a statement to a site -----

  lemma PicksMore(body: seq<Node>, n: Node, names: set<string>)
    ensures Picks(body + [n], names) == Picks(body, names) + Pick(n, names)
    ensures Pick(n, names) == [] ==> Picks(body + [n], names) == Picks(body, names)
  {
    assert (body + [n])[..|body|] == body;
  }

  lemma DefsMore(body: seq<Node>, n: Node)
    ensures DefsOf(body + [n]) == if n.MatcherDef? then DefsOf(body)[n.name := Def(n.typ, Raws(n.args))] else DefsOf(body)
  {
    assert (body + [n])[..|body|] == body;
  }

  /** What lies outside the vocabulary leaves the fingerprint alone. */
  lemma Unseen(body: seq<Node>, n: Node)
    requires !InVocabulary(n)
    ensures Vocabulary(body + [n]) == Vocabulary(body)
  {
    assert (body + [n])[..|body|] == body;
  }

  /** A site after one more directive. */
  lemma SiteMore(body: seq<Node>, n: Node, data: string)
    requires n.Directive?
    ensures var s, t := SiteOf(body, data), SiteOf(body + [n], data);
            && t.vocab == (if n.name in VOCABULARY then s.vocab + [DirOf(n)] else s.vocab)
            && t.defs == s.defs
            && t.routes == (if n.name == "route" then s.routes + [DirOf(n)] else s.routes)
            && t.origins == (if n.name in ORIGINS then s.origins + [DirOf(n)] else s.origins)
            && (n.name != "upstream" ==> t.sticky == s.sticky)
            && t.allow == (if n.name == "cookie_allow" then Some(RawsOf(DirOf(n).args)) else s.allow)
            && (n.name != "trust_proxy" ==> t.proxies == s.proxies)
            && t.gate == (s.gate || n.name in GATES)
            && (n.name != "cluster" ==> t.clustered == s.clustered)
            && t.data == s.data == data
  {
    hide DirOf, Picks, AllArgs, StickyOf, Clustered, DefsOf;
    DefsMore(body, n);
    PicksMore(body, n, VOCABULARY);
    PicksMore(body, n, {"route"});
    PicksMore(body, n, ORIGINS);
    PicksMore(body, n, {"upstream"});
    PicksMore(body, n, {"cookie_allow"});
    PicksMore(body, n, {"trust_proxy"});
    PicksMore(body, n, GATES);
    PicksMore(body, n, {"cluster"});
  }

  /** A site after one more matcher. */
  lemma DefMore(body: seq<Node>, m: Node, data: string)
    requires m.MatcherDef?
    ensures var s := SiteOf(body, data);
            SiteOf(body + [m], data) == s.(defs := s.defs[m.name := Def(m.typ, Raws(m.args))])
  {
    hide Picks, AllArgs, StickyOf, Clustered, DefsOf;
    DefsMore(body, m);
    PicksMore(body, m, VOCABULARY);
    PicksMore(body, m, {"route"});
    PicksMore(body, m, ORIGINS);
    PicksMore(body, m, {"upstream"});
    PicksMore(body, m, {"cookie_allow"});
    PicksMore(body, m, {"trust_proxy"});
    PicksMore(body, m, GATES);
    PicksMore(body, m, {"cluster"});
  }

  lemma NoSite(data: string)
    ensures SiteOf([], data) == Site([], map[], "", [], None, [], false, false, [], data)
  {
  }

  // ----- Reading a directive -----

  lemma Once(n: Node)
    requires n.Directive?
    ensures DirsOf([n]) == [DirOf(n)]
  {
    hide DirOf;
    assert [n][1..] == [] && [DirOf(n)] + [] == [DirOf(n)];
  }

  lemma Twice(m: Node, n: Node)
    requires m.Directive? && n.Directive?
    ensures DirsOf([m, n]) == [DirOf(m), DirOf(n)]
  {
    hide DirOf;
    assert [m, n][1..] == [n];
    Once(n);
  }

  /** A bare word without a brace or a leading '@' is a literal. */
  lemma {:induction false} LiteralWord(t: string)
    requires '{' !in t && (t != [] ==> t[0] != '@')
    ensures ClassifyArg(t, false) == Literal
  {
    NoBrace(t);
  }

  lemma {:induction false} NoBrace(t: string)
    requires '{' !in t
    ensures !ContainsPlaceholder(t)
  {
    if |t| >= 2 {
      NoBrace(t[2..]);
    }
    if t != [] {
      NoBrace(t[1..]);
    }
  }

  lemma Leaf(name: string, args: seq<Arg>)
    ensures DirOf(Directive(name, args, false, [])) == Dir(name, SeenArgs(args), false, [])
  {
  }

  // ----- A site with one token -----

  function TokenKey(t: string): Node {
    Directive("cache_key", [Bareword(t)], false, [])
  }

  lemma TokenSite(t: string, data: string)
    ensures SiteOf([TokenKey(t)], data) ==
            Site([Dir("cache_key", [Seen(t, ClassifyArg(t, false))], false, [])], map[], "", [], None, [], false, false, [], data)
  {
    hide SiteOf, ClassifyArg, DirOf;
    NoSite(data);
    SiteMore([], TokenKey(t), data);
    assert [] + [TokenKey(t)] == [TokenKey(t)];
    Leaf("cache_key", [Bareword(t)]);
    assert SeenArgs([Bareword(t)]) == [Seen(t, ClassifyArg(t, false))];
  }

  /** The directives in front are no recipes. */
  lemma {:induction false} SelectedLast<R>(w: World<R>, s: Site, c: Context<R>, pre: seq<Dir>, k: Dir, fuel: nat)
    requires (forall i :: 0 <= i < |pre| ==> pre[i].name != "cache_key") && k.name == "cache_key" && Refs(k.args) == 0
    ensures Selected(w, s, c, pre + [k], fuel) == Recipe(k.args)
  {
    hide Recipe, Refs;
    if pre == [] {
      assert pre + [k] == [k];
    } else {
      assert (pre + [k])[1..] == pre[1..] + [k];
      SelectedLast(w, s, c, pre[1..], k, fuel);
    }
  }

  ghost predicate OneToken(s: Site, pre: seq<Dir>, t: string) {
    && s.vocab == pre + [Dir("cache_key", [Seen(t, ClassifyArg(t, false))], false, [])]
    && forall i :: 0 <= i < |pre| ==> pre[i].name != "cache_key"
  }

  lemma OneTokenKey<R>(w: World<R>, s: Site, pre: seq<Dir>, t: string, q: Request<R>, fuel: nat)
    requires OneToken(s, pre, t) && t !in {"query_allow", "query_strip", "default"} && !IsMatcherRef(t)
    ensures Key(w, s, q, fuel) == Piece(w, s, ContextOf(w, s, q, fuel), t, [], fuel)
  {
    hide Piece, ContextOf, ContainsPlaceholder, Selected;
    var args := [Seen(t, ClassifyArg(t, false))];
    var c := ContextOf(w, s, q, fuel);
    SelectedLast(w, s, c, pre, Dir("cache_key", args, false, []), fuel);
    assert args[0..] == args && args[1..] == [] && RawsOf(args[1..1]) == [];
  }

  // ----- A classifier's matcher -----

  const TOKEN_KEY := Directive("cache_key", [Bareword("{t}")], false, [])

  const CLASSIFY := Directive("classify", [Bareword("{t}")], true,
    [Directive("when", [Bareword("@m"), Bareword("->"), Bareword("1")], false, []),
     Directive("default", [Bareword("->"), Bareword("0")], false, [])])

  /** A site whose key is a token that one matcher decides. */
  function ByMatcher(m: Node): seq<Node> {
    [m, CLASSIFY, TOKEN_KEY]
  }

  const WHEN := Dir("when", [Seen("@m", MatcherRef), Seen("->", Literal), Seen("1", Literal)], false, [])
  const DEFAULT := Dir("default", [Seen("->", Literal), Seen("0", Literal)], false, [])
  const CLASSES := Dir("classify", [Seen("{t}", Placeholder)], true, [WHEN, DEFAULT])
  const TOKEN := Dir("cache_key", [Seen("{t}", Placeholder)], false, [])

  lemma ByMatcherVocabulary(m: Node)
    requires m.MatcherDef?
    ensures Vocabulary(ByMatcher(m)) == [CLASSIFY, TOKEN_KEY]
  {
    var b := ByMatcher(m);
    assert b[..2] == [m, CLASSIFY] && [m, CLASSIFY][..1] == [m] && [m][..0] == [];
    assert Vocabulary([m]) == [];
    assert Vocabulary([m, CLASSIFY]) == [CLASSIFY];
  }

  lemma ByMatcherDirs()
    ensures DirsOf([CLASSIFY, TOKEN_KEY]) == [CLASSES, TOKEN]
  {
    Twice(CLASSIFY, TOKEN_KEY);
    Twice(CLASSIFY.block[0], CLASSIFY.block[1]);
    assert DirOf(TOKEN_KEY) == TOKEN;
    assert DirOf(CLASSIFY.block[0]) == WHEN && DirOf(CLASSIFY.block[1]) == DEFAULT;
    assert DirOf(CLASSIFY) == CLASSES;
  }

  lemma ByMatcherSite(m: Node, data: string)
    requires m.MatcherDef? && m.name == "m"
    ensures var s := SiteOf(ByMatcher(m), data);
            && s.vocab == [CLASSES, TOKEN] && s == Site(s.vocab, map["m" := Def(m.typ, Raws(m.args))], "", [], None, [], false, false, [], data)
  {
    hide SiteOf, DirsOf, ClassifyArg;
    NoSite(data);
    var one := [m];
    DefSite(m, data);
    SiteMore(one, CLASSIFY, data);
    SiteMore(one + [CLASSIFY], TOKEN_KEY, data);
    assert one + [CLASSIFY] + [TOKEN_KEY] == ByMatcher(m);
    ByMatcherDirs();
    Twice(CLASSIFY, TOKEN_KEY);
    assert [] + [DirOf(CLASSIFY)] + [DirOf(TOKEN_KEY)] == [CLASSES, TOKEN];
  }

  lemma DefSite(m: Node, data: string)
    requires m.MatcherDef?
    ensures SiteOf([m], data) == Site([], map[m.name := Def(m.typ, Raws(m.args))], "", [], None, [], false, false, [], data)
  {
    hide SiteOf;
    NoSite(data);
    DefMore([], m, data);
    assert [] + [m] == [m];
  }

  lemma ClassMatcher<R>(w: World<R>, s: Site, c: Context<R>, fuel: nat)
    requires s.vocab == [CLASSES, TOKEN] && "m" in s.defs && s.defs["m"].typ !in {"classify", "all"} && fuel > 0
    ensures Classified(w, s, c, "{t}", fuel) == if Plain(w, s, c, s.defs["m"].typ, s.defs["m"].args) then "1" else "0"
  {
    hide Plain;
    var rows := [WHEN, DEFAULT];
    assert RowsOf(s.vocab, "{t}") == rows;
    var args := WHEN.args;
    assert args[1..][0].raw == "->" && Arrow(args[1..]) == 0 && Arrow(args) == 1;
    var cond := args[..1];
    assert TrimAt(cond[0].raw) == "m";
    assert RowFires(w, s, c, cond, fuel) <==> Passes(w, s, c, "m", fuel);
    assert rows[1..] == [DEFAULT] && [DEFAULT][1..] == [];
    assert FirstRow(w, s, c, [DEFAULT], fuel) == None;
    assert Arrow(DEFAULT.args) == 0 && Default([DEFAULT]) == "0" && Default(rows) == "0";
  }

  /** Changing what a matcher accepts leaves the fingerprint as it is and changes the key of every request
      on which the two definitions differ. */
  lemma MatcherMatters<R>(w: World<R>, x: Node, y: Node, data: string, q: Request<R>, fuel: nat)
    requires x.MatcherDef? && y.MatcherDef? && x.name == y.name == "m" && fuel > 0
    requires x.typ !in {"classify", "all"} && y.typ !in {"classify", "all"}
    requires var s := SiteOf(ByMatcher(x), data); w.derived(s.vocab, "{t}", Prepare(w, s, q)) == None
    ensures ShapesOf(Vocabulary(ByMatcher(x))) == ShapesOf(Vocabulary(ByMatcher(y)))
    ensures var s := SiteOf(ByMatcher(x), data);
            var c := ContextOf(w, s, q, fuel);
            Key(w, s, q, fuel) == Key(w, SiteOf(ByMatcher(y), data), q, fuel)
            <==> Plain(w, s, c, x.typ, Raws(x.args)) == Plain(w, s, c, y.typ, Raws(y.args))
  {
    hide Key, Classified, DirsOf, ShapesOf, Vocabulary, SiteOf, Trusts, ClientOf, GeoProxies;
    ByMatcherVocabulary(x);
    ByMatcherVocabulary(y);
    ByMatcherSite(x, data);
    ByMatcherSite(y, data);
    var s, t := SiteOf(ByMatcher(x), data), SiteOf(ByMatcher(y), data);
    var c, d := ContextOf(w, s, q, fuel), ContextOf(w, t, q, fuel);
    assert c == d;
    ByMatcherKey(w, s, q, fuel);
    ByMatcherKey(w, t, q, fuel);
    ClassMatcher(w, s, c, fuel);
    ClassMatcher(w, t, d, fuel);
    assert Plain(w, s, c, y.typ, Raws(y.args)) == Plain(w, t, d, y.typ, Raws(y.args));
  }

  lemma ByMatcherKey<R>(w: World<R>, s: Site, q: Request<R>, fuel: nat)
    requires s.vocab == [CLASSES, TOKEN] && w.derived(s.vocab, "{t}", Prepare(w, s, q)) == None
    ensures Key(w, s, q, fuel) == Classified(w, s, ContextOf(w, s, q, fuel), "{t}", fuel)
  {
    hide Classified, Prepare, Key, Routed, ClientOf, Proxies;
    assert ClassifyArg("{t}", false) == Placeholder && IsPlaceholder("{t}");
    assert s.vocab == [CLASSES] + [TOKEN];
    OneTokenKey(w, s, [CLASSES], "{t}", q, fuel);
  }

  // ----- The sticky cookie -----

  function Upstream(cookie: string): Node {
    Directive("upstream", [Bareword("u")], true,
              [Directive("sticky", [Bareword("by"), Bareword("cookie"), Bareword(cookie)], false, [])])
  }

  function StickySite(cookie: string): seq<Node> {
    [TokenKey("{sticky}")] + [Upstream(cookie)]
  }

  /** A cookie's value, or else the client's address. */
  function Rendered<R>(q: Request<R>, cookie: string): string {
    if Cookie(q.cookies, cookie) != "" then Unseparated(Cookie(q.cookies, cookie)) else q.peer
  }

  lemma StickyCookie(cookie: string)
    requires cookie != ""
    ensures StickyOf([DirOf(Upstream(cookie))]) == cookie
  {
    hide ClassifyArg;
    var n := Upstream(cookie).block[0];
    Once(n);
    Leaf("sticky", n.args);
    var args := SeenArgs(n.args);
    assert args[1..][0].raw == "cookie" && args[1..][1].raw == cookie;
    assert CookieAfter(args[1..]) == Some(cookie) && CookieAfter(args) == Some(cookie);
    assert DirOf(Upstream(cookie)).block == [Dir("sticky", args, false, [])];
  }

  lemma StickySiteOf(cookie: string, data: string)
    requires cookie != ""
    ensures Vocabulary(StickySite(cookie)) == Vocabulary([TokenKey("{sticky}")])
    ensures var s := SiteOf(StickySite(cookie), data);
            s.sticky == cookie && s.vocab == SiteOf([TokenKey("{sticky}")], data).vocab && s.allow == None && s.proxies == []
  {
    hide DirOf, Picks, Vocabulary, AllArgs, StickyOf, Clustered, DefsOf, ClassifyArg;
    var base, n := [TokenKey("{sticky}")], Upstream(cookie);
    Unseen(base, n);
    TokenSite("{sticky}", data);
    SiteMore(base, n, data);
    StickyCookie(cookie);
    PicksMore(base, n, {"upstream"});
    NoPick(TokenKey("{sticky}"), {"upstream"});
    assert [] + [DirOf(n)] == [DirOf(n)];
  }

  lemma StickySiteKey<R>(w: World<R>, cookie: string, data: string, q: Request<R>, fuel: nat)
    requires cookie != ""
    ensures Key(w, SiteOf(StickySite(cookie), data), q, fuel) == Rendered(q, cookie)
  {
    hide SiteOf, Key, ContainsPlaceholder, Unseparated, Cookie, ContextOf, ClassifyArg, StickySite;
    StickySiteOf(cookie, data);
    TokenSite("{sticky}", data);
    var s := SiteOf(StickySite(cookie), data);
    assert s.vocab == [] + s.vocab;
    OneTokenKey(w, s, [], "{sticky}", q, fuel);
    NoProxies(w, s, q);
    AsArrived(w, s, q, fuel);
  }

  lemma NoPick(n: Node, names: set<string>)
    requires n.Directive? && n.name !in names
    ensures Picks([n], names) == []
  {
    assert [n][..0] == [] && Picks([n][..0], names) == [];
  }

  lemma NoProxies<R>(w: World<R>, s: Site, q: Request<R>)
    requires |s.vocab| == 1 && s.vocab[0].name != "geo"
    ensures Proxies(s) == s.proxies
  {
    assert s.vocab[1..] == [] && GeoDirs(s.vocab[1..]) == [];
    assert [] + s.proxies == s.proxies;
  }

  lemma NoGeo(a: Dir, b: Dir)
    requires a.name != "geo" && b.name != "geo"
    ensures GeoDirs([a, b]) == []
  {
    assert [a, b][1..] == [b] && [b][1..] == [] && GeoDirs([b]) == [];
  }

  /** Without an allowlist and without trusted proxies, a request is taken as it arrives. */
  lemma AsArrived<R>(w: World<R>, s: Site, q: Request<R>, fuel: nat)
    ensures var c := ContextOf(w, s, q, fuel);
            && (s.allow == None ==> c.req.cookies == q.cookies)
            && (Proxies(s) == [] ==> c.client == q.peer)
            && c.client == ClientOf(w, Proxies(s), q) && c.req == Prepare(w, s, q)
  {
    hide Routed;
  }

  /** The cookie that a sticky token reads is named outside the vocabulary: two sites with one fingerprint
      give a request the same key exactly if their cookies render alike in it. */
  lemma StickyMatters<R>(w: World<R>, c: string, d: string, data: string, q: Request<R>, fuel: nat)
    requires c != "" && d != ""
    ensures ShapesOf(Vocabulary(StickySite(c))) == ShapesOf(Vocabulary(StickySite(d)))
    ensures Key(w, SiteOf(StickySite(c), data), q, fuel) == Key(w, SiteOf(StickySite(d), data), q, fuel)
            <==> Rendered(q, c) == Rendered(q, d)
  {
    hide *;
    StickySiteOf(c, data);
    StickySiteOf(d, data);
    StickySiteKey(w, c, data, q, fuel);
    StickySiteKey(w, d, data, q, fuel);
  }

  // ----- The cookie allowlist -----

  function Allowing(name: string, kept: seq<string>): seq<Node> {
    [TokenKey("cookie:" + name)] + [Directive("cookie_allow", seq(|kept|, i requires 0 <= i < |kept| => Bareword(kept[i])), false, [])]
  }

  lemma AllowingSite(name: string, kept: seq<string>, data: string)
    ensures Vocabulary(Allowing(name, kept)) == Vocabulary([TokenKey("cookie:" + name)])
    ensures var s := SiteOf(Allowing(name, kept), data);
            s.allow == Some(kept) && s.vocab == SiteOf([TokenKey("cookie:" + name)], data).vocab
  {
    hide DirOf, Picks, Vocabulary, AllArgs, StickyOf, Clustered, DefsOf, ClassifyArg;
    var base := [TokenKey("cookie:" + name)];
    var n := Directive("cookie_allow", seq(|kept|, i requires 0 <= i < |kept| => Bareword(kept[i])), false, []);
    Unseen(base, n);
    SiteMore(base, n, data);
    Leaf("cookie_allow", n.args);
    assert RawsOf(SeenArgs(n.args)) == kept;
  }

  /** Cookies that are kept are read as before; others are gone. */
  lemma {:induction false} KeptCookie<R>(w: World<R>, s: Site, cookies: seq<(string, string)>, name: string)
    requires s.allow.Some?
    ensures Cookie(Kept(w, s, cookies), name) == if Allowed(w, s, name) then Cookie(cookies, name) else ""
  {
    hide Allowed;
    if cookies != [] {
      KeptCookie(w, s, cookies[1..], name);
      var more := Kept(w, s, cookies[1..]);
      assert ([cookies[0]] + more)[1..] == more && [] + more == more;
    }
  }

  lemma NothingSurvives(vocab: seq<Dir>, name: string)
    requires |vocab| == 1 && vocab[0].name != "classify"
    ensures !Survives(vocab, name)
  {
    assert vocab[1..] == [];
    forall token
      ensures RowsOf(vocab, token) == []
    {
      assert RowsOf(vocab[1..], token) == [];
    }
  }

  lemma AllowingKey<R>(w: World<R>, name: string, kept: seq<string>, data: string, q: Request<R>, fuel: nat)
    ensures Key(w, SiteOf(Allowing(name, kept), data), q, fuel) ==
            if exists i :: 0 <= i < |kept| && w.named(kept[i], name) then Unseparated(Cookie(q.cookies, name)) else ""
  {
    hide SiteOf, Key, ContainsPlaceholder, Cookie, ContextOf, Survives, Kept, TokenKey, Allowing, Classified, IsPlaceholder;
    AllowingSite(name, kept, data);
    var t := "cookie:" + name;
    TokenSite(t, data);
    var s := SiteOf(Allowing(name, kept), data);
    assert s.vocab == [] + s.vocab && t[7..] == name && t[0] == 'c';
    TokenNames(t);
    OneTokenKey(w, s, [], t, q, fuel);
    AsPrepared(w, s, q, fuel);
    KeptCookie(w, s, q.cookies, name);
    NothingSurvives(s.vocab, name);
  }

  lemma TokenNames(t: string)
    requires |t| > 6 && t[6] == ':'
    ensures t !in {"query_allow", "query_strip", "default", "{sticky}", "{geo}", "{geo.continent}", "{geo.region}"}
  {
    assert "query_allow"[6] == 'a' && "query_strip"[6] == 's' && "default"[6] == 't' && "{sticky}"[6] == 'y';
    assert "{geo.continent}"[6] == 'o' && "{geo.region}"[6] == 'e';
  }

  lemma AsPrepared<R>(w: World<R>, s: Site, q: Request<R>, fuel: nat)
    ensures ContextOf(w, s, q, fuel).req == Prepare(w, s, q)
  {
    hide Routed, Prepare;
  }

  /** What an allowlist strips is stripped before the key is built: a site that keeps the cookie in its key
      and one that strips it have one fingerprint, and one key exactly for a request without its value. */
  lemma CookieAllowMatters<R>(w: World<R>, name: string, data: string, q: Request<R>, fuel: nat)
    requires w.named(name, name)
    ensures ShapesOf(Vocabulary(Allowing(name, [name]))) == ShapesOf(Vocabulary(Allowing(name, [])))
    ensures Key(w, SiteOf(Allowing(name, [name]), data), q, fuel) == Key(w, SiteOf(Allowing(name, []), data), q, fuel)
            <==> Unseparated(Cookie(q.cookies, name)) == ""
  {
    hide *;
    AllowingSite(name, [name], data);
    AllowingSite(name, [], data);
    AllowingKey(w, name, [name], data, q, fuel);
    AllowingKey(w, name, [], data, q, fuel);
    assert w.named([name][0], name);
  }

  // ----- Trusted proxies -----

  const BY_CLIENT := [TokenKey("{sticky}")]

  function Behind(prefix: string): seq<Node> {
    BY_CLIENT + [Directive("trust_proxy", [Bareword(prefix)], false, [])]
  }

  lemma BehindSite(prefix: string, data: string)
    ensures Vocabulary(Behind(prefix)) == Vocabulary(BY_CLIENT)
    ensures var s, t := SiteOf(BY_CLIENT, data), SiteOf(Behind(prefix), data);
            t == s.(proxies := [prefix]) && s.proxies == [] && s.sticky == ""
  {
    hide DirOf, Picks, Vocabulary, StickyOf, Clustered, DefsOf, ClassifyArg;
    var n := Directive("trust_proxy", [Bareword(prefix)], false, []);
    Unseen(BY_CLIENT, n);
    TokenSite("{sticky}", data);
    SiteMore(BY_CLIENT, n, data);
    PicksMore(BY_CLIENT, n, {"trust_proxy"});
    NoPick(TokenKey("{sticky}"), {"trust_proxy"});
    Leaf("trust_proxy", n.args);
    var d := DirOf(n);
    assert [] + [d] == [d] && [d][1..] == [] && RawsOf(d.args) == [prefix] && [prefix] + [] == [prefix];
    assert AllArgs([d]) == [prefix];
  }

  /** A trusted proxy is seen through: the client's address in a sticky token is the peer's for both sites
      exactly if the prefix does not hold the peer or nothing nearer is forwarded. */
  lemma ProxyMatters<R>(w: World<R>, prefix: string, data: string, q: Request<R>, fuel: nat)
    ensures ShapesOf(Vocabulary(BY_CLIENT)) == ShapesOf(Vocabulary(Behind(prefix)))
    ensures Key(w, SiteOf(BY_CLIENT, data), q, fuel) == q.peer
    ensures Key(w, SiteOf(BY_CLIENT, data), q, fuel) == Key(w, SiteOf(Behind(prefix), data), q, fuel)
            <==> !w.inside(q.peer, prefix) || Nearest(w, [prefix], q.forwarded, q.peer) == q.peer
  {
    hide SiteOf, Key, ContainsPlaceholder, ContextOf, ClassifyArg, Behind, Cookie, Nearest, ShapesOf, Vocabulary;
    BehindSite(prefix, data);
    TokenSite("{sticky}", data);
    var s, t := SiteOf(BY_CLIENT, data), SiteOf(Behind(prefix), data);
    assert s.vocab == [] + s.vocab && t.vocab == [] + t.vocab;
    OneTokenKey(w, s, [], "{sticky}", q, fuel);
    OneTokenKey(w, t, [], "{sticky}", q, fuel);
    NoProxies(w, s, q);
    NoProxies(w, t, q);
    AsArrived(w, s, q, fuel);
    AsArrived(w, t, q, fuel);
    TrustsOne(w, prefix, q.peer);
  }

  lemma TrustsOne<R>(w: World<R>, prefix: string, a: string)
    ensures Trusts(w, [prefix], a) <==> w.inside(a, prefix)
  {
    assert [prefix][0] == prefix;
  }

  // ----- Clusters -----

  const HOP := "header:X-Cadish-Peer"
  const BY_HOP := [TokenKey(HOP)]
  const PEERS := Directive("cluster", [], true, [Directive("peers", [Bareword("p")], false, [])])

  lemma PeersSite(data: string)
    ensures Vocabulary(BY_HOP + [PEERS]) == Vocabulary(BY_HOP)
    ensures var s, t := SiteOf(BY_HOP, data), SiteOf(BY_HOP + [PEERS], data);
            !s.clustered && t.clustered && t.(clustered := false, origins := []) == s
  {
    hide Picks, Vocabulary, StickyOf, AllArgs, DefsOf, ClassifyArg;
    Unseen(BY_HOP, PEERS);
    TokenSite(HOP, data);
    SiteMore(BY_HOP, PEERS, data);
    PicksMore(BY_HOP, PEERS, {"cluster"});
    NoPick(TokenKey(HOP), {"cluster"});
    var d := DirOf(PEERS);
    Once(PEERS.block[0]);
    assert d.args == [] && d.block[0].name == "peers";
    assert Holds([d][0].block, "peers");
    assert [] + [d] == [d] && Clustered([d]);
  }

  /** A site in a cluster drops the hop header of a peer it does not trust: a site outside one, with the same
      fingerprint, keys the header as it came. */
  lemma ClusterMatters<R>(w: World<R>, data: string, q: Request<R>, fuel: nat)
    ensures ShapesOf(Vocabulary(BY_HOP)) == ShapesOf(Vocabulary(BY_HOP + [PEERS]))
    ensures var p := Prepare(w, SiteOf(BY_HOP, data), q);
            && p.hop == q.hop
            && (Key(w, SiteOf(BY_HOP, data), q, fuel) == Key(w, SiteOf(BY_HOP + [PEERS], data), q, fuel)
                <==> w.part(HOP, [], p) == w.part(HOP, [], p.(hop := "")))
  {
    hide SiteOf, Key, ContainsPlaceholder, ContextOf, ClassifyArg, ShapesOf, Vocabulary, Nearest;
    PeersSite(data);
    TokenSite(HOP, data);
    var s, t := SiteOf(BY_HOP, data), SiteOf(BY_HOP + [PEERS], data);
    assert s.vocab == [] + s.vocab && t.vocab == [] + t.vocab;
    TokenNames(HOP);
    OneTokenKey(w, s, [], HOP, q, fuel);
    OneTokenKey(w, t, [], HOP, q, fuel);
    NoProxies(w, s, q);
    NoProxies(w, t, q);
    AsPrepared(w, s, q, fuel);
    AsPrepared(w, t, q, fuel);
    assert Prepare(w, t, q) == Prepare(w, s, q).(hop := "");
  }

  // ----- Geo databases -----

  const GEO := Directive("geo", [], true, [Directive("source", [Bareword("maxmind"), Bareword("db")], false, [])])
  const BY_COUNTRY := [GEO] + [TokenKey("{geo}")]

  /** The fingerprint knows a geo database by its path: the same configuration over other data has the same
      fingerprint, and gives a request the same key exactly if both place it in the same country. */
  lemma DataMatters<R>(w: World<R>, x: string, y: string, q: Request<R>, fuel: nat)
    ensures Key(w, SiteOf(BY_COUNTRY, x), q, fuel) == Key(w, SiteOf(BY_COUNTRY, y), q, fuel)
            <==> Prepare(w, SiteOf(BY_COUNTRY, x), q).place.country == Prepare(w, SiteOf(BY_COUNTRY, y), q).place.country
  {
    hide Key, Prepare, SiteOf;
    CountryKey(w, x, q, fuel);
    CountryKey(w, y, q, fuel);
  }

  lemma CountryKey<R>(w: World<R>, x: string, q: Request<R>, fuel: nat)
    ensures Key(w, SiteOf(BY_COUNTRY, x), q, fuel) == Prepare(w, SiteOf(BY_COUNTRY, x), q).place.country
  {
    hide SiteOf, Key, ContainsPlaceholder, ContextOf, ClassifyArg, Prepare, DirOf;
    NoSite(x);
    SiteMore([], GEO, x);
    assert [] + [GEO] == [GEO];
    SiteMore([GEO], TokenKey("{geo}"), x);
    var s := SiteOf(BY_COUNTRY, x);
    Leaf("cache_key", [Bareword("{geo}")]);
    assert SeenArgs([Bareword("{geo}")]) == [Seen("{geo}", ClassifyArg("{geo}", false))];
    GeoName();
    assert [] + [DirOf(GEO)] == [DirOf(GEO)];
    OneTokenKey(w, s, [DirOf(GEO)], "{geo}", q, fuel);
    AsPrepared(w, s, q, fuel);
  }

  lemma GeoName()
    ensures DirOf(GEO).name == "geo"
  {
  }

  // ----- Two recipes -----

  function Scoped(quoted: bool): Node {
    Directive("cache_key", [ArgOf("@x", quoted), Bareword("host")], false, [])
  }

  const CATCH_ALL := Directive("cache_key", [Bareword("default"), Bareword("path")], false, [])

  /** A site that keys the host where a matcher accepts, and the path elsewhere. */
  function Chosen(x: Node, quoted: bool): seq<Node> {
    [x] + [Scoped(quoted)] + [CATCH_ALL]
  }

  const REST := Dir("cache_key", [Seen("default", Literal), Seen("path", Literal)], false, [])

  function ScopedDir(quoted: bool): Dir {
    Dir("cache_key", [Seen("@x", if quoted then Literal else MatcherRef), Seen("host", Literal)], false, [])
  }

  lemma QuotedOrNot(quoted: bool)
    ensures ClassifyArg("@x", quoted) == if quoted then Literal else MatcherRef
  {
  }

  lemma ChosenDirs(quoted: bool)
    ensures DirOf(Scoped(quoted)) == ScopedDir(quoted) && DirOf(CATCH_ALL) == REST
  {
    hide ContainsPlaceholder, ClassifyArg;
    LiteralWord("host");
    LiteralWord("path");
    LiteralWord("default");
    QuotedOrNot(quoted);
    Leaf("cache_key", Scoped(quoted).args);
    Leaf("cache_key", CATCH_ALL.args);
  }

  lemma ChosenSite(x: Node, quoted: bool, data: string)
    requires x.MatcherDef? && x.name == "x"
    ensures SiteOf(Chosen(x, quoted), data) ==
            Site([ScopedDir(quoted), REST], map["x" := Def(x.typ, Raws(x.args))], "", [], None, [], false, false, [], data)
  {
    hide SiteOf, DirOf;
    DefSite(x, data);
    SiteMore([x], Scoped(quoted), data);
    SiteMore([x] + [Scoped(quoted)], CATCH_ALL, data);
    ChosenDirs(quoted);
    assert [] + [ScopedDir(quoted)] + [REST] == [ScopedDir(quoted), REST];
  }

  lemma OnePart<R>(w: World<R>, s: Site, c: Context<R>, t: string, fuel: nat)
    requires t == "host" || t == "path"
    ensures Join(w, s, c, [Seen(t, Literal)], fuel) == w.part(t, [], c.req)
  {
    var args := [Seen(t, Literal)];
    assert args[1..] == [] && args[1..1] == [] && RawsOf([]) == [];
  }

  lemma ChosenKey<R>(w: World<R>, s: Site, q: Request<R>, fuel: nat)
    requires s.vocab == [ScopedDir(false), REST]
    ensures var c := ContextOf(w, s, q, fuel);
            Key(w, s, q, fuel) == w.part(if Passes(w, s, c, "x", fuel) then "host" else "path", [], c.req)
  {
    hide Passes, ContextOf, Join;
    var c := ContextOf(w, s, q, fuel);
    var args := ScopedDir(false).args;
    assert args[1..] == [Seen("host", Literal)] && Refs(args[1..]) == 0 && Refs(args) == 1;
    assert TrimAt(args[0].raw) == "x";
    assert Selects(w, s, c, args, fuel) <==> Passes(w, s, c, "x", fuel);
    assert s.vocab[1..] == [REST] && Refs(REST.args) == 0 && REST.args[1..] == [Seen("path", Literal)];
    assert Selected(w, s, c, [REST], fuel) == [Seen("path", Literal)];
    OnePart(w, s, c, "host", fuel);
    OnePart(w, s, c, "path", fuel);
  }

  // ----- Quoting -----

  lemma QuotedKey<R>(w: World<R>, s: Site, q: Request<R>, fuel: nat)
    requires s.vocab == [ScopedDir(true), REST]
    ensures var c := ContextOf(w, s, q, fuel);
            Key(w, s, q, fuel) == w.part("@x", [], c.req) + [SEP] + w.part("host", [], c.req)
  {
    hide ContextOf;
    var c := ContextOf(w, s, q, fuel);
    var args := ScopedDir(true).args;
    assert Refs(args) == 0 && Recipe(args) == args && Selected(w, s, c, s.vocab, fuel) == args;
    assert args[1..] == [Seen("host", Literal)] && args[1..1] == [] && RawsOf([]) == [];
    OnePart(w, s, c, "host", fuel);
  }

  lemma ChosenShapes(x: Node)
    requires x.MatcherDef?
    ensures ShapesOf(Vocabulary(Chosen(x, false))) == ShapesOf(Vocabulary(Chosen(x, true)))
  {
    hide ClassifyArg;
    ChosenVocabulary(x, false);
    ChosenVocabulary(x, true);
    var a, b := [Scoped(false), CATCH_ALL], [Scoped(true), CATCH_ALL];
    assert a[1..] == b[1..] && Raws(a[0].args) == Raws(b[0].args);
    assert ShapeOf(a[0]) == ShapeOf(b[0]);
  }

  lemma ChosenVocabulary(x: Node, quoted: bool)
    requires x.MatcherDef?
    ensures Vocabulary(Chosen(x, quoted)) == [Scoped(quoted), CATCH_ALL]
  {
    assert [x][..0] == [] && Vocabulary([x]) == [];
    var b := [x] + [Scoped(quoted)];
    assert b[..1] == [x] && (b + [CATCH_ALL])[..2] == b;
    assert Vocabulary(b) == [] + [Scoped(quoted)];
  }

  /** In quotes, a reference in front of a recipe is a literal part of the key. The fingerprint is the same; the
      key is the same exactly if the matcher does not accept and the path happens to render like the other
      recipe. */
  lemma QuotingMatters<R>(w: World<R>, x: Node, data: string, q: Request<R>, fuel: nat)
    requires x.MatcherDef? && x.name == "x" && x.typ !in {"classify", "all"} && fuel > 0
    ensures ShapesOf(Vocabulary(Chosen(x, false))) == ShapesOf(Vocabulary(Chosen(x, true)))
    ensures var s := SiteOf(Chosen(x, false), data);
            var c := ContextOf(w, s, q, fuel);
            Key(w, s, q, fuel) == Key(w, SiteOf(Chosen(x, true), data), q, fuel)
            <==> !Plain(w, s, c, x.typ, Raws(x.args))
                 && w.part("path", [], c.req) == w.part("@x", [], c.req) + [SEP] + w.part("host", [], c.req)
  {
    hide Key, SiteOf, Vocabulary, ShapesOf, Chosen, Plain, Trusts, ClientOf;
    ChosenShapes(x);
    ChosenSite(x, false, data);
    ChosenSite(x, true, data);
    var s, t := SiteOf(Chosen(x, false), data), SiteOf(Chosen(x, true), data);
    ChosenKey(w, s, q, fuel);
    QuotedKey(w, t, q, fuel);
    NoGeo(ScopedDir(false), REST);
    NoGeo(ScopedDir(true), REST);
    PreparedAlike(w, s, t, q, fuel);
  }

  /** Recipes do not matter to how a request is prepared. */
  lemma PreparedAlike<R>(w: World<R>, s: Site, t: Site, q: Request<R>, fuel: nat)
    requires GeoDirs(s.vocab) == GeoDirs(t.vocab) && s.allow == t.allow == None && s.proxies == t.proxies
    requires s.clustered == t.clustered && s.data == t.data
    ensures ContextOf(w, s, q, fuel).req == ContextOf(w, t, q, fuel).req
  {
    hide Routed, Trusts, ClientOf;
  }

  // ----- The security gate -----

  /** Only behind a security gate is there an address to test: adding one to a site leaves its fingerprint as
      it is, and the key of a request exactly if its client is outside the prefix or both recipes render alike. */
  lemma GateMatters<R>(w: World<R>, x: Node, n: Node, data: string, q: Request<R>, fuel: nat)
    requires x.MatcherDef? && x.name == "x" && x.typ == "ip" && n.Directive? && n.name in GATES && fuel > 0
    ensures Vocabulary(Chosen(x, false) + [n]) == Vocabulary(Chosen(x, false))
    ensures var s := SiteOf(Chosen(x, false), data);
            var c := ContextOf(w, s, q, fuel);
            Key(w, s, q, fuel) == Key(w, SiteOf(Chosen(x, false) + [n], data), q, fuel)
            <==> w.part("host", [], c.req) == w.part("path", [], c.req)
                 || !exists i :: 0 <= i < |x.args| && w.inside(c.client, x.args[i].raw)
  {
    hide Key, SiteOf, Vocabulary, Chosen, Prepare, DirOf, Passes, Routed;
    var body := Chosen(x, false);
    Unseen(body, n);
    ChosenSite(x, false, data);
    SiteMore(body, n, data);
    var s, t := SiteOf(body, data), SiteOf(body + [n], data);
    ChosenKey(w, s, q, fuel);
    ChosenKey(w, t, q, fuel);
    NoGeo(ScopedDir(false), REST);
    PreparedAlike(w, s, t, q, fuel);
    InsideSome(w, x.args, ContextOf(w, s, q, fuel).client);
    PlainX(w, s, ContextOf(w, s, q, fuel), fuel);
    PlainX(w, t, ContextOf(w, t, q, fuel), fuel);
  }

  lemma PlainX<R>(w: World<R>, s: Site, c: Context<R>, fuel: nat)
    requires "x" in s.defs && s.defs["x"].typ !in {"classify", "all"} && fuel > 0
    ensures Passes(w, s, c, "x", fuel) == Plain(w, s, c, s.defs["x"].typ, s.defs["x"].args)
  {
    hide Plain;
  }

  lemma InsideSome<R>(w: World<R>, args: seq<Arg>, a: string)
    ensures (exists i :: 0 <= i < |args| && w.inside(a, args[i].raw)) <==> exists i :: 0 <= i < |args| && w.inside(a, Raws(args)[i])
  {
    assert forall i :: 0 <= i < |args| ==> Raws(args)[i] == args[i].raw;
  }

  // ----- Origins -----

  /** Whether an origin counts as up depends on how it is declared, outside the vocabulary. */
  lemma OriginsMatter<R>(w: World<R>, u: string, m: Node, n: Node, data: string, q: Request<R>, fuel: nat)
    requires m.Directive? && n.Directive? && m.name == n.name == "upstream" && fuel > 0
    ensures var x := MatcherDef("x", "upstream_healthy", [Bareword(u)]);
            var s := SiteOf(Chosen(x, false) + [m], data);
            var c := ContextOf(w, s, q, fuel);
            && Vocabulary(Chosen(x, false) + [m]) == Vocabulary(Chosen(x, false) + [n])
            && (Key(w, s, q, fuel) == Key(w, SiteOf(Chosen(x, false) + [n], data), q, fuel)
                <==> w.part("host", [], c.req) == w.part("path", [], c.req)
                     || w.healthy([DirOf(m)], u, q.rest) == w.healthy([DirOf(n)], u, q.rest))
  {
    hide Key, SiteOf, Vocabulary, Chosen, Prepare, DirOf, ClassifyArg, Passes, Routed, ContextOf;
    var x := MatcherDef("x", "upstream_healthy", [Bareword(u)]);
    var body := Chosen(x, false);
    Unseen(body, m);
    Unseen(body, n);
    ChosenSite(x, false, data);
    SiteMore(body, m, data);
    SiteMore(body, n, data);
    var s, t := SiteOf(body + [m], data), SiteOf(body + [n], data);
    assert [] + [DirOf(m)] == [DirOf(m)] && [] + [DirOf(n)] == [DirOf(n)];
    ChosenKey(w, s, q, fuel);
    ChosenKey(w, t, q, fuel);
    NoGeo(ScopedDir(false), REST);
    PreparedAlike(w, s, t, q, fuel);
    UpIf(w, s, ContextOf(w, s, q, fuel), u, fuel);
    UpIf(w, t, ContextOf(w, t, q, fuel), u, fuel);
    SameRest(w, s, q, fuel);
  }

  lemma SameRest<R>(w: World<R>, s: Site, q: Request<R>, fuel: nat)
    ensures ContextOf(w, s, q, fuel).req.rest == q.rest
  {
    hide Routed, ClientOf, Trusts, Kept;
  }

  lemma UpIf<R>(w: World<R>, s: Site, c: Context<R>, u: string, fuel: nat)
    requires "x" in s.defs && s.defs["x"].typ == "upstream_healthy" && s.defs["x"].args == [u] && fuel > 0
    ensures Passes(w, s, c, "x", fuel) <==> w.healthy(s.origins, u, c.req.rest)
  {
    assert [u][0] == u;
  }

  // ----- Routes -----

  function Route(target: string): Node {
    Directive("route", [Bareword("@r"), Bareword("->"), Bareword(target)], false, [])
  }

  /** A site that keys the host where a request is routed to `target`; no route does, yet. */
  function ByRoute(target: string, r: Node): seq<Node> {
    Chosen(MatcherDef("x", "upstream", [Bareword(target)]), false) + [r]
  }

  lemma RouteDir(target: string)
    ensures var args := DirOf(Route(target)).args;
            && Arrow(args) == 1 && args[..1] == [Seen("@r", MatcherRef)] && ArrowValue(args) == target
  {
    hide ClassifyArg;
    var n := Route(target);
    Leaf("route", n.args);
    var args := SeenArgs(n.args);
    assert ClassifyArg("@r", false) == MatcherRef by { RefKind(); }
    assert args[1..][0].raw == "->" && Arrow(args[1..]) == 0;
  }

  lemma RefKind()
    ensures ClassifyArg("@r", false) == MatcherRef
  {
  }

  lemma ByRouteSite(target: string, r: Node, data: string)
    requires r.MatcherDef? && r.name == "r"
    ensures SiteOf(ByRoute(target, r), data) ==
            Site([ScopedDir(false), REST],
                 map["x" := Def("upstream", [target]), "r" := Def(r.typ, Raws(r.args))], "", [], None, [], false, false, [], data)
  {
    hide SiteOf, ClassifyArg;
    var x := MatcherDef("x", "upstream", [Bareword(target)]);
    ChosenSite(x, false, data);
    DefMore(Chosen(x, false), r, data);
    assert Raws(x.args) == [target];
  }

  /** Whether a request is routed there. */
  lemma RoutedIf<R>(w: World<R>, s: Site, c: Context<R>, target: string, fuel: nat)
    requires s.routes == [DirOf(Route(target))] && "r" in s.defs && s.defs["r"].typ !in {"classify", "all"} && fuel > 0
    ensures Routed(w, s, c, s.routes, fuel) == if Plain(w, s, c, s.defs["r"].typ, s.defs["r"].args) then target else ""
  {
    hide DirOf, Plain;
    RouteDir(target);
    assert s.routes[1..] == [];
    var cond := [Seen("@r", MatcherRef)];
    assert TrimAt(cond[0].raw) == "r" && cond[0].kind == MatcherRef;
    assert RouteTakes(w, s, c, cond, fuel) <==> Passes(w, s, c, "r", fuel);
  }

  /** A route leaves the fingerprint as it is. The keys of a request with and without it are the same exactly
      if it does not take the request or both recipes render alike. */
  lemma RouteMatters<R>(w: World<R>, target: string, r: Node, data: string, q: Request<R>, fuel: nat)
    requires r.MatcherDef? && r.name == "r" && r.typ !in {"classify", "all"} && target != "" && fuel > 0
    ensures Vocabulary(ByRoute(target, r) + [Route(target)]) == Vocabulary(ByRoute(target, r))
    ensures var s := SiteOf(ByRoute(target, r), data);
            var c := Unrouted(w, s, q);
            Key(w, s, q, fuel) == Key(w, SiteOf(ByRoute(target, r) + [Route(target)], data), q, fuel)
            <==> w.part("host", [], c.req) == w.part("path", [], c.req) || !Plain(w, s, c, r.typ, Raws(r.args))
  {
    hide Key, SiteOf, Vocabulary, ByRoute, DirOf, Prepare, ClientOf, Routed, Passes, Unrouted;
    var body, n := ByRoute(target, r), Route(target);
    Unseen(body, n);
    ByRouteSite(target, r, data);
    SiteMore(body, n, data);
    var s, t := SiteOf(body, data), SiteOf(body + [n], data);
    assert [] + [DirOf(n)] == [DirOf(n)];
    ChosenKey(w, s, q, fuel);
    ChosenKey(w, t, q, fuel);
    NoGeo(ScopedDir(false), REST);
    UnroutedSame(w, s, t, q);
    RoutedIf(w, t, Unrouted(w, t, q), target, fuel);
    NotRouted(w, s, Unrouted(w, s, q), fuel);
    PlainX(w, s, ContextOf(w, s, q, fuel), fuel);
    PlainX(w, t, ContextOf(w, t, q, fuel), fuel);
    assert Plain(w, t, Unrouted(w, t, q), r.typ, Raws(r.args)) == Plain(w, s, Unrouted(w, s, q), r.typ, Raws(r.args));
  }

  lemma NotRouted<R>(w: World<R>, s: Site, c: Context<R>, fuel: nat)
    requires s.routes == []
    ensures Routed(w, s, c, s.routes, fuel) == ""
  {
  }

  lemma UnroutedSame<R>(w: World<R>, s: Site, t: Site, q: Request<R>)
    requires GeoDirs(s.vocab) == GeoDirs(t.vocab) && s.allow == t.allow == None && s.proxies == t.proxies
    requires s.clustered == t.clustered && s.data == t.data && s.gate == t.gate
    ensures Unrouted(w, s, q) == Unrouted(w, t, q)
  {
    hide Trusts, ClientOf;
  }
}
