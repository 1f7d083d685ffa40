/** What the fingerprint of a site says about its keys. */
module KeyLaws {
  import opened Objects
  import opened Ast
  import opened Fingerprint
  import opened CacheKeys

  // ----- What the key depends on -----

  /** The matchers a directive's arguments name. */
  ghost predicate Names(args: seq<Seen>, names: iset<string>) {
    forall i :: 0 <= i < |args| && args[i].kind == MatcherRef ==> TrimAt(args[i].raw) in names
  }

  ghost predicate AllNamed(dirs: seq<Dir>, names: iset<string>) {
    forall i :: 0 <= i < |dirs| ==> Names(dirs[i].args, names)
  }

  ghost predicate RefsNamed(args: seq<string>, names: iset<string>) {
    forall i :: 0 <= i < |args| ==> SecRef(args[i]).0 in names
  }

  /** `names` holds every matcher that the recipes and the classifiers name, and those that these name. */
  ghost predicate Covers(s: Site, names: iset<string>) {
    && AllNamed(s.vocab, names)
    && (forall i :: 0 <= i < |s.vocab| ==> AllNamed(s.vocab[i].block, names))
    && (forall n :: n in names && n in s.defs && s.defs[n].typ == "all" ==> RefsNamed(s.defs[n].args, names))
  }

  ghost predicate SameDefs(s: Site, t: Site, names: iset<string>) {
    forall n :: n in names ==> (n in s.defs <==> n in t.defs) && (n in s.defs ==> s.defs[n] == t.defs[n])
  }

  /** An inline matcher of this type in front of some row or route. */
  ghost predicate Inline(dirs: seq<Dir>, typ: string) {
    exists i :: 0 <= i < |dirs| && dirs[i].args != [] && dirs[i].args[0].raw == typ
  }

  ghost predicate InlineRow(vocab: seq<Dir>, typ: string) {
    exists i :: 0 <= i < |vocab| && Inline(vocab[i].block, typ)
  }

  /** Some matcher that a key may come to is of this type. */
  ghost predicate Mentions(s: Site, names: iset<string>, typ: string) {
    || (exists n :: n in names && n in s.defs && s.defs[n].typ == typ)
    || InlineRow(s.vocab, typ)
    || Inline(s.routes, typ)
  }

  ghost predicate KeysSticky(vocab: seq<Dir>) {
    exists i :: 0 <= i < |vocab| && vocab[i].name == "cache_key" && UsesSticky(vocab[i].args)
  }

  ghost predicate UsesSticky(args: seq<Seen>) {
    exists i :: 0 <= i < |args| && args[i].raw == "{sticky}"
  }

  /** Two sites that agree in everything their keys can read: the vocabulary, the matchers it comes to, and
      the settings; of the routes, the security gate, the origins and the sticky cookie only if it reads them. */
  ghost predicate Alike(s: Site, t: Site, names: iset<string>) {
    && s.vocab == t.vocab && Covers(s, names) && SameDefs(s, t, names)
    && s.allow == t.allow && s.proxies == t.proxies && s.clustered == t.clustered && s.data == t.data
    && (KeysSticky(s.vocab) ==> s.sticky == t.sticky)
    && (Mentions(s, names, "upstream") ==> s.routes == t.routes && AllNamed(s.routes, names))
    && (Mentions(s, names, "ip") ==> s.gate == t.gate)
    && (Mentions(s, names, "upstream_healthy") ==> s.origins == t.origins)
  }

  /** The contexts of one request in two such sites. */
  ghost predicate Same<R>(s: Site, names: iset<string>, c: Context<R>, d: Context<R>) {
    && c.req == d.req && c.client == d.client
    && (Mentions(s, names, "upstream") ==> c.up == d.up)
    && (Mentions(s, names, "ip") ==> c.address == d.address)
  }

  lemma PlainAlike<R>(w: World<R>, s: Site, t: Site, names: iset<string>, c: Context<R>, d: Context<R>, typ: string, args: seq<string>)
    requires Alike(s, t, names) && Same(s, names, c, d) && Mentions(s, names, typ)
    ensures Plain(w, s, c, typ, args) == Plain(w, t, d, typ, args)
  {
    hide Covers, SameDefs, Mentions;
  }

  lemma {:induction false} PassesAlike<R>(w: World<R>, s: Site, t: Site, names: iset<string>, c: Context<R>, d: Context<R>, name: string, fuel: nat)
    requires Alike(s, t, names) && Same(s, names, c, d) && name in names
    ensures Passes(w, s, c, name, fuel) == Passes(w, t, d, name, fuel)
    decreases fuel, 0
  {
    hide Classified, SecRef, ClassTest, Plain, Same, AllNamed, KeysSticky, InlineRow, Inline;
    if fuel > 0 && name in s.defs {
      var f := s.defs[name];
      if f.typ == "classify" {
        if |f.args| == 1 {
          ClassifiedAlike(w, s, t, names, c, d, ClassTest(f.args[0]).0, fuel - 1);
        }
      } else if f.typ == "all" {
        assert RefsNamed(f.args, names);
        forall i | 0 <= i < |f.args|
          ensures Passes(w, s, c, SecRef(f.args[i]).0, fuel - 1) == Passes(w, t, d, SecRef(f.args[i]).0, fuel - 1)
        {
          PassesAlike(w, s, t, names, c, d, SecRef(f.args[i]).0, fuel - 1);
        }
      } else {
        assert Mentions(s, names, f.typ);
        PlainAlike(w, s, t, names, c, d, f.typ, f.args);
      }
    }
  }

  lemma {:induction false} RowAlike<R>(w: World<R>, s: Site, t: Site, names: iset<string>, c: Context<R>, d: Context<R>, cond: seq<Seen>, fuel: nat)
    requires Alike(s, t, names) && Same(s, names, c, d) && Names(cond, names)
    requires cond != [] ==> Mentions(s, names, cond[0].raw)
    ensures RowFires(w, s, c, cond, fuel) == RowFires(w, t, d, cond, fuel)
    decreases fuel, 1
  {
    hide Passes, Alike, Same, Mentions, Plain;
    if cond != [] && cond[0].kind == MatcherRef {
      forall i | 0 <= i < |cond| && cond[i].kind == MatcherRef
        ensures Passes(w, s, c, TrimAt(cond[i].raw), fuel) == Passes(w, t, d, TrimAt(cond[i].raw), fuel)
      {
        PassesAlike(w, s, t, names, c, d, TrimAt(cond[i].raw), fuel);
      }
    } else if cond != [] {
      PlainAlike(w, s, t, names, c, d, cond[0].raw, RawsOf(cond[1..]));
    }
  }

  /** Every inline matcher of these rows counts as mentioned. */
  ghost predicate RowsMentioned(s: Site, names: iset<string>, rows: seq<Dir>) {
    AllNamed(rows, names) && forall i :: 0 <= i < |rows| && rows[i].args != [] ==> Mentions(s, names, rows[i].args[0].raw)
  }

  lemma {:induction false} FirstRowAlike<R>(w: World<R>, s: Site, t: Site, names: iset<string>, c: Context<R>, d: Context<R>, rows: seq<Dir>, fuel: nat)
    requires Alike(s, t, names) && Same(s, names, c, d) && RowsMentioned(s, names, rows)
    ensures FirstRow(w, s, c, rows, fuel) == FirstRow(w, t, d, rows, fuel)
    decreases fuel, 2, |rows|
  {
    hide RowFires, Alike, Same, Arrow, Mentions;
    if rows != [] {
      var cond := rows[0].args[..Arrow(rows[0].args)];
      assert Names(rows[0].args, names);
      RowAlike(w, s, t, names, c, d, cond, fuel);
      FirstRowAlike(w, s, t, names, c, d, rows[1..], fuel);
    }
  }

  lemma {:induction false} RowsFrom(vocab: seq<Dir>, token: string)
    ensures RowsOf(vocab, token) == [] || exists i :: 0 <= i < |vocab| && RowsOf(vocab, token) == vocab[i].block
  {
    if vocab != [] {
      RowsFrom(vocab[1..], token);
      if RowsOf(vocab[1..], token) != [] {
        var i :| 0 <= i < |vocab[1..]| && RowsOf(vocab[1..], token) == vocab[1..][i].block;
        assert vocab[i + 1] == vocab[1..][i];
      }
    }
  }

  lemma RowsCounted(s: Site, names: iset<string>, token: string)
    requires Covers(s, names)
    ensures RowsMentioned(s, names, RowsOf(s.vocab, token))
  {
    hide Names, RefsNamed;
    RowsFrom(s.vocab, token);
    var rows := RowsOf(s.vocab, token);
    if rows != [] {
      var i :| 0 <= i < |s.vocab| && rows == s.vocab[i].block;
      forall j | 0 <= j < |rows| && rows[j].args != []
        ensures Mentions(s, names, rows[j].args[0].raw)
      {
        assert Inline(s.vocab[i].block, rows[j].args[0].raw);
      }
    }
  }

  lemma {:induction false} ClassifiedAlike<R>(w: World<R>, s: Site, t: Site, names: iset<string>, c: Context<R>, d: Context<R>, token: string, fuel: nat)
    requires Alike(s, t, names) && Same(s, names, c, d)
    ensures Classified(w, s, c, token, fuel) == Classified(w, t, d, token, fuel)
    decreases fuel, 3
  {
    hide FirstRow, RowsOf, Default, Same, Covers, SameDefs, Mentions, RowsMentioned;
    RowsCounted(s, names, token);
    FirstRowAlike(w, s, t, names, c, d, RowsOf(s.vocab, token), fuel);
  }

  // ----- Routing and preparing -----

  lemma {:induction false} RoutedAlike<R>(w: World<R>, s: Site, t: Site, names: iset<string>, c: Context<R>, d: Context<R>, routes: seq<Dir>, fuel: nat)
    requires Alike(s, t, names) && Same(s, names, c, d) && RowsMentioned(s, names, routes)
    ensures Routed(w, s, c, routes, fuel) == Routed(w, t, d, routes, fuel)
  {
    hide Passes, Alike, Same, Arrow, Mentions, Plain;
    if routes != [] {
      var cond := routes[0].args[..Arrow(routes[0].args)];
      assert Names(routes[0].args, names);
      forall i | 0 <= i < |cond| && cond[i].kind == MatcherRef
        ensures Passes(w, s, c, TrimAt(cond[i].raw), fuel) == Passes(w, t, d, TrimAt(cond[i].raw), fuel)
      {
        PassesAlike(w, s, t, names, c, d, TrimAt(cond[i].raw), fuel);
      }
      if cond != [] {
        PlainAlike(w, s, t, names, c, d, cond[0].raw, RawsOf(cond[1..]));
      }
      RoutedAlike(w, s, t, names, c, d, routes[1..], fuel);
    }
  }

  lemma {:induction false} KeptAlike<R>(w: World<R>, s: Site, t: Site, cookies: seq<(string, string)>)
    requires s.allow.Some? && s.allow == t.allow && s.vocab == t.vocab
    ensures Kept(w, s, cookies) == Kept(w, t, cookies)
  {
    hide Survives;
    if cookies != [] {
      KeptAlike(w, s, t, cookies[1..]);
    }
  }

  lemma UnroutedAlike<R>(w: World<R>, s: Site, t: Site, names: iset<string>, q: Request<R>)
    requires Alike(s, t, names)
    ensures Same(s, names, Unrouted(w, s, q), Unrouted(w, t, q))
  {
    hide Kept, Trusts, ClientOf, Covers, SameDefs, Mentions, GeoProxies, GeoDirs;
    if s.allow.Some? {
      KeptAlike(w, s, t, q.cookies);
    }
  }

  lemma ContextAlike<R>(w: World<R>, s: Site, t: Site, names: iset<string>, q: Request<R>, fuel: nat)
    requires Alike(s, t, names)
    ensures Same(s, names, ContextOf(w, s, q, fuel), ContextOf(w, t, q, fuel))
  {
    hide Routed, Unrouted, Covers, SameDefs, AllNamed, Names;
    UnroutedAlike(w, s, t, names, q);
    if Mentions(s, names, "upstream") {
      forall i | 0 <= i < |s.routes| && s.routes[i].args != []
        ensures Mentions(s, names, s.routes[i].args[0].raw)
      {
        assert Inline(s.routes, s.routes[i].args[0].raw);
      }
      RoutedAlike(w, s, t, names, Unrouted(w, s, q), Unrouted(w, t, q), s.routes, fuel);
    }
  }

  // ----- The key -----

  lemma PieceAlike<R>(w: World<R>, s: Site, t: Site, names: iset<string>, c: Context<R>, d: Context<R>, raw: string, params: seq<string>, fuel: nat)
    requires Alike(s, t, names) && Same(s, names, c, d) && (raw == "{sticky}" ==> s.sticky == t.sticky)
    ensures Piece(w, s, c, raw, params, fuel) == Piece(w, t, d, raw, params, fuel)
  {
    hide Classified, IsPlaceholder, Covers, SameDefs, Mentions, Cookie, Unseparated;
    ClassifiedAlike(w, s, t, names, c, d, raw, fuel);
  }

  lemma {:induction false} JoinAlike<R>(w: World<R>, s: Site, t: Site, names: iset<string>, c: Context<R>, d: Context<R>, args: seq<Seen>, fuel: nat)
    requires Alike(s, t, names) && Same(s, names, c, d) && (UsesSticky(args) ==> s.sticky == t.sticky)
    ensures Join(w, s, c, args, fuel) == Join(w, t, d, args, fuel)
    decreases |args|
  {
    hide Piece, Params, Alike, Same;
    if args != [] {
      var raw := args[0].raw;
      var n := if raw in {"query_allow", "query_strip"} then Params(args[1..]) else 0;
      PieceAlike(w, s, t, names, c, d, raw, RawsOf(args[1..1 + n]), fuel);
      if UsesSticky(args[1 + n..]) {
        StickyRest(args, 1 + n);
      }
      JoinAlike(w, s, t, names, c, d, args[1 + n..], fuel);
    }
  }

  lemma StickyRest(args: seq<Seen>, n: nat)
    requires n <= |args| && UsesSticky(args[n..])
    ensures UsesSticky(args)
  {
    var i :| 0 <= i < |args[n..]| && args[n..][i].raw == "{sticky}";
    assert args[n + i].raw == "{sticky}";
  }

  lemma {:induction false} SelectedAlike<R>(w: World<R>, s: Site, t: Site, names: iset<string>, c: Context<R>, d: Context<R>, dirs: seq<Dir>, fuel: nat)
    requires Alike(s, t, names) && Same(s, names, c, d) && AllNamed(dirs, names)
    ensures Selected(w, s, c, dirs, fuel) == Selected(w, t, d, dirs, fuel)
  {
    hide Passes, Alike, Same, Recipe;
    if dirs != [] {
      var args := dirs[0].args;
      assert Names(args, names);
      forall i | 0 <= i < Refs(args)
        ensures Passes(w, s, c, TrimAt(args[i].raw), fuel) == Passes(w, t, d, TrimAt(args[i].raw), fuel)
      {
        PassesAlike(w, s, t, names, c, d, TrimAt(args[i].raw), fuel);
      }
      SelectedAlike(w, s, t, names, c, d, dirs[1..], fuel);
    }
  }

  /** A selected recipe is the end of some recipe of the vocabulary. */
  lemma {:induction false} SelectedSticky<R>(w: World<R>, s: Site, c: Context<R>, dirs: seq<Dir>, fuel: nat)
    requires UsesSticky(Selected(w, s, c, dirs, fuel))
    ensures KeysSticky(dirs)
  {
    hide Selects;
    if dirs != [] {
      var args := dirs[0].args;
      if dirs[0].name == "cache_key" && Selects(w, s, c, args, fuel) {
        StickyRest(args, if args != [] && args[0].raw == "default" then 1 else Refs(args));
      } else {
        SelectedSticky(w, s, c, dirs[1..], fuel);
        var i :| 0 <= i < |dirs[1..]| && dirs[1..][i].name == "cache_key" && UsesSticky(dirs[1..][i].args);
        assert dirs[i + 1] == dirs[1..][i];
      }
    }
  }

  /** Such sites compute the same key for every request. */
  lemma KeysAlike<R>(w: World<R>, s: Site, t: Site, names: iset<string>, q: Request<R>, fuel: nat)
    requires Alike(s, t, names)
    ensures Key(w, s, q, fuel) == Key(w, t, q, fuel)
  {
    hide Selected, Join, ContextOf, Same, SameDefs, Mentions, KeysSticky;
    ContextAlike(w, s, t, names, q, fuel);
    var c, d := ContextOf(w, s, q, fuel), ContextOf(w, t, q, fuel);
    SelectedAlike(w, s, t, names, c, d, s.vocab, fuel);
    var recipe := Selected(w, s, c, s.vocab, fuel);
    if UsesSticky(recipe) {
      SelectedSticky(w, s, c, s.vocab, fuel);
    }
    JoinAlike(w, s, t, names, c, d, if recipe == [] then METHOD_HOST_PATH else recipe, fuel);
  }

  // ----- From the fingerprint -----

  function Forget(d: Dir): Shape
    decreases d
  {
    Shape(d.name, RawsOf(d.args), d.hasBlock, ForgetAll(d.block))
  }

  function ForgetAll(ds: seq<Dir>): seq<Shape>
    decreases ds
  {
    if ds == [] then [] else [Forget(ds[0])] + ForgetAll(ds[1..])
  }

  /** No argument is read differently for being quoted. */
  predicate Bare(d: Dir)
    decreases d
  {
    (forall i :: 0 <= i < |d.args| ==> d.args[i].kind == ClassifyArg(d.args[i].raw, false)) && AllBare(d.block)
  }

  predicate AllBare(ds: seq<Dir>)
    decreases ds
  {
    ds != [] ==> Bare(ds[0]) && AllBare(ds[1..])
  }

  lemma {:induction false} ForgetDirs(ns: seq<Node>)
    ensures ForgetAll(DirsOf(ns)) == ShapesOf(ns)
    decreases ns
  {
    if ns != [] {
      ForgetDirs(ns[1..]);
      if ns[0].Directive? {
        ForgetDir(ns[0]);
        var more := DirsOf(ns[1..]);
        assert ([DirOf(ns[0])] + more)[1..] == more;
      } else {
        assert [] + DirsOf(ns[1..]) == DirsOf(ns[1..]);
        assert [] + ShapesOf(ns[1..]) == ShapesOf(ns[1..]);
      }
    }
  }

  lemma {:induction false} ForgetDir(n: Node)
    requires n.Directive?
    ensures Forget(DirOf(n)) == ShapeOf(n)
    decreases n
  {
    ForgetDirs(n.block);
    assert RawsOf(SeenArgs(n.args)) == Raws(n.args);
  }

  lemma {:induction false} BareIsShape(a: Dir, b: Dir)
    requires Bare(a) && Bare(b) && Forget(a) == Forget(b)
    ensures a == b
    decreases a
  {
    hide ClassifyArg;
    AllBareIsShape(a.block, b.block);
    forall i | 0 <= i < |a.args|
      ensures |RawsOf(b.args)| == |a.args| && a.args[i] == b.args[i]
    {
      assert RawsOf(a.args)[i] == RawsOf(b.args)[i];
    }
    assert a.args == b.args;
  }

  lemma {:induction false} AllBareIsShape(a: seq<Dir>, b: seq<Dir>)
    requires AllBare(a) && AllBare(b) && ForgetAll(a) == ForgetAll(b)
    ensures a == b
    decreases a
  {
    hide Forget, Bare;
    if a != [] && b != [] {
      assert ForgetAll(a)[0] == ForgetAll(b)[0] && ForgetAll(a)[1..] == ForgetAll(b)[1..];
      BareIsShape(a[0], b[0]);
      AllBareIsShape(a[1..], b[1..]);
      assert a == [a[0]] + a[1..] && b == [b[0]] + b[1..];
    }
  }

  lemma {:induction false} PicksVocabulary(body: seq<Node>)
    ensures Picks(body, VOCABULARY) == DirsOf(Vocabulary(body))
  {
    hide DirsOf, DirOf;
    if body == [] {
      NoDirs();
    } else {
      var n := body[|body| - 1];
      var rest := Vocabulary(body[..|body| - 1]);
      PicksVocabulary(body[..|body| - 1]);
      if InVocabulary(n) {
        DirsLast(rest, n);
      } else {
        assert rest + [] == rest && DirsOf(rest) + [] == DirsOf(rest);
      }
    }
  }

  lemma NoDirs()
    ensures DirsOf([]) == []
  {
  }

  lemma {:induction false} DirsLast(ns: seq<Node>, n: Node)
    requires n.Directive?
    ensures DirsOf(ns + [n]) == DirsOf(ns) + [DirOf(n)]
  {
    hide DirOf;
    if ns == [] {
      assert ns + [n] == [n] && [n][1..] == [];
      assert DirsOf([n]) == [DirOf(n)] + [] == [] + [DirOf(n)];
    } else {
      assert (ns + [n])[1..] == ns[1..] + [n] && (ns + [n])[0] == ns[0];
      DirsLast(ns[1..], n);
      var head := if ns[0].Directive? then [DirOf(ns[0])] else [];
      assert head + (DirsOf(ns[1..]) + [DirOf(n)]) == head + DirsOf(ns[1..]) + [DirOf(n)];
    }
  }

  /** The sites but for the vocabulary. */
  ghost predicate AlikeOutside(s: Site, t: Site, names: iset<string>) {
    Alike(s, t.(vocab := s.vocab), names)
  }

  /** What the fingerprint promises, and when it holds: sites serialised alike compute the same key for
      every request, if quoting changes how no argument of theirs is read and they agree in what else their
      keys can read. */
  lemma SameFingerprintSameKeys<R>(w: World<R>, a: seq<Node>, b: seq<Node>, x: string, y: string, names: iset<string>, q: Request<R>, fuel: nat)
    requires CleanAll(ShapesOf(Vocabulary(a))) && CleanAll(ShapesOf(Vocabulary(b)))
    requires WriteAll(ShapesOf(Vocabulary(a))) == WriteAll(ShapesOf(Vocabulary(b)))
    requires AllBare(SiteOf(a, x).vocab) && AllBare(SiteOf(b, y).vocab)
    requires AlikeOutside(SiteOf(a, x), SiteOf(b, y), names)
    ensures Key(w, SiteOf(a, x), q, fuel) == Key(w, SiteOf(b, y), q, fuel)
  {
    hide CleanAll, ShapesOf, WriteAll, DirsOf, Picks, DefsOf, StickyOf, AllowOf, AllArgs, Clustered, AllBare, Alike, Key, Vocabulary;
    SitesAlikeIff(a, b);
    ForgetDirs(Vocabulary(a));
    ForgetDirs(Vocabulary(b));
    PicksVocabulary(a);
    PicksVocabulary(b);
    var s, t := SiteOf(a, x), SiteOf(b, y);
    AllBareIsShape(s.vocab, t.vocab);
    assert t.(vocab := s.vocab) == t;
    KeysAlike(w, s, t, names, q, fuel);
  }
}
