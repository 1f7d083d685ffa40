/** The emitted route exclusions, and why skipping the worker on them loses nothing
    (internal/edgeir/exclusions.go:394-450). */
module RouteExclusions {
  import opened Objects
  import opened Globs
  import opened EdgeRules
  import opened RouteMerge
  import opened Exclusions

  // A catch-all route: a host, a slash and a star.
  function CatchAllHost(route: string): (r: Option<string>)
    ensures r.Some? ==> IsHost(r.value) && route == r.value + "/*"
    ensures r.None? ==> !exists h :: IsHost(h) && route == h + "/*"
  {
    var n := |route|;
    if n >= 2 && route[n - 2..] == "/*" && IsHost(route[..n - 2]) then
      assert route == route[..n - 2] + route[n - 2..];
      Some(route[..n - 2])
    else
      assert forall h :: IsHost(h) && route == h + "/*" ==> route[n - 2..] == "/*" && route[..n - 2] == h;
      None
  }

  /** A candidate that no edge rule touches. */
  ghost predicate SafeGlob(ir: Rules, g: Glob) {
    && g in Candidates(ir.pass, ir.matchers)
    && !Joined(Feet(ir)).all && Apart(g, Joined(Feet(ir)).globs)
  }

  ghost predicate Apart(g: Glob, fs: seq<Glob>) {
    forall i :: 0 <= i < |fs| ==> !Overlap(g, fs[i])
  }

  ghost predicate BroadestSafe(ir: Rules, g: Glob) {
    SafeGlob(ir, g) && forall k :: SafeGlob(ir, k) && Covers(k, g) ==> k == g
  }

  /** The pattern is a broadest safe glob on a catch-all route's host. */
  ghost predicate Emits(ir: Rules, routes: seq<string>, p: string) {
    exists i, g :: 0 <= i < |routes| && EmitsAt(ir, routes[i], g, p)
  }

  ghost predicate EmitsAt(ir: Rules, route: string, g: Glob, p: string) {
    BroadestSafe(ir, g) && CatchAllHost(route).Some? && p == Text(Route(CatchAllHost(route).value, g))
  }

  method Touched(c: Glob, fs: seq<Glob>) returns (touched: bool)
    ensures touched == !Apart(c, fs)
  {
    for i := 0 to |fs|
      invariant forall j :: 0 <= j < i ==> !Overlap(c, fs[j])
    {
      if Overlap(c, fs[i]) {
        return true;
      }
    }
    return false;
  }

  method Untouched(cands: seq<Glob>, fs: seq<Glob>) returns (safe: seq<Glob>)
    ensures forall c :: c in safe <==> c in cands && Apart(c, fs)
  {
    hide Apart;
    safe := [];
    for i := 0 to |cands|
      invariant forall c :: c in safe <==> c in cands[..i] && Apart(c, fs)
    {
      assert cands[..i + 1] == cands[..i] + [cands[i]];
      var touched := Touched(cands[i], fs);
      if !touched {
        safe := safe + [cands[i]];
      }
    }
    assert cands[..|cands|] == cands;
  }

  /** Exactly the broadest safe globs, on every catch-all host. */
  method ComputeRouteExclusions(ir: Rules, routes: seq<string>) returns (out: seq<string>)
    ensures forall p :: p in out <==> Emits(ir, routes, p)
    ensures Ascending(out)
  {
    hide Candidates, Feet, Joined, Apart, CatchAllHost, EmitsAt;
    var cands := ExcludablePassPaths(ir);
    if cands == [] {
      NothingSafe(ir, routes);
      return [];
    }
    var f := TouchFootprints(ir);
    if f.all {
      NothingSafe(ir, routes);
      return [];
    }
    var safe := Untouched(cands, f.globs);
    ghost var found := safe;
    assert forall g :: g in safe <==> SafeGlob(ir, g);
    if safe == [] {
      NothingSafe(ir, routes);
      return [];
    }
    safe := Collapse(safe);
    Broadest(ir, found, safe);
    out := Cross(ir, routes, safe);
    SortAscending(out);
    out := SortTexts(out);
  }

  lemma NothingSafe(ir: Rules, routes: seq<string>)
    requires forall g :: !SafeGlob(ir, g)
    ensures forall p :: !Emits(ir, routes, p)
  {
  }

  lemma Broadest(ir: Rules, found: seq<Glob>, kept: seq<Glob>)
    requires forall g :: g in found <==> SafeGlob(ir, g)
    requires forall c :: c in kept <==> c in found && Maximal(c, found)
    ensures forall g :: g in kept <==> BroadestSafe(ir, g)
  {
    hide SafeGlob, Covers;
  }

  /** Every catch-all host with every glob. */
  method Cross(ghost ir: Rules, routes: seq<string>, safe: seq<Glob>) returns (out: seq<string>)
    requires forall g :: g in safe <==> BroadestSafe(ir, g)
    ensures forall p :: p in out <==> Emits(ir, routes, p)
    ensures NoRepeats(out)
  {
    hide BroadestSafe;
    var seen: set<string> := {};
    out := [];
    for i := 0 to |routes|
      invariant NoRepeats(out) && forall p :: p in seen <==> p in out
      invariant forall p :: p in out <==> Emits(ir, routes[..i], p)
    {
      EmitsStep(ir, routes, i);
      var host := CatchAllHost(routes[i]);
      if host.Some? {
        for j := 0 to |safe|
          invariant NoRepeats(out) && forall p :: p in seen <==> p in out
          invariant forall p :: p in out <==> Emits(ir, routes[..i], p) || CrossedWith(host.value, safe[..j], p)
        {
          var pat := host.value + safe[j].prefix;
          if safe[j].isPrefix {
            pat := pat + "*";
          }
          assert pat == Text(Route(host.value, safe[j]));
          assert safe[..j + 1] == safe[..j] + [safe[j]];
          CrossedStep(host.value, safe, j);
          if pat !in seen {
            seen := seen + {pat};
            out := out + [pat];
          }
        }
        assert safe[..|safe|] == safe;
        CrossedAll(ir, routes[i], safe);
      }
    }
    assert routes[..|routes|] == routes;
  }

  ghost predicate CrossedWith(host: string, gs: seq<Glob>, p: string) {
    exists g :: g in gs && p == Text(Route(host, g))
  }

  lemma CrossedStep(host: string, safe: seq<Glob>, j: nat)
    requires j < |safe|
    ensures forall p :: CrossedWith(host, safe[..j + 1], p) <==> CrossedWith(host, safe[..j], p) || p == Text(Route(host, safe[j]))
  {
    hide Text;
    var a, b := safe[..j], safe[..j + 1];
    assert b == a + [safe[j]];
    forall p
      ensures CrossedWith(host, b, p) <==> CrossedWith(host, a, p) || p == Text(Route(host, safe[j]))
    {
      if CrossedWith(host, a, p) {
        var g :| g in a && p == Text(Route(host, g));
        assert g in b;
      } else if p == Text(Route(host, safe[j])) {
        assert safe[j] in b;
      }
    }
  }

  lemma EmitsStep(ir: Rules, routes: seq<string>, i: nat)
    requires i < |routes|
    ensures forall p :: Emits(ir, routes[..i + 1], p) <==> Emits(ir, routes[..i], p) || exists g :: EmitsAt(ir, routes[i], g, p)
  {
    hide EmitsAt;
    var a, b := routes[..i], routes[..i + 1];
    assert b[i] == routes[i] && forall k :: 0 <= k < i ==> b[k] == a[k];
    forall p | Emits(ir, a, p)
      ensures Emits(ir, b, p)
    {
      var k, g :| 0 <= k < |a| && EmitsAt(ir, a[k], g, p);
      assert EmitsAt(ir, b[k], g, p);
    }
    forall p, g | EmitsAt(ir, routes[i], g, p)
      ensures Emits(ir, b, p)
    {
      assert EmitsAt(ir, b[i], g, p);
    }
    forall p | Emits(ir, b, p)
      ensures Emits(ir, a, p) || exists g :: EmitsAt(ir, routes[i], g, p)
    {
      var k, g :| 0 <= k < |b| && EmitsAt(ir, b[k], g, p);
      assert k < i ==> EmitsAt(ir, a[k], g, p);
    }
  }

  lemma CrossedAll(ir: Rules, route: string, safe: seq<Glob>)
    requires CatchAllHost(route).Some? && forall g :: g in safe <==> BroadestSafe(ir, g)
    ensures forall p :: CrossedWith(CatchAllHost(route).value, safe, p) <==> exists g :: EmitsAt(ir, route, g, p)
  {
    hide BroadestSafe, Text, CatchAllHost;
    var host := CatchAllHost(route).value;
    forall p | CrossedWith(host, safe, p)
      ensures exists g :: EmitsAt(ir, route, g, p)
    {
      var g :| g in safe && p == Text(Route(host, g));
      assert EmitsAt(ir, route, g, p);
    }
  }

  // ----- Soundness -----

  /** On a safe glob the worker would pass the request, whatever it is besides its path, and no rule would
      redirect, answer, store or key it. */
  lemma SafeIsHarmless(ir: Rules, g: Glob, r: Request)
    requires NarrowRules(ir) && SafeGlob(ir, g) && In(r.path, g)
    ensures Passes(ir, r) && !ShortCircuits(ir, r) && !Stores(ir, r)
  {
    hide Candidates, Feet, Joined, NarrowRules, ScopeMatches, ShortCircuits, Stores, InSome, Overlap, In, Writable;
    CandidatePasses(ir.pass, ir.matchers, g, r);
    CandidateWritable(ir.pass, ir.matchers);
    WritablePath(g, r.path);
    if ShortCircuits(ir, r) || Stores(ir, r) {
      TakenIsTouched(ir, r);
      ApartMeans(g, Joined(Feet(ir)).globs, r.path);
    }
  }

  lemma WritablePath(g: Glob, path: string)
    requires Writable(g) && In(path, g)
    ensures StartsWithSlash(path)
  {
  }

  lemma ApartMeans(g: Glob, fs: seq<Glob>, path: string)
    requires Apart(g, fs) && In(path, g)
    ensures !InSome(path, fs)
  {
    hide Overlap, In;
    if InSome(path, fs) {
      var f :| f in fs && In(path, f);
      var i :| 0 <= i < |fs| && fs[i] == f;
      OverlapIff(g, fs[i]);
    }
  }

  /** Every request matched by an emitted pattern: on a catch-all host, and harmless to let go by. */
  lemma ExclusionSound(ir: Rules, routes: seq<string>, p: string, host: string, r: Request)
    requires NarrowRules(ir) && Emits(ir, routes, p) && TextServes(p, host, r.path)
    ensures exists i :: 0 <= i < |routes| && routes[i] == host + "/*"
    ensures Passes(ir, r) && !ShortCircuits(ir, r) && !Stores(ir, r)
  {
    hide SafeGlob, NarrowRules, ScopeMatches, ShortCircuits, Stores, SplitRoute, In, Passes;
    var i, g :| 0 <= i < |routes| && EmitsAt(ir, routes[i], g, p);
    EmittedWritable(ir, g);
    SplitRoundTrip(CatchAllHost(routes[i]).value, g);
    SafeIsHarmless(ir, g, r);
  }

  lemma EmittedWritable(ir: Rules, g: Glob)
    requires SafeGlob(ir, g)
    ensures Writable(g)
  {
    hide Candidates, Feet, Joined, Writable, Apart;
    CandidateWritable(ir.pass, ir.matchers);
  }

  // ----- Completeness -----

  lemma {:induction false} BroadestOver(ir: Rules, c: Glob) returns (k: Glob)
    requires SafeGlob(ir, c)
    ensures BroadestSafe(ir, k) && Covers(k, c)
    decreases |c.prefix|, !c.isPrefix
  {
    hide SafeGlob;
    if b :| SafeGlob(ir, b) && Covers(b, c) && b != c {
      k := BroadestOver(ir, b);
      CoversTransitive(k, b, c);
    } else {
      k := c;
    }
  }

  /** Every candidate that nothing touches is covered on every catch-all host. */
  lemma ExclusionComplete(ir: Rules, routes: seq<string>, i: nat, c: Glob) returns (p: string, k: Glob)
    requires i < |routes| && CatchAllHost(routes[i]).Some? && SafeGlob(ir, c)
    ensures Emits(ir, routes, p) && p == CatchAllHost(routes[i]).value + GlobString(k) && Covers(k, c)
  {
    hide SafeGlob;
    k := BroadestOver(ir, c);
    p := Text(Route(CatchAllHost(routes[i]).value, k));
    assert EmitsAt(ir, routes[i], k, p);
  }

  // ----- Regexes with flags -----

  /** The rule that carries a flagged regex. */
  datatype Via = ByRedirect | ByTtl | ByStorage | ByRecipe

  function OneMatcher(m: Matcher): Scope {
    Scope(false, [], [m])
  }

  /** A pass rule for one path, and a rule with a flagged regex: a redirect, a scoped cache_ttl, storage or
      cache_key. */
  function Leaky(q: string, src: string, flags: set<char>, via: Via): Rules {
    var flagged := OneMatcher(PathRegex(src, flags, false));
    var pass := [OneMatcher(Path([q]))];
    match via
    case ByRedirect => Rules(map[], pass, [Redirect(src, flags, None)], [], [], [], [])
    case ByTtl => Rules(map[], pass, [], [], [Rule(true, Some(flagged))], [], [])
    case ByStorage => Rules(map[], pass, [], [], [], [Rule(true, Some(flagged))], [])
    case ByRecipe => Rules(map[], pass, [], [], [], [], [flagged])
  }

  lemma OneMatcherGlobs(m: Matcher)
    ensures ScopeMatchers(OneMatcher(m), map[]) == [m]
    ensures ScopeGlobs(OneMatcher(m), map[]) == MatcherGlobs(m)
  {
    hide MatcherGlobs;
    assert ScopeMatchers(OneMatcher(m), map[]) == [] + [m];
    assert [m][..0] == [] && MatchersGlobs([m][..0]) == Some([]);
    if MatcherGlobs(m).Some? {
      assert [] + MatcherGlobs(m).value == MatcherGlobs(m).value;
      assert MatchersGlobs([m]) == Some([] + MatcherGlobs(m).value);
    }
  }

  lemma LeakyCandidates(q: string, src: string, flags: set<char>, via: Via)
    requires StartsWithSlash(q) && '*' !in q
    ensures Candidates(Leaky(q, src, flags, via).pass, map[]) == [Glob(q, false)]
  {
    var m, one := Path([q]), [Glob(q, false)];
    assert [] + one == one;
    assert [q][..0] == [] && PatternGlobs([q]) == Some([] + one);
    OneMatcherGlobs(m);
    var pass := [OneMatcher(m)];
    assert pass[..0] == [];
    assert Candidates(pass, map[]) == [] + one;
  }

  lemma LeakyFoot(q: string, src: string, flags: set<char>, via: Via)
    requires RegexGlob(src).Some?
    ensures Joined(Feet(Leaky(q, src, flags, via))) == Foot(false, [RegexGlob(src).value])
  {
    hide RegexGlob;
    var ir, g := Leaky(q, src, flags, via), RegexGlob(src).value;
    FeetParts(ir);
    OneMatcherGlobs(PathRegex(src, flags, false));
    var f := Feet(ir);
    assert |f| == 1;
    assert [g] + [] == [g] && [] + [g] == [g];
    NotEmpty(src);
    assert f[0] == Foot(false, [g]);
    assert f[..0] == [] && Joined(f) == Join(Foot(false, []), f[0]);
  }

  lemma NotEmpty(src: string)
    requires RegexGlob(src).Some?
    ensures src != ""
  {
  }

  /** For every literal regex whose flags widen it, and every kind of rule that can carry it, there are rules
      under which an excluded path is redirected, stored or keyed. */
  lemma FlagsLeak(src: string, flags: set<char>, host: string, via: Via) returns (q: string)
    requires RegexGlob(src).Some? && !Contained(RegexGlob(src).value, flags) && IsHost(host)
    ensures Emits(Leaky(q, src, flags, via), [host + "/*"], host + q)
    ensures forall r: Request :: r.path == q ==>
              if via == ByRedirect then ShortCircuits(Leaky(q, src, flags, via), r) else Stores(Leaky(q, src, flags, via), r)
  {
    hide Candidates, Feet, Joined, LiteralMatches, Contained, CatchAllHost, ShortCircuits, Stores, RegexGlob;
    var g := RegexGlob(src).value;
    q := Widened(g, flags);
    var ir, c := Leaky(q, src, flags, via), Glob(q, false);
    LeakyCandidates(q, src, flags, via);
    LeakyFoot(q, src, flags, via);
    assert !Overlap(c, g);
    assert SafeGlob(ir, c);
    HostRoute(host);
    assert EmitsAt(ir, [host + "/*"][0], c, host + q);
    forall r: Request | r.path == q
      ensures if via == ByRedirect then ShortCircuits(ir, r) else Stores(ir, r)
    {
      LeakyTakes(q, src, flags, via, r);
    }
  }

  lemma LeakyTakes(q: string, src: string, flags: set<char>, via: Via, r: Request)
    requires RegexMatches(src, flags, r)
    ensures if via == ByRedirect then ShortCircuits(Leaky(q, src, flags, via), r) else Stores(Leaky(q, src, flags, via), r)
  {
    hide RegexMatches;
    var ir, m := Leaky(q, src, flags, via), PathRegex(src, flags, false);
    OneMatcherGlobs(m);
    assert Matches(ScopeMatchers(OneMatcher(m), map[])[0], r);
    match via
    case ByRedirect => assert RedirectMatches(ir.redirects[0], map[], r);
    case ByTtl => assert RuleMatches(ir.ttl[0], map[], r);
    case ByStorage => assert RuleMatches(ir.storage[0], map[], r);
    case ByRecipe => assert ScopeMatches(ir.recipes[0], map[], r);
  }

  lemma HostRoute(host: string)
    requires IsHost(host)
    ensures CatchAllHost(host + "/*") == Some(host)
  {
    var route := host + "/*";
    assert route[|route| - 2..] == "/*" && route[..|route| - 2] == host;
  }
}
