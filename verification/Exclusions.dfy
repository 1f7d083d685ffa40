/** Which paths may skip the edge worker (computeRouteExclusions, internal/edgeir/exclusions.go:394-711). */
module Exclusions {
  import opened Objects
  import opened Globs
  import opened EdgeRules
  import opened RouteMerge

  // ----- Reducing scopes to globs -----

  function PatternGlobs(ps: seq<string>): Option<seq<Glob>> {
    if ps == [] then Some([])
    else
      var n := |ps| - 1;
      match (PatternGlobs(ps[..n]), LiteralPathGlob(ps[n]))
      case (Some(gs), Some(g)) => Some(gs + [g])
      case _ => None
  }

  /** The globs of a path matcher, if it is one and all of it reduces. */
  function MatcherGlobs(m: Matcher): Option<seq<Glob>> {
    match m
    case Path(ps) => if ps == [] then None else PatternGlobs(ps)
    case PathRegex(src, _, untranslatable) =>
      if untranslatable then None
      else (match RegexGlob(src) case Some(g) => Some([g]) case None => None)
    case Other(_) => None
  }

  function MatchersGlobs(ms: seq<Matcher>): Option<seq<Glob>> {
    if ms == [] then Some([])
    else
      var n := |ms| - 1;
      match (MatchersGlobs(ms[..n]), MatcherGlobs(ms[n]))
      case (Some(gs), Some(more)) => Some(gs + more)
      case _ => None
  }

  /** The globs of a scope made of path matchers only. */
  function ScopeGlobs(sc: Scope, ms: map<string, Matcher>): Option<seq<Glob>> {
    if sc.always || ScopeMatchers(sc, ms) == [] then None else MatchersGlobs(ScopeMatchers(sc, ms))
  }

  method MatcherPathGlobs(m: Matcher) returns (r: Option<seq<Glob>>)
    ensures r == MatcherGlobs(m)
  {
    match m
    case Path(ps) =>
      if ps == [] {
        return None;
      }
      var out := [];
      for i := 0 to |ps|
        invariant PatternGlobs(ps[..i]) == Some(out)
      {
        assert ps[..i + 1][..i] == ps[..i];
        var g := LiteralPathGlob(ps[i]);
        if g.None? {
          PatternFails(ps, i + 1);
          return None;
        }
        out := out + [g.value];
      }
      assert ps[..|ps|] == ps;
      return Some(out);
    case PathRegex(src, _, untranslatable) =>
      if untranslatable {
        return None;
      }
      var g := RegexGlob(src);
      return if g.Some? then Some([g.value]) else None;
    case Other(_) =>
      return None;
  }

  lemma {:induction false} PatternFails(ps: seq<string>, n: nat)
    requires n <= |ps| && PatternGlobs(ps[..n]) == None
    ensures PatternGlobs(ps) == None
    decreases |ps| - n
  {
    if n == |ps| {
      assert ps[..n] == ps;
    } else {
      assert ps[..n + 1][..n] == ps[..n];
      PatternFails(ps, n + 1);
    }
  }

  lemma {:induction false} MatchersFail(ms: seq<Matcher>, n: nat)
    requires n <= |ms| && MatchersGlobs(ms[..n]) == None
    ensures MatchersGlobs(ms) == None
    decreases |ms| - n
  {
    if n == |ms| {
      assert ms[..n] == ms;
    } else {
      assert ms[..n + 1][..n] == ms[..n];
      MatchersFail(ms, n + 1);
    }
  }

  lemma NoGlobs()
    ensures MatchersGlobs([]) == Some([])
  {
  }

  lemma MatchersGlobsStep(ms: seq<Matcher>, i: nat)
    requires i < |ms| && MatchersGlobs(ms[..i]).Some?
    ensures MatchersGlobs(ms[..i + 1]) ==
            if MatcherGlobs(ms[i]).Some? then Some(MatchersGlobs(ms[..i]).value + MatcherGlobs(ms[i]).value) else None
  {
    hide MatcherGlobs;
    assert ms[..i + 1][..i] == ms[..i];
  }

  method ScopePathGlobs(sc: Scope, matchers: map<string, Matcher>) returns (r: Option<seq<Glob>>)
    ensures r == ScopeGlobs(sc, matchers)
  {
    hide MatcherGlobs, MatchersGlobs, ScopeMatchers;
    if sc.always {
      return None;
    }
    var ms := ScopeMatchers(sc, matchers);
    if ms == [] {
      return None;
    }
    var out := [];
    NoGlobs();
    for i := 0 to |ms|
      invariant MatchersGlobs(ms[..i]) == Some(out)
    {
      MatchersGlobsStep(ms, i);
      var gs := MatcherPathGlobs(ms[i]);
      if gs.None? {
        MatchersFail(ms, i + 1);
        return None;
      }
      out := out + gs.value;
    }
    assert ms[..|ms|] == ms;
    r := Some(out);
  }

  // ----- What the globs of a scope mean -----

  /** The flags of a matcher's regex do not widen it. */
  predicate NarrowMatcher(m: Matcher) {
    m.PathRegex? && !m.untranslatable && RegexGlob(m.regex).Some? ==> Contained(RegexGlob(m.regex).value, m.flags)
  }

  predicate NarrowScope(sc: Scope, ms: map<string, Matcher>) {
    forall i :: 0 <= i < |ScopeMatchers(sc, ms)| ==> NarrowMatcher(ScopeMatchers(sc, ms)[i])
  }

  lemma InSomeMore(path: string, a: seq<Glob>, b: seq<Glob>)
    ensures InSome(path, a + b) <==> InSome(path, a) || InSome(path, b)
  {
    hide In;
    if InSome(path, a) {
      var g :| g in a && In(path, g);
      assert g in a + b;
    }
    if InSome(path, b) {
      var g :| g in b && In(path, g);
      assert g in a + b;
    }
  }

  lemma InSomeOne(path: string, g: Glob)
    ensures InSome(path, [g]) <==> In(path, g)
  {
    hide In;
    assert g in [g];
  }

  lemma LiteralPattern(p: string, r: Request)
    requires LiteralPathGlob(p).Some?
    ensures PatternMatches(p, r) <==> In(r.path, LiteralPathGlob(p).value)
  {
  }

  ghost predicate SomePattern(ps: seq<string>, r: Request) {
    exists i :: 0 <= i < |ps| && PatternMatches(ps[i], r)
  }

  lemma SomePatternMore(ps: seq<string>, r: Request)
    requires ps != []
    ensures SomePattern(ps, r) <==> SomePattern(ps[..|ps| - 1], r) || PatternMatches(ps[|ps| - 1], r)
  {
    hide PatternMatches;
    var n := |ps| - 1;
    assert forall i :: 0 <= i < n ==> ps[..n][i] == ps[i];
  }

  lemma {:induction false} PatternsMean(ps: seq<string>, r: Request)
    requires PatternGlobs(ps).Some?
    ensures SomePattern(ps, r) <==> InSome(r.path, PatternGlobs(ps).value)
  {
    hide PatternMatches, LiteralPathGlob, InSome, SomePattern;
    if ps == [] {
      NothingIn(r.path);
      NoPattern(r);
    } else {
      var n := |ps| - 1;
      var g := LiteralPathGlob(ps[n]).value;
      PatternsMean(ps[..n], r);
      SomePatternMore(ps, r);
      LiteralPattern(ps[n], r);
      InSomeMore(r.path, PatternGlobs(ps[..n]).value, [g]);
      InSomeOne(r.path, g);
    }
  }

  lemma NothingIn(path: string)
    ensures !InSome(path, [])
  {
  }

  lemma NoPattern(r: Request)
    ensures !SomePattern([], r)
  {
  }

  /** A path in the globs is matched; a path the matcher takes is in the globs, if its flags are narrow. */
  lemma MatcherMeans(m: Matcher, r: Request)
    requires MatcherGlobs(m).Some?
    ensures InSome(r.path, MatcherGlobs(m).value) ==> Matches(m, r)
    ensures Matches(m, r) && NarrowMatcher(m) && StartsWithSlash(r.path) ==> InSome(r.path, MatcherGlobs(m).value)
  {
    hide PatternMatches, InSome, LiteralMatches, Contained;
    match m
    case Path(ps) =>
      PatternsMean(ps, r);
    case PathRegex(src, flags, _) =>
      var g := RegexGlob(src).value;
      InSomeOne(r.path, g);
      if In(r.path, g) {
        GlobMatches(g, flags, r.path);
      } else if LiteralMatches(g, flags, r.path) && Contained(g, flags) && StartsWithSlash(r.path) {
        ContainedMatches(g, flags, r.path);
      }
    case Other(_) =>
  }

  ghost predicate SomeMatcher(ms: seq<Matcher>, r: Request) {
    exists i :: 0 <= i < |ms| && Matches(ms[i], r)
  }

  predicate AllNarrow(ms: seq<Matcher>) {
    forall i :: 0 <= i < |ms| ==> NarrowMatcher(ms[i])
  }

  lemma SomeMatcherMore(ms: seq<Matcher>, r: Request)
    requires ms != []
    ensures SomeMatcher(ms, r) <==> SomeMatcher(ms[..|ms| - 1], r) || Matches(ms[|ms| - 1], r)
  {
    hide Matches;
    var n := |ms| - 1;
    assert forall i :: 0 <= i < n ==> ms[..n][i] == ms[i];
  }

  lemma NoMatcher(r: Request)
    ensures !SomeMatcher([], r)
  {
  }

  lemma AllNarrowMore(ms: seq<Matcher>)
    requires ms != [] && AllNarrow(ms)
    ensures AllNarrow(ms[..|ms| - 1]) && NarrowMatcher(ms[|ms| - 1])
  {
    hide NarrowMatcher;
  }

  lemma {:induction false} MatchersMean(ms: seq<Matcher>, r: Request)
    requires MatchersGlobs(ms).Some?
    ensures InSome(r.path, MatchersGlobs(ms).value) ==> SomeMatcher(ms, r)
    ensures SomeMatcher(ms, r) && AllNarrow(ms) && StartsWithSlash(r.path) ==> InSome(r.path, MatchersGlobs(ms).value)
  {
    hide Matches, MatcherGlobs, InSome, SomeMatcher, AllNarrow;
    if ms == [] {
      NothingIn(r.path);
      NoMatcher(r);
    } else {
      var n := |ms| - 1;
      MatchersMean(ms[..n], r);
      MatcherMeans(ms[n], r);
      SomeMatcherMore(ms, r);
      InSomeMore(r.path, MatchersGlobs(ms[..n]).value, MatcherGlobs(ms[n]).value);
      if AllNarrow(ms) {
        AllNarrowMore(ms);
      }
    }
  }

  lemma ScopeMeans(sc: Scope, ms: map<string, Matcher>, r: Request)
    requires ScopeGlobs(sc, ms).Some?
    ensures InSome(r.path, ScopeGlobs(sc, ms).value) ==> ScopeMatches(sc, ms, r)
    ensures ScopeMatches(sc, ms, r) && NarrowScope(sc, ms) && StartsWithSlash(r.path) ==>
              InSome(r.path, ScopeGlobs(sc, ms).value)
  {
    hide Matches, MatchersGlobs, InSome, ScopeMatchers, NarrowMatcher;
    MatchersMean(ScopeMatchers(sc, ms), r);
  }

  // ----- The paths a rule can touch -----

  /** Any path, or the paths of some globs. */
  datatype Foot = Foot(all: bool, globs: seq<Glob>)

  function ScopeFoot(sc: Scope, ms: map<string, Matcher>): Foot {
    match ScopeGlobs(sc, ms)
    case Some(gs) => Foot(false, gs)
    case None => Foot(true, [])
  }

  function Join(a: Foot, b: Foot): Foot {
    Foot(a.all || b.all, a.globs + b.globs)
  }

  function RegexFoot(src: string): Foot {
    match RegexGlob(src)
    case Some(g) => Foot(false, [g])
    case None => Foot(true, [])
  }

  /** Regex and scope both count; with neither, a redirect takes everything. */
  function RedirectFoot(x: Redirect, ms: map<string, Matcher>): Foot {
    if x.regex == "" && x.scope.None? then Foot(true, [])
    else Join(if x.regex == "" then Foot(false, []) else RegexFoot(x.regex),
              if x.scope.None? then Foot(false, []) else ScopeFoot(x.scope.value, ms))
  }

  function RespondFoot(path: string): Foot {
    if path == "" then Foot(true, []) else Foot(false, [Glob(path, false)])
  }

  function RuleFoot(x: Rule, ms: map<string, Matcher>): Foot {
    if x.byScope && x.scope.Some? then ScopeFoot(x.scope.value, ms) else Foot(false, [])
  }

  function RecipeFoot(sc: Scope, ms: map<string, Matcher>): Foot {
    if sc.always then Foot(false, []) else ScopeFoot(sc, ms)
  }

  function Feet(ir: Rules): seq<Foot> {
    seq(|ir.redirects|, i requires 0 <= i < |ir.redirects| => RedirectFoot(ir.redirects[i], ir.matchers))
    + seq(|ir.responds|, i requires 0 <= i < |ir.responds| => RespondFoot(ir.responds[i]))
    + seq(|ir.ttl|, i requires 0 <= i < |ir.ttl| => RuleFoot(ir.ttl[i], ir.matchers))
    + seq(|ir.storage|, i requires 0 <= i < |ir.storage| => RuleFoot(ir.storage[i], ir.matchers))
    + seq(|ir.recipes|, i requires 0 <= i < |ir.recipes| => RecipeFoot(ir.recipes[i], ir.matchers))
  }

  /** Everything together. */
  function Joined(fs: seq<Foot>): Foot {
    if fs == [] then Foot(false, []) else Join(Joined(fs[..|fs| - 1]), fs[|fs| - 1])
  }

  lemma {:induction false} JoinedHas(fs: seq<Foot>, i: nat, path: string)
    requires i < |fs|
    ensures fs[i].all ==> Joined(fs).all
    ensures InSome(path, fs[i].globs) ==> InSome(path, Joined(fs).globs)
  {
    hide InSome;
    var n := |fs| - 1;
    InSomeMore(path, Joined(fs[..n]).globs, fs[n].globs);
    if i < n {
      JoinedHas(fs[..n], i, path);
    }
  }

  // ----- A rule that takes a request touches its path -----

  predicate NarrowRedirect(x: Redirect, ms: map<string, Matcher>) {
    && (x.regex != "" && RegexGlob(x.regex).Some? ==> Contained(RegexGlob(x.regex).value, x.flags))
    && (x.scope.Some? ==> NarrowScope(x.scope.value, ms))
  }

  predicate NarrowRule(x: Rule, ms: map<string, Matcher>) {
    x.scope.Some? ==> NarrowScope(x.scope.value, ms)
  }

  /** No flag widens a regex that redirects, stores or keys. */
  predicate NarrowRules(ir: Rules) {
    && (forall i :: 0 <= i < |ir.redirects| ==> NarrowRedirect(ir.redirects[i], ir.matchers))
    && (forall i :: 0 <= i < |ir.ttl| ==> NarrowRule(ir.ttl[i], ir.matchers))
    && (forall i :: 0 <= i < |ir.storage| ==> NarrowRule(ir.storage[i], ir.matchers))
    && (forall i :: 0 <= i < |ir.recipes| ==> NarrowScope(ir.recipes[i], ir.matchers))
  }

  ghost predicate TouchedBy(f: Foot, path: string) {
    f.all || InSome(path, f.globs)
  }

  lemma ScopeTouches(sc: Scope, ms: map<string, Matcher>, r: Request)
    requires ScopeMatches(sc, ms, r) && NarrowScope(sc, ms) && StartsWithSlash(r.path)
    ensures TouchedBy(ScopeFoot(sc, ms), r.path)
  {
    hide ScopeGlobs, ScopeMatches, NarrowScope, InSome;
    if ScopeGlobs(sc, ms).Some? {
      ScopeMeans(sc, ms, r);
    }
  }

  lemma RegexTouches(src: string, flags: set<char>, r: Request)
    requires RegexMatches(src, flags, r) && StartsWithSlash(r.path)
    requires RegexGlob(src).Some? ==> Contained(RegexGlob(src).value, flags)
    ensures TouchedBy(RegexFoot(src), r.path)
  {
    hide LiteralMatches, InSome, Contained;
    if RegexGlob(src).Some? {
      ContainedMatches(RegexGlob(src).value, flags, r.path);
      InSomeOne(r.path, RegexGlob(src).value);
    }
  }

  lemma RedirectTouches(x: Redirect, ms: map<string, Matcher>, r: Request)
    requires RedirectMatches(x, ms, r) && NarrowRedirect(x, ms) && StartsWithSlash(r.path)
    ensures TouchedBy(RedirectFoot(x, ms), r.path)
  {
    hide ScopeFoot, ScopeMatches, NarrowScope, InSome, RegexFoot, RegexMatches, RegexGlob;
    var a := if x.regex == "" then Foot(false, []) else RegexFoot(x.regex);
    var b := if x.scope.None? then Foot(false, []) else ScopeFoot(x.scope.value, ms);
    InSomeMore(r.path, a.globs, b.globs);
    if x.regex != "" {
      RegexTouches(x.regex, x.flags, r);
    } else if x.scope.Some? {
      ScopeTouches(x.scope.value, ms, r);
    }
  }

  lemma RespondTouches(path: string)
    ensures TouchedBy(RespondFoot(path), path)
  {
    InSomeOne(path, Glob(path, false));
  }

  /** The feet of the rule lists, by position. */
  lemma FeetParts(ir: Rules)
    ensures var a, b, c, d := |ir.redirects|, |ir.responds|, |ir.ttl|, |ir.storage|;
            && |Feet(ir)| == a + b + c + d + |ir.recipes|
            && (forall i :: 0 <= i < a ==> Feet(ir)[i] == RedirectFoot(ir.redirects[i], ir.matchers))
            && (forall i :: 0 <= i < b ==> Feet(ir)[a + i] == RespondFoot(ir.responds[i]))
            && (forall i :: 0 <= i < c ==> Feet(ir)[a + b + i] == RuleFoot(ir.ttl[i], ir.matchers))
            && (forall i :: 0 <= i < d ==> Feet(ir)[a + b + c + i] == RuleFoot(ir.storage[i], ir.matchers))
            && (forall i :: 0 <= i < |ir.recipes| ==> Feet(ir)[a + b + c + d + i] == RecipeFoot(ir.recipes[i], ir.matchers))
  {
    hide RedirectFoot, RespondFoot, RuleFoot, RecipeFoot;
  }

  /** A request that some rule redirects, answers, stores or keys has a touched path. */
  lemma TakenIsTouched(ir: Rules, r: Request)
    requires NarrowRules(ir) && StartsWithSlash(r.path) && (ShortCircuits(ir, r) || Stores(ir, r))
    ensures TouchedBy(Joined(Feet(ir)), r.path)
  {
    hide Feet, Joined, RedirectFoot, RespondFoot, RuleFoot, RecipeFoot, NarrowRules, InSome;
    SomeFoot(ir, r);
    var f :| 0 <= f < |Feet(ir)| && TouchedBy(Feet(ir)[f], r.path);
    JoinedHas(Feet(ir), f, r.path);
  }

  lemma SomeFoot(ir: Rules, r: Request)
    requires NarrowRules(ir) && StartsWithSlash(r.path) && (ShortCircuits(ir, r) || Stores(ir, r))
    ensures exists f :: 0 <= f < |Feet(ir)| && TouchedBy(Feet(ir)[f], r.path)
  {
    hide Feet, RedirectFoot, RespondFoot, ScopeFoot, RedirectMatches, ScopeMatches, TouchedBy, NarrowScope, NarrowRedirect;
    FeetParts(ir);
    var a, b, c, d := |ir.redirects|, |ir.responds|, |ir.ttl|, |ir.storage|;
    if i :| 0 <= i < a && RedirectMatches(ir.redirects[i], ir.matchers, r) {
      RedirectTouches(ir.redirects[i], ir.matchers, r);
      assert TouchedBy(Feet(ir)[i], r.path);
    } else if i :| 0 <= i < b && ir.responds[i] == r.path {
      RespondTouches(r.path);
      assert TouchedBy(Feet(ir)[a + i], r.path);
    } else if i :| 0 <= i < c && RuleMatches(ir.ttl[i], ir.matchers, r) {
      ScopeTouches(ir.ttl[i].scope.value, ir.matchers, r);
      assert TouchedBy(Feet(ir)[a + b + i], r.path);
    } else if i :| 0 <= i < d && RuleMatches(ir.storage[i], ir.matchers, r) {
      ScopeTouches(ir.storage[i].scope.value, ir.matchers, r);
      assert TouchedBy(Feet(ir)[a + b + c + i], r.path);
    } else {
      var i :| 0 <= i < |ir.recipes| && !ir.recipes[i].always && ScopeMatches(ir.recipes[i], ir.matchers, r);
      ScopeTouches(ir.recipes[i], ir.matchers, r);
      assert TouchedBy(Feet(ir)[a + b + c + d + i], r.path);
    }
  }

  method ScopeFootprint(sc: Scope, matchers: map<string, Matcher>) returns (f: Foot)
    ensures f == ScopeFoot(sc, matchers)
  {
    var gs := ScopePathGlobs(sc, matchers);
    f := if gs.Some? then Foot(false, gs.value) else Foot(true, []);
  }

  lemma JoinedStep(fs: seq<Foot>, k: nat)
    requires k < |fs|
    ensures Joined(fs[..k + 1]) == Join(Joined(fs[..k]), fs[k])
  {
    assert fs[..k + 1][..k] == fs[..k];
  }

  lemma JoinNothing(f: Foot)
    ensures Join(f, Foot(false, [])) == f && Join(Foot(false, []), f) == f
  {
  }

  lemma JoinThree(f: Foot, a: Foot, b: Foot)
    ensures Join(Join(f, a), b) == Join(f, Join(a, b))
  {
  }

  /** One redirect: its regex, its scope, or everything. */
  method RedirectFootprint(x: Redirect, matchers: map<string, Matcher>, f: Foot) returns (g: Foot)
    ensures g == Join(f, RedirectFoot(x, matchers))
  {
    hide ScopeFoot;
    var matched := false;
    g := f;
    ghost var a, b := Foot(false, []), Foot(false, []);
    if x.regex != "" {
      matched := true;
      var lit := RegexGlob(x.regex);
      g := if lit.Some? then g.(globs := g.globs + [lit.value]) else g.(all := true);
      a := RegexFoot(x.regex);
      assert g == Join(f, a);
    } else {
      JoinNothing(f);
    }
    if x.scope.Some? {
      matched := true;
      b := ScopeFoot(x.scope.value, matchers);
      var sf := ScopeFootprint(x.scope.value, matchers);
      g := Foot(g.all || sf.all, g.globs + sf.globs);
      JoinThree(f, a, b);
    } else {
      JoinNothing(a);
    }
    if !matched {
      g := g.(all := true);
    }
  }

  /** The five lists in turn. */
  method TouchFootprints(ir: Rules) returns (f: Foot)
    ensures f == Joined(Feet(ir))
  {
    hide Feet, RedirectFoot, ScopeFoot, Joined;
    FeetParts(ir);
    ghost var fs := Feet(ir);
    ghost var a, b, c, d := |ir.redirects|, |ir.responds|, |ir.ttl|, |ir.storage|;
    f := Foot(false, []);
    NoFeet(fs);
    for i := 0 to |ir.redirects|
      invariant f == Joined(fs[..i])
    {
      JoinedStep(fs, i);
      f := RedirectFootprint(ir.redirects[i], ir.matchers, f);
    }
    for i := 0 to |ir.responds|
      invariant f == Joined(fs[..a + i])
    {
      JoinedStep(fs, a + i);
      if ir.responds[i] == "" {
        f := Foot(true, f.globs + []);
      } else {
        f := Foot(f.all, f.globs + [Glob(ir.responds[i], false)]);
      }
    }
    for i := 0 to |ir.ttl|
      invariant f == Joined(fs[..a + b + i])
    {
      JoinedStep(fs, a + b + i);
      f := RuleFootprint(ir.ttl[i], ir.matchers, f);
    }
    for i := 0 to |ir.storage|
      invariant f == Joined(fs[..a + b + c + i])
    {
      JoinedStep(fs, a + b + c + i);
      f := RuleFootprint(ir.storage[i], ir.matchers, f);
    }
    for i := 0 to |ir.recipes|
      invariant f == Joined(fs[..a + b + c + d + i])
    {
      JoinedStep(fs, a + b + c + d + i);
      JoinNothing(f);
      if !ir.recipes[i].always {
        var sf := ScopeFootprint(ir.recipes[i], ir.matchers);
        f := Join(f, sf);
      }
    }
    assert fs[..|fs|] == fs;
  }

  lemma NoFeet(fs: seq<Foot>)
    ensures Joined(fs[..0]) == Foot(false, [])
  {
  }

  method RuleFootprint(x: Rule, matchers: map<string, Matcher>, f: Foot) returns (g: Foot)
    ensures g == Join(f, RuleFoot(x, matchers))
  {
    hide ScopeFoot;
    JoinNothing(f);
    g := f;
    if x.byScope && x.scope.Some? {
      var sf := ScopeFootprint(x.scope.value, matchers);
      g := Join(f, sf);
    }
  }

  // ----- Candidates -----

  function Candidates(pass: seq<Scope>, ms: map<string, Matcher>): seq<Glob> {
    if pass == [] then []
    else
      var n := |pass| - 1;
      Candidates(pass[..n], ms) + (match ScopeGlobs(pass[n], ms) case Some(gs) => gs case None => [])
  }

  method ExcludablePassPaths(ir: Rules) returns (out: seq<Glob>)
    ensures out == Candidates(ir.pass, ir.matchers)
  {
    hide ScopeGlobs;
    out := [];
    for i := 0 to |ir.pass|
      invariant out == Candidates(ir.pass[..i], ir.matchers)
    {
      assert ir.pass[..i + 1][..i] == ir.pass[..i];
      var gs := ScopePathGlobs(ir.pass[i], ir.matchers);
      if gs.Some? {
        out := out + gs.value;
      }
    }
    assert ir.pass[..|ir.pass|] == ir.pass;
  }

  /** A path in a candidate is passed. */
  lemma {:induction false} CandidatePasses(pass: seq<Scope>, ms: map<string, Matcher>, g: Glob, r: Request)
    requires g in Candidates(pass, ms) && In(r.path, g)
    ensures exists i :: 0 <= i < |pass| && ScopeMatches(pass[i], ms, r)
  {
    hide ScopeGlobs, ScopeMatches, In;
    var n := |pass| - 1;
    if g in Candidates(pass[..n], ms) {
      CandidatePasses(pass[..n], ms, g, r);
      var i :| 0 <= i < n && ScopeMatches(pass[..n][i], ms, r);
      assert ScopeMatches(pass[i], ms, r);
    } else {
      assert InSome(r.path, ScopeGlobs(pass[n], ms).value);
      ScopeMeans(pass[n], ms, r);
    }
  }

  lemma {:induction false} CandidateWritable(pass: seq<Scope>, ms: map<string, Matcher>)
    ensures forall g :: g in Candidates(pass, ms) ==> Writable(g)
  {
    hide ScopeGlobs, Writable;
    if pass != [] {
      var n := |pass| - 1;
      CandidateWritable(pass[..n], ms);
      if ScopeGlobs(pass[n], ms).Some? {
        ScopeWritable(pass[n], ms);
      }
    }
  }

  lemma ScopeWritable(sc: Scope, ms: map<string, Matcher>)
    requires ScopeGlobs(sc, ms).Some?
    ensures forall g :: g in ScopeGlobs(sc, ms).value ==> Writable(g)
  {
    hide MatchersGlobs, Writable, ScopeMatchers;
    MatchersWritable(ScopeMatchers(sc, ms));
  }

  lemma {:induction false} MatchersWritable(ms: seq<Matcher>)
    requires MatchersGlobs(ms).Some?
    ensures forall g :: g in MatchersGlobs(ms).value ==> Writable(g)
  {
    hide MatcherGlobs, Writable;
    if ms != [] {
      MatchersWritable(ms[..|ms| - 1]);
      MatcherWritable(ms[|ms| - 1]);
    }
  }

  lemma MatcherWritable(m: Matcher)
    requires MatcherGlobs(m).Some?
    ensures forall g :: g in MatcherGlobs(m).value ==> Writable(g)
  {
    hide PatternGlobs, Writable;
    if m.Path? {
      PatternsWritable(m.patterns);
    }
  }

  lemma {:induction false} PatternsWritable(ps: seq<string>)
    requires PatternGlobs(ps).Some?
    ensures forall g :: g in PatternGlobs(ps).value ==> Writable(g)
  {
    hide LiteralPathGlob, Writable;
    if ps != [] {
      PatternsWritable(ps[..|ps| - 1]);
      LiteralForm(ps[|ps| - 1]);
    }
  }
}
