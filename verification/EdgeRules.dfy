/** The projected rules that decide what the edge worker does with a path (internal/edgeir/edgeir.go), and
    what the worker makes of them (edge/runtime/interpreter.js). */
module EdgeRules {
  import opened Objects
  import opened Globs

  /** Every other kind of matcher (header, cookie, method, ...) is told apart by a number only. */
  datatype Matcher =
    | Path(patterns: seq<string>)
    | PathRegex(regex: string, flags: set<char>, untranslatable: bool)
    | Other(id: nat)

  datatype Scope = Scope(always: bool, names: seq<string>, inline: seq<Matcher>)

  /** A regex, a scope, or both; an empty regex is none. */
  datatype Redirect = Redirect(regex: string, flags: set<char>, scope: Option<Scope>)

  /** A cache_ttl or storage rule, selected by scope or in another way. */
  datatype Rule = Rule(byScope: bool, scope: Option<Scope>)

  datatype Rules = Rules(
    matchers: map<string, Matcher>,
    pass: seq<Scope>,
    redirects: seq<Redirect>,
    responds: seq<string>,
    ttl: seq<Rule>,
    storage: seq<Rule>,
    recipes: seq<Scope>)

  /** A request: its path, and what the matchers outside this model say of it. */
  datatype Request = Request(path: string, other: nat -> bool, regex: (string, set<char>) -> bool, glob: string -> bool)

  // ----- Literal regexes -----

  predicate PlainChar(c: char) {
    'a' <= c <= 'z' || 'A' <= c <= 'Z' || '0' <= c <= '9' || c in {'/', '-', '_', '~'}
  }

  predicate Plain(s: string) {
    forall i :: 0 <= i < |s| ==> PlainChar(s[i])
  }

  /** "^/literal" or "^/literal$". */
  function RegexGlob(src: string): (r: Option<Glob>)
    ensures r.Some? ==> Writable(r.value) && Plain(r.value.prefix)
  {
    if src == [] || src[0] != '^' then None
    else
      var rest := src[1..];
      var exact := rest != [] && rest[|rest| - 1] == '$';
      var lit := if exact then rest[..|rest| - 1] else rest;
      if StartsWithSlash(lit) && Plain(lit) then Some(Glob(lit, !exact)) else None
  }

  function Fold(c: char): char {
    if 'a' <= c <= 'z' then (c as int - 32) as char else c
  }

  predicate SameChar(a: char, b: char, flags: set<char>) {
    a == b || ('i' in flags && Fold(a) == Fold(b))
  }

  predicate IsLineEnd(c: char) {
    c in {'\n', '\r', '\U{2028}', '\U{2029}'}
  }

  /** The literal occurs at `at`, under the flags. */
  predicate OccursAt(g: Glob, flags: set<char>, path: string, at: nat) {
    && at + |g.prefix| <= |path|
    && (at == 0 || ('m' in flags && IsLineEnd(path[at - 1])))
    && (forall i :: 0 <= i < |g.prefix| ==> SameChar(path[at + i], g.prefix[i], flags))
    && (g.isPrefix || at + |g.prefix| == |path| || ('m' in flags && IsLineEnd(path[at + |g.prefix|])))
  }

  /** What an anchored literal regex matches. */
  predicate LiteralMatches(g: Glob, flags: set<char>, path: string) {
    exists at :: 0 <= at <= |path| && OccursAt(g, flags, path, at)
  }

  predicate RegexMatches(src: string, flags: set<char>, r: Request) {
    match RegexGlob(src)
    case Some(g) => LiteralMatches(g, flags, r.path)
    case None => r.regex(src, flags)
  }

  // ----- The worker -----

  predicate PatternMatches(p: string, r: Request) {
    if p == "*" then true
    else if '*' !in p then r.path == p
    else if '*' !in p[..|p| - 1] then p[..|p| - 1] <= r.path
    else r.glob(p)
  }

  predicate Matches(m: Matcher, r: Request) {
    match m
    case Path(ps) => exists i :: 0 <= i < |ps| && PatternMatches(ps[i], r)
    case PathRegex(src, flags, untranslatable) => !untranslatable && RegexMatches(src, flags, r)
    case Other(id) => r.other(id)
  }

  /** The matchers a scope resolves to; unknown names are skipped. */
  function Resolved(names: seq<string>, ms: map<string, Matcher>): seq<Matcher> {
    if names == [] then []
    else (if names[0] in ms then [ms[names[0]]] else []) + Resolved(names[1..], ms)
  }

  function ScopeMatchers(sc: Scope, ms: map<string, Matcher>): seq<Matcher> {
    Resolved(sc.names, ms) + sc.inline
  }

  ghost predicate ScopeMatches(sc: Scope, ms: map<string, Matcher>, r: Request) {
    sc.always || exists i :: 0 <= i < |ScopeMatchers(sc, ms)| && Matches(ScopeMatchers(sc, ms)[i], r)
  }

  /** Some pass rule takes the request. */
  ghost predicate Passes(ir: Rules, r: Request) {
    exists i :: 0 <= i < |ir.pass| && ScopeMatches(ir.pass[i], ir.matchers, r)
  }

  ghost predicate RedirectMatches(x: Redirect, ms: map<string, Matcher>, r: Request) {
    && (x.scope.Some? ==> ScopeMatches(x.scope.value, ms, r))
    && (x.regex != "" ==> RegexMatches(x.regex, x.flags, r))
  }

  ghost predicate RuleMatches(x: Rule, ms: map<string, Matcher>, r: Request) {
    x.byScope && x.scope.Some? && ScopeMatches(x.scope.value, ms, r)
  }

  /** A redirect or a canned response answers at the edge. */
  ghost predicate ShortCircuits(ir: Rules, r: Request) {
    || (exists i :: 0 <= i < |ir.redirects| && RedirectMatches(ir.redirects[i], ir.matchers, r))
    || (exists i :: 0 <= i < |ir.responds| && ir.responds[i] == r.path)
  }

  /** A rule with a scope of its own stores or keys the response. */
  ghost predicate Stores(ir: Rules, r: Request) {
    || (exists i :: 0 <= i < |ir.ttl| && RuleMatches(ir.ttl[i], ir.matchers, r))
    || (exists i :: 0 <= i < |ir.storage| && RuleMatches(ir.storage[i], ir.matchers, r))
    || (exists i :: 0 <= i < |ir.recipes| && !ir.recipes[i].always && ScopeMatches(ir.recipes[i], ir.matchers, r))
  }

  // ----- When a flagged literal still matches its glob only -----

  predicate IsLetter(c: char) {
    'a' <= c <= 'z' || 'A' <= c <= 'Z'
  }

  predicate HasLetter(s: string) {
    exists i :: 0 <= i < |s| && IsLetter(s[i])
  }

  /** The flags do not widen the literal: no multi-line anchors, no folding of a letter. */
  predicate Narrow(g: Glob, flags: set<char>) {
    'm' !in flags && ('i' in flags ==> !HasLetter(g.prefix))
  }

  /** The glob's paths always match the regex, whatever the flags. */
  lemma GlobMatches(g: Glob, flags: set<char>, path: string)
    requires In(path, g)
    ensures LiteralMatches(g, flags, path)
  {
    assert OccursAt(g, flags, path, 0);
  }

  lemma NarrowMatches(g: Glob, flags: set<char>, path: string)
    requires Plain(g.prefix) && Narrow(g, flags) && LiteralMatches(g, flags, path)
    ensures In(path, g)
  {
    var at :| 0 <= at <= |path| && OccursAt(g, flags, path, at);
    forall i | 0 <= i < |g.prefix|
      ensures path[i] == g.prefix[i]
    {
      assert SameChar(path[at + i], g.prefix[i], flags);
      if 'i' in flags {
        assert !IsLetter(g.prefix[i]) && PlainChar(g.prefix[i]);
        FoldLetter(path[i], g.prefix[i]);
      }
    }
    assert path[..|g.prefix|] == g.prefix;
  }

  lemma FoldLetter(a: char, b: char)
    requires !IsLetter(b)
    ensures Fold(a) == Fold(b) ==> a == b
  {
  }

  function Swap(c: char): char {
    if 'a' <= c <= 'z' then (c as int - 32) as char
    else if 'A' <= c <= 'Z' then (c as int + 32) as char
    else c
  }

  function Swapped(s: string): (r: string)
    ensures |r| == |s| && forall i :: 0 <= i < |s| ==> r[i] == Swap(s[i])
  {
    seq(|s|, i requires 0 <= i < |s| => Swap(s[i]))
  }

  lemma SwapFolds(c: char)
    ensures Fold(Swap(c)) == Fold(c) && (IsLetter(c) <==> Swap(c) != c)
  {
  }

  /** With folding and a letter, the literal in the other case matches too. */
  lemma SwappedMatches(g: Glob, flags: set<char>)
    requires 'i' in flags
    ensures LiteralMatches(g, flags, Swapped(g.prefix))
    ensures HasLetter(g.prefix) ==> !In(Swapped(g.prefix), g)
  {
    var path := Swapped(g.prefix);
    forall i | 0 <= i < |g.prefix|
      ensures SameChar(path[0 + i], g.prefix[i], flags)
    {
      SwapFolds(g.prefix[i]);
    }
    assert OccursAt(g, flags, path, 0);
    if HasLetter(g.prefix) {
      var i :| 0 <= i < |g.prefix| && IsLetter(g.prefix[i]);
      SwapFolds(g.prefix[i]);
      assert path[i] != g.prefix[i];
    }
  }

  /** With multi-line anchors, the literal on a second line matches too. */
  lemma SecondLineMatches(g: Glob, flags: set<char>)
    requires 'm' in flags && Plain(g.prefix) && StartsWithSlash(g.prefix) && g != Glob("/", true)
    ensures LiteralMatches(g, flags, "/\n" + g.prefix) && !In("/\n" + g.prefix, g)
  {
    var path := "/\n" + g.prefix;
    assert OccursAt(g, flags, path, 2);
    if |g.prefix| > 1 {
      assert PlainChar(g.prefix[1]) && path[1] != g.prefix[1];
    } else {
      assert g.prefix == "/";
    }
  }

  /** The flags do not widen the literal, or it matches every path anyway. */
  predicate Contained(g: Glob, flags: set<char>) {
    Narrow(g, flags) || g == Glob("/", true)
  }

  lemma ContainedMatches(g: Glob, flags: set<char>, path: string)
    requires Plain(g.prefix) && Contained(g, flags) && LiteralMatches(g, flags, path) && StartsWithSlash(path)
    ensures In(path, g)
  {
    if Narrow(g, flags) {
      NarrowMatches(g, flags, path);
    }
  }

  /** On paths, an anchored literal regex matches exactly what its glob does if and only if its flags do not
      widen it. */
  lemma LiteralExactIff(g: Glob, flags: set<char>)
    requires Plain(g.prefix) && StartsWithSlash(g.prefix)
    ensures (forall path :: StartsWithSlash(path) ==> (LiteralMatches(g, flags, path) <==> In(path, g)))
            <==> Contained(g, flags)
  {
    hide LiteralMatches, In;
    if Contained(g, flags) {
      forall path | StartsWithSlash(path)
        ensures LiteralMatches(g, flags, path) <==> In(path, g)
      {
        if In(path, g) {
          GlobMatches(g, flags, path);
        } else if LiteralMatches(g, flags, path) {
          ContainedMatches(g, flags, path);
        }
      }
    } else {
      var path := Widened(g, flags);
    }
  }

  /** A path that the flags let in. */
  lemma Widened(g: Glob, flags: set<char>) returns (path: string)
    requires Plain(g.prefix) && StartsWithSlash(g.prefix) && !Contained(g, flags)
    ensures StartsWithSlash(path) && '*' !in path && LiteralMatches(g, flags, path) && !In(path, g)
  {
    hide LiteralMatches, In;
    if 'm' in flags {
      path := "/\n" + g.prefix;
      SecondLineMatches(g, flags);
      assert forall i :: 0 <= i < |g.prefix| ==> PlainChar(g.prefix[i]);
    } else {
      path := Swapped(g.prefix);
      SwappedMatches(g, flags);
      assert forall i :: 0 <= i < |g.prefix| ==> PlainChar(g.prefix[i]);
    }
  }
}
