/** Gateway API hostname intersection (internal/gateway/attach.go:107-218). */
module Hosts {
  import opened Objects
  import opened RouteMerge

  predicate IsWild(h: string) {
    "*." <= h
  }

  predicate EndsWith(s: string, t: string) {
    |t| <= |s| && s[|s| - |t|..] == t
  }

  /** The wildcard's ".suffix" ends the name, and something precedes it. */
  predicate WildcardCovers(wild: string, name: string)
    requires IsWild(wild)
  {
    EndsWith(name, wild[1..]) && |name| > |wild[1..]|
  }

  /** The names a hostname stands for: itself, or everything under a wildcard's suffix. */
  predicate Admits(h: string, name: string) {
    if IsWild(h) then WildcardCovers(h, name) else name == h
  }

  /** The hostname both sides stand for: the more specific one, if they meet. */
  function Intersect(r: string, l: string): (res: Option<string>)
    ensures res.Some? ==> res.value == r || res.value == l
  {
    if r == l then Some(r)
    else if IsWild(l) && !IsWild(r) then (if WildcardCovers(l, r) then Some(r) else None)
    else if IsWild(r) && !IsWild(l) then (if WildcardCovers(r, l) then Some(l) else None)
    else if IsWild(r) && IsWild(l) then
      if WildcardCovers(l, r[2..]) then Some(r)
      else if WildcardCovers(r, l[2..]) then Some(l)
      else None
    else None
  }

  // ----- Exactness -----

  lemma EndsWithTwice(s: string, t: string, u: string)
    requires EndsWith(s, t)
    ensures EndsWith(t, u) ==> EndsWith(s, u)
    ensures EndsWith(s, u) && |u| <= |t| ==> EndsWith(t, u)
  {
    if |u| <= |t| {
      assert t[|t| - |u|..] == s[|s| - |u|..];
    }
  }

  /** Two wildcards whose bases differ by a leading dot, that is, by an empty label. */
  predicate DotApart(r: string, l: string) {
    IsWild(r) && IsWild(l) && (r[2..] == "." + l[2..] || l[2..] == "." + r[2..])
  }

  /** The result stands for exactly the names both sides stand for. */
  ghost predicate Exact(r: string, l: string) {
    forall name :: (Admits(r, name) && Admits(l, name)) <==> (Intersect(r, l).Some? && Admits(Intersect(r, l).value, name))
  }

  /** The narrower of two wildcards lies inside the other. */
  lemma WildInside(inner: string, outer: string, name: string)
    requires IsWild(inner) && IsWild(outer) && WildcardCovers(outer, inner[2..]) && Admits(inner, name)
    ensures Admits(outer, name)
  {
    assert inner[2..] == inner[1..][1..];
    EndsWithTwice(name, inner[1..], outer[1..]);
    assert EndsWith(inner[1..], inner[2..]);
    EndsWithTwice(inner[1..], inner[2..], outer[1..]);
  }

  /** Wildcards with a common name: the same, nested, or a dot apart. */
  lemma WildsMeet(r: string, l: string, name: string)
    requires IsWild(r) && IsWild(l) && Admits(r, name) && Admits(l, name) && |r| >= |l|
    ensures r == l || WildcardCovers(l, r[2..]) || DotApart(r, l)
  {
    EndsWithTwice(name, r[1..], l[1..]);
    assert EndsWith(r[1..], l[1..]);
    if |r| == |l| {
      assert r == "*" + r[1..] && l == "*" + l[1..];
    } else {
      assert r[2..] == r[1..][1..];
      assert EndsWith(r[2..], l[1..]) by {
        assert r[2..][|r[2..]| - |l[1..]|..] == r[1..][|r[1..]| - |l[1..]|..];
      }
      if |r[2..]| == |l[1..]| {
        assert r[2..] == l[1..] == "." + l[2..];
      }
    }
  }

  lemma ExactUnlessDotApart(r: string, l: string)
    requires !DotApart(r, l)
    ensures Exact(r, l)
  {
    hide DotApart, WildcardCovers;
    forall name
      ensures (Admits(r, name) && Admits(l, name)) <==> (Intersect(r, l).Some? && Admits(Intersect(r, l).value, name))
    {
      if r != l && IsWild(r) && IsWild(l) {
        BothWild(r, l, name);
      }
    }
  }

  lemma BothWild(r: string, l: string, name: string)
    requires r != l && IsWild(r) && IsWild(l) && !DotApart(r, l)
    ensures (Admits(r, name) && Admits(l, name)) <==> (Intersect(r, l).Some? && Admits(Intersect(r, l).value, name))
  {
    hide WildcardCovers;
    if WildcardCovers(l, r[2..]) {
      if Admits(r, name) {
        WildInside(r, l, name);
      }
    } else if WildcardCovers(r, l[2..]) {
      if Admits(l, name) {
        WildInside(l, r, name);
      }
    } else if Admits(r, name) && Admits(l, name) {
      DotApartSymmetric(r, l);
      if |r| >= |l| {
        WildsMeet(r, l, name);
      } else {
        WildsMeet(l, r, name);
      }
    }
  }

  lemma DotApartSymmetric(r: string, l: string)
    ensures DotApart(r, l) <==> DotApart(l, r)
  {
  }

  /** A dot apart, names with an empty label are in both, and none is found. */
  lemma DotApartMisses(r: string, l: string)
    requires DotApart(r, l) && r[2..] == "." + l[2..]
    ensures Intersect(r, l).None? && !Exact(r, l)
  {
    var name := "a" + r[1..];
    assert r[1..] == "." + r[2..] && l[1..] == "." + l[2..];
    assert name[1..] == r[1..] && EndsWith(name, r[1..]);
    assert r[1..][1..] == l[1..] && name[2..] == l[1..];
    assert Admits(r, name) && Admits(l, name);
    assert |r[2..]| == |l[1..]| && |l[2..]| < |r[1..]|;
  }

  lemma IntersectSymmetric(r: string, l: string)
    requires DotApart(r, l)
    ensures Intersect(r, l).None? ==> Intersect(l, r).None?
    ensures Intersect(r, l).None? && !Exact(r, l) ==> !Exact(l, r)
  {
    hide Admits;
    assert r != l;
  }

  /** Intersection is exact unless the two hostnames are wildcards one empty label apart. */
  lemma ExactIff(r: string, l: string)
    ensures Exact(r, l) <==> !DotApart(r, l)
  {
    hide Exact, Intersect;
    if !DotApart(r, l) {
      ExactUnlessDotApart(r, l);
    } else if r[2..] == "." + l[2..] {
      DotApartMisses(r, l);
    } else {
      DotApartMisses(l, r);
      IntersectSymmetric(l, r);
    }
  }

  /** Where it is exact, it fails only if the two have no name in common. */
  lemma FailsIffEmpty(r: string, l: string)
    requires !DotApart(r, l)
    ensures Intersect(r, l).None? <==> !exists name :: Admits(r, name) && Admits(l, name)
  {
    hide Intersect, Admits;
    ExactUnlessDotApart(r, l);
    if Intersect(r, l).Some? {
      var name := NameOf(Intersect(r, l).value);
      assert Admits(r, name) && Admits(l, name);
    }
  }

  /** Every hostname stands for some name. */
  lemma NameOf(h: string) returns (name: string)
    ensures Admits(h, name)
  {
    if IsWild(h) {
      name := "a" + h[1..];
      assert name[1..] == h[1..];
    } else {
      name := h;
    }
  }

  // ----- Valid hostnames -----

  predicate LabelChar(c: char) {
    'a' <= c <= 'z' || '0' <= c <= '9' || c == '-'
  }

  predicate ValidLabel(s: string) {
    && 0 < |s| <= 63 && (forall i :: 0 <= i < |s| ==> LabelChar(s[i]))
    && s[0] != '-' && s[|s| - 1] != '-'
  }

  /** The labels of a name, the first one continuing `part`. */
  predicate ValidLabels(s: string, part: string) {
    if s == [] then ValidLabel(part)
    else if s[0] == '.' then ValidLabel(part) && ValidLabels(s[1..], "")
    else ValidLabels(s[1..], part + [s[0]])
  }

  predicate ValidHost(h: string) {
    0 < |h| <= 253 && ValidLabels(if IsWild(h) then h[2..] else h, "")
  }

  /** Valid hostnames are never a dot apart. */
  lemma ValidNotApart(r: string, l: string)
    requires ValidHost(r) && ValidHost(l)
    ensures !DotApart(r, l)
  {
    hide ValidHost;
    if IsWild(r) && IsWild(l) {
      ValidBase(r);
      ValidBase(l);
    }
  }

  lemma ValidBase(h: string)
    requires ValidHost(h) && IsWild(h)
    ensures h[2..] != [] && h[2..][0] != '.'
  {
  }

  // ----- The hostnames a route serves -----

  datatype Reject = InvalidHostname(host: string) | NoIntersection | NoHostname

  ghost predicate Serve(hosts: seq<string>, name: string) {
    exists h :: h in hosts && Admits(h, name)
  }

  /** A listener without a hostname admits every name. */
  predicate ListenerAdmits(l: string, name: string) {
    l == "" || Admits(l, name)
  }

  ghost predicate SomeListener(ls: seq<string>, name: string) {
    exists i :: 0 <= i < |ls| && ListenerAdmits(ls[i], name)
  }

  /** The declared hostnames that count: normalised, non-empty and valid. */
  function Declared(raw: seq<string>, norm: string -> string): seq<string> {
    if raw == [] then []
    else
      var h := norm(raw[|raw| - 1]);
      Declared(raw[..|raw| - 1], norm) + (if h != "" && ValidHost(h) then [h] else [])
  }

  function Named(ls: seq<string>): seq<string> {
    if ls == [] then [] else Named(ls[..|ls| - 1]) + (if ls[|ls| - 1] == "" then [] else [ls[|ls| - 1]])
  }

  method RouteHosts(raw: seq<string>, norm: string -> string) returns (hosts: seq<string>, rejects: seq<Reject>)
    ensures hosts == Declared(raw, norm)
    ensures forall x :: x in rejects <==> x.InvalidHostname? && x.host != "" && !ValidHost(x.host) && x.host in Normed(raw, norm)
  {
    hide ValidHost;
    hosts, rejects := [], [];
    for i := 0 to |raw|
      invariant hosts == Declared(raw[..i], norm)
      invariant forall x :: x in rejects <==>
                  x.InvalidHostname? && x.host != "" && !ValidHost(x.host) && x.host in Normed(raw[..i], norm)
    {
      assert raw[..i + 1][..i] == raw[..i];
      assert Normed(raw[..i + 1], norm) == Normed(raw[..i], norm) + [norm(raw[i])];
      var h := norm(raw[i]);
      if h == "" {
        continue;
      }
      if !ValidHost(h) {
        rejects := rejects + [InvalidHostname(h)];
        continue;
      }
      hosts := hosts + [h];
    }
    assert raw[..|raw|] == raw;
  }

  function Normed(raw: seq<string>, norm: string -> string): (r: seq<string>)
  {
    seq(|raw|, i requires 0 <= i < |raw| => norm(raw[i]))
  }

  method Partition(ls: seq<string>) returns (named: seq<string>, unconstrained: bool)
    ensures named == Named(ls) && unconstrained == ("" in ls)
  {
    named, unconstrained := [], false;
    for i := 0 to |ls|
      invariant named == Named(ls[..i]) && unconstrained == ("" in ls[..i])
    {
      assert ls[..i + 1][..i] == ls[..i] && ls[..i + 1] == ls[..i] + [ls[i]];
      if ls[i] == "" {
        unconstrained := true;
      } else {
        named := named + [ls[i]];
      }
    }
    assert ls[..|ls|] == ls;
  }

  method SortedKeys(keys: set<string>) returns (r: seq<string>)
    ensures (forall x :: x in r <==> x in keys) && Ascending(r)
  {
    r := [];
    var left := keys;
    while left != {}
      invariant left <= keys && Ascending(r) && forall x :: x in r <==> x in keys - left
      decreases |left|
    {
      var k :| k in left;
      left := left - {k};
      InsertAscending(k, r);
      r := InsertText(k, r);
    }
  }

  /** The hostname where a route host meets each listener host. */
  method Meet(rh: string, named: seq<string>, found: set<string>) returns (r: set<string>)
    ensures forall x :: x in r <==> x in found || MeetsSome(rh, named, x)
  {
    hide Intersect;
    r := found;
    for i := 0 to |named|
      invariant forall x :: x in r <==> x in found || MeetsSome(rh, named[..i], x)
    {
      var a, b := named[..i], named[..i + 1];
      assert b[i] == named[i] && forall k :: 0 <= k < i ==> b[k] == a[k];
      var eff := Intersect(rh, named[i]);
      if eff.Some? {
        r := r + {eff.value};
      }
    }
    assert named[..|named|] == named;
  }

  ghost predicate MeetsSome(rh: string, named: seq<string>, x: string) {
    exists i :: 0 <= i < |named| && Intersect(rh, named[i]) == Some(x)
  }

  /** What a route host contributes. */
  ghost predicate Contributes(rh: string, ls: seq<string>, x: string) {
    if "" in ls then x == rh else MeetsSome(rh, Named(ls), x)
  }

  ghost predicate SomeContributes(rhs: seq<string>, ls: seq<string>, x: string) {
    exists i :: 0 <= i < |rhs| && Contributes(rhs[i], ls, x)
  }

  /** Route hosts met with listener hosts; without route hosts, the listeners' own. */
  method EffectiveHosts(raw: seq<string>, norm: string -> string, ls: seq<string>)
    returns (hosts: seq<string>, rejects: seq<Reject>)
    ensures Declared(raw, norm) != [] ==> forall x :: x in hosts <==> SomeContributes(Declared(raw, norm), ls, x)
    ensures Declared(raw, norm) == [] ==> forall x :: x in hosts <==> x in Named(ls)
    ensures Ascending(hosts)
    ensures NoIntersection in rejects <==> Declared(raw, norm) != [] && hosts == []
    ensures NoHostname in rejects <==> Declared(raw, norm) == [] && Named(ls) == []
  {
    hide Declared, Named, Contributes;
    var rhs, bad := RouteHosts(raw, norm);
    rejects := bad;
    var named, unconstrained := Partition(ls);
    var found: set<string> := {};
    if rhs != [] {
      for i := 0 to |rhs|
        invariant forall x :: x in found <==> SomeContributes(rhs[..i], ls, x)
      {
        ContributesStep(rhs, ls, i);
        ContributesHere(rhs[i], ls);
        if unconstrained {
          found := found + {rhs[i]};
        } else {
          found := Meet(rhs[i], named, found);
        }
      }
      assert rhs[..|rhs|] == rhs;
      if found == {} {
        rejects := rejects + [NoIntersection];
      }
    } else if named != [] {
      found := set x | x in named;
    } else {
      rejects := rejects + [NoHostname];
    }
    hosts := SortedKeys(found);
    assert found == {} <==> hosts == [] by {
      assert hosts != [] ==> hosts[0] in found;
    }
  }

  lemma ContributesHere(rh: string, ls: seq<string>)
    ensures forall x :: Contributes(rh, ls, x) <==> if "" in ls then x == rh else MeetsSome(rh, Named(ls), x)
  {
  }

  lemma ContributesStep(rhs: seq<string>, ls: seq<string>, i: nat)
    requires i < |rhs|
    ensures forall x :: SomeContributes(rhs[..i + 1], ls, x) <==> SomeContributes(rhs[..i], ls, x) || Contributes(rhs[i], ls, x)
  {
    hide Contributes;
    var a, b := rhs[..i], rhs[..i + 1];
    assert b[i] == rhs[i] && forall k :: 0 <= k < i ==> b[k] == a[k];
    forall x | SomeContributes(a, ls, x)
      ensures SomeContributes(b, ls, x)
    {
      var k :| 0 <= k < |a| && Contributes(a[k], ls, x);
      assert Contributes(b[k], ls, x);
    }
  }

  // ----- What that means -----

  lemma {:induction false} NamedAre(ls: seq<string>, l: string)
    ensures l in Named(ls) <==> l in ls && l != ""
  {
    if ls != [] {
      NamedAre(ls[..|ls| - 1], l);
      assert ls == ls[..|ls| - 1] + [ls[|ls| - 1]];
    }
  }

  lemma {:induction false} DeclaredValid(raw: seq<string>, norm: string -> string)
    ensures forall h :: h in Declared(raw, norm) ==> ValidHost(h)
  {
    hide ValidHost;
    if raw != [] {
      DeclaredValid(raw[..|raw| - 1], norm);
    }
  }

  /** With route hostnames present, the hosts served stand for exactly the names of the route that some
      listener admits. */
  lemma EffectiveExact(rhs: seq<string>, ls: seq<string>, hosts: seq<string>, name: string)
    requires (forall h :: h in rhs ==> ValidHost(h)) && (forall l :: l in ls && l != "" ==> ValidHost(l))
    requires forall x :: x in hosts <==> SomeContributes(rhs, ls, x)
    ensures Serve(hosts, name) <==> Serve(rhs, name) && SomeListener(ls, name)
  {
    hide ValidHost, Admits, Named, Intersect;
    if Serve(hosts, name) {
      var x :| x in hosts && Admits(x, name);
      var i :| 0 <= i < |rhs| && Contributes(rhs[i], ls, x);
      assert rhs[i] in rhs;
      Contributed(rhs[i], ls, x, name);
    }
    if Serve(rhs, name) && SomeListener(ls, name) {
      var rh :| rh in rhs && Admits(rh, name);
      var x := Contribution(rh, ls, name);
      var i :| 0 <= i < |rhs| && rhs[i] == rh;
      assert Contributes(rhs[i], ls, x);
    }
  }

  lemma Contributed(rh: string, ls: seq<string>, x: string, name: string)
    requires ValidHost(rh) && (forall l :: l in ls && l != "" ==> ValidHost(l))
    requires Contributes(rh, ls, x) && Admits(x, name)
    ensures Admits(rh, name) && SomeListener(ls, name)
  {
    hide ValidHost, Admits, Intersect;
    if "" in ls {
      var i :| 0 <= i < |ls| && ls[i] == "";
      assert ListenerAdmits(ls[i], name);
    } else {
      var k :| 0 <= k < |Named(ls)| && Intersect(rh, Named(ls)[k]) == Some(x);
      var l := Named(ls)[k];
      NamedAre(ls, l);
      ValidNotApart(rh, l);
      ExactUnlessDotApart(rh, l);
      var i :| 0 <= i < |ls| && ls[i] == l;
      assert ListenerAdmits(ls[i], name);
    }
  }

  lemma Contribution(rh: string, ls: seq<string>, name: string) returns (x: string)
    requires ValidHost(rh) && (forall l :: l in ls && l != "" ==> ValidHost(l))
    requires Admits(rh, name) && SomeListener(ls, name)
    ensures Contributes(rh, ls, x) && Admits(x, name)
  {
    hide ValidHost, Admits, Intersect;
    if "" in ls {
      x := rh;
    } else {
      var i :| 0 <= i < |ls| && ListenerAdmits(ls[i], name);
      var l := ls[i];
      NamedAre(ls, l);
      ValidNotApart(rh, l);
      ExactUnlessDotApart(rh, l);
      x := Intersect(rh, l).value;
      var k :| 0 <= k < |Named(ls)| && Named(ls)[k] == l;
    }
  }
}
