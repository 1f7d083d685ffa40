/** Path globs and the route patterns made of them (internal/edgeir/exclusions.go). */
module Globs {
  import opened Objects

  /** An exact path, or everything that starts with a prefix. */
  datatype Glob = Glob(prefix: string, isPrefix: bool)

  predicate In(path: string, g: Glob) {
    if g.isPrefix then g.prefix <= path else path == g.prefix
  }

  // ----- Overlap and cover -----

  predicate Overlap(a: Glob, b: Glob) {
    if a.isPrefix && b.isPrefix then b.prefix <= a.prefix || a.prefix <= b.prefix
    else if a.isPrefix then a.prefix <= b.prefix
    else if b.isPrefix then b.prefix <= a.prefix
    else a.prefix == b.prefix
  }

  predicate Covers(k: Glob, c: Glob) {
    if !k.isPrefix then !c.isPrefix && k.prefix == c.prefix else k.prefix <= c.prefix
  }

  /** Overlap is exactly: some path is in both. */
  lemma OverlapIff(a: Glob, b: Glob)
    ensures Overlap(a, b) <==> exists p: string :: In(p, a) && In(p, b)
  {
    if Overlap(a, b) {
      var p := if b.prefix <= a.prefix && b.isPrefix then a.prefix else b.prefix;
      assert In(p, a) && In(p, b);
    }
    forall p: string | In(p, a) && In(p, b)
      ensures Overlap(a, b)
    {
      if a.isPrefix && b.isPrefix {
        PrefixesMeet(a.prefix, b.prefix, p);
      }
    }
  }

  lemma PrefixesMeet(a: string, b: string, p: string)
    requires a <= p && b <= p
    ensures a <= b || b <= a
  {
    assert a == p[..|a|] && b == p[..|b|];
  }

  /** Cover is exactly: every path of the one is in the other. */
  lemma CoversIff(k: Glob, c: Glob)
    ensures Covers(k, c) <==> forall p: string :: In(p, c) ==> In(p, k)
  {
    if Covers(k, c) {
      forall p: string | In(p, c)
        ensures In(p, k)
      {
        assert c.prefix == p[..|c.prefix|];
      }
    }
    if forall p: string :: In(p, c) ==> In(p, k) {
      assert In(c.prefix, c) && In(c.prefix, k);
      var longer := c.prefix + "x";
      assert c.prefix <= longer;
      assert c.isPrefix ==> In(longer, c) && In(longer, k);
    }
  }

  lemma CoversTransitive(a: Glob, b: Glob, c: Glob)
    requires Covers(a, b) && Covers(b, c)
    ensures Covers(a, c)
  {
  }

  // ----- Text form -----

  /** A prefix glob ends in '*'. */
  function GlobString(g: Glob): string {
    if g.isPrefix then g.prefix + "*" else g.prefix
  }

  predicate StartsWithSlash(p: string) {
    p != [] && p[0] == '/'
  }

  /** A literal path, or a literal prefix with one '*' at the end. */
  function LiteralPathGlob(p: string): (r: Option<Glob>)
    ensures r.Some? <==> StartsWithSlash(p) && (forall i :: 0 <= i < |p| - 1 ==> p[i] != '*')
  {
    if !StartsWithSlash(p) then None
    else if '*' !in p then Some(Glob(p, false))
    else if '*' in p[..|p| - 1] then None
    else Some(Glob(p[..|p| - 1], true))
  }

  /** A glob that has a text form. */
  predicate Writable(g: Glob) {
    StartsWithSlash(g.prefix) && '*' !in g.prefix
  }

  lemma LiteralRoundTrip(g: Glob)
    requires Writable(g)
    ensures LiteralPathGlob(GlobString(g)) == Some(g)
  {
    var p := GlobString(g);
    assert p[..|g.prefix|] == g.prefix;
  }

  lemma LiteralForm(p: string)
    requires LiteralPathGlob(p).Some?
    ensures Writable(LiteralPathGlob(p).value) && GlobString(LiteralPathGlob(p).value) == p
  {
    if '*' in p {
      assert p[|p| - 1] == '*';
      assert p[..|p| - 1] + "*" == p;
    }
  }

  /** "host/path" or "host/path*", at the first slash. */
  function SplitRoute(s: string): (r: Option<(string, Glob)>)
  {
    var i := SlashAt(s);
    if i == 0 || i == |s| then None
    else match LiteralPathGlob(s[i..])
         case None => None
         case Some(g) => Some((s[..i], g))
  }

  function SlashAt(s: string): (n: nat)
    ensures n <= |s| && '/' !in s[..n] && (n < |s| ==> s[n] == '/')
  {
    if s == [] || s[0] == '/' then 0 else 1 + SlashAt(s[1..])
  }

  predicate IsHost(h: string) {
    h != [] && '/' !in h
  }

  lemma {:induction false} SlashAfter(h: string, p: string)
    requires '/' !in h && StartsWithSlash(p)
    ensures SlashAt(h + p) == |h|
  {
    if h == [] {
      assert h + p == p;
    } else {
      assert (h + p)[1..] == h[1..] + p;
      SlashAfter(h[1..], p);
    }
  }

  /** A host and a glob are read back from their route pattern. */
  lemma SplitRoundTrip(h: string, g: Glob)
    requires IsHost(h) && Writable(g)
    ensures SplitRoute(h + GlobString(g)) == Some((h, g))
  {
    var p := GlobString(g);
    SlashAfter(h, p);
    LiteralRoundTrip(g);
    assert (h + p)[|h|..] == p && (h + p)[..|h|] == h;
  }

  lemma SplitForm(s: string)
    requires SplitRoute(s).Some?
    ensures var (h, g) := SplitRoute(s).value; IsHost(h) && Writable(g) && s == h + GlobString(g)
  {
    var i := SlashAt(s);
    LiteralForm(s[i..]);
    assert s[..i] + s[i..] == s;
  }

  // ----- Order -----

  predicate Less(a: string, b: string) {
    if b == [] then false
    else if a == [] then true
    else a[0] < b[0] || (a[0] == b[0] && Less(a[1..], b[1..]))
  }

  lemma {:induction false} LessTotal(a: string, b: string)
    ensures a == b || Less(a, b) || Less(b, a)
    ensures !(Less(a, b) && Less(b, a)) && !Less(a, a)
  {
    if a != [] && b != [] {
      LessTotal(a[1..], b[1..]);
      LessTotal(a[1..], a[1..]);
      assert a[0] == b[0] && a[1..] == b[1..] ==> a == [a[0]] + a[1..] && b == [b[0]] + b[1..];
    } else if a != [] {
      LessTotal(a[1..], a[1..]);
    }
  }

  lemma {:induction false} LessTransitive(a: string, b: string, c: string)
    requires Less(a, b) && Less(b, c)
    ensures Less(a, c)
  {
    if a != [] {
      if a[0] == b[0] && b[0] == c[0] {
        LessTransitive(a[1..], b[1..], c[1..]);
      }
    }
  }

  lemma {:induction false} PrefixFirst(a: string, b: string)
    requires a <= b && a != b
    ensures Less(a, b)
  {
    if a != [] {
      assert a == [a[0]] + a[1..] && b == [b[0]] + b[1..];
      PrefixFirst(a[1..], b[1..]);
    }
  }

  /** By prefix; of two with the same prefix the broader first. */
  predicate Before(a: Glob, b: Glob) {
    Less(a.prefix, b.prefix) || (a.prefix == b.prefix && a.isPrefix && !b.isPrefix)
  }

  predicate Sorted(s: seq<Glob>) {
    forall i, j :: 0 <= i < j < |s| ==> !Before(s[j], s[i])
  }

  lemma BeforeOrder(a: Glob, b: Glob, c: Glob)
    ensures !Before(b, a) && !Before(c, b) ==> !Before(c, a)
    ensures Before(a, b) ==> !Before(b, a)
  {
    hide Less;
    LessTotal(a.prefix, b.prefix);
    LessTotal(b.prefix, c.prefix);
    LessTotal(a.prefix, c.prefix);
    if Less(a.prefix, b.prefix) && Less(b.prefix, c.prefix) {
      LessTransitive(a.prefix, b.prefix, c.prefix);
    }
  }

  /** Inserts into a sorted list. */
  function Insert(g: Glob, s: seq<Glob>): (r: seq<Glob>)
    ensures forall x :: x in r <==> x == g || x in s
  {
    if s == [] || Before(g, s[0]) then [g] + s else [s[0]] + Insert(g, s[1..])
  }

  function Sort(s: seq<Glob>): (r: seq<Glob>)
    ensures forall x :: x in r <==> x in s
  {
    if s == [] then [] else Insert(s[0], Sort(s[1..]))
  }

  lemma {:induction false} InsertSorted(g: Glob, s: seq<Glob>)
    requires Sorted(s)
    ensures Sorted(Insert(g, s))
  {
    hide Before;
    if s == [] {
    } else if Before(g, s[0]) {
      forall j | 0 <= j < |s|
        ensures !Before(s[j], g)
      {
        BeforeOrder(g, s[0], s[j]);
      }
    } else {
      InsertSorted(g, s[1..]);
      var r := Insert(g, s[1..]);
      forall j | 0 <= j < |r|
        ensures !Before(r[j], s[0])
      {
        BeforeOrder(s[0], g, g);
        assert r[j] in r;
      }
    }
  }

  lemma {:induction false} SortSorted(s: seq<Glob>)
    ensures Sorted(Sort(s))
  {
    if s != [] {
      SortSorted(s[1..]);
      InsertSorted(s[0], Sort(s[1..]));
    }
  }

  /** A glob that covers another one comes first. */
  lemma BroaderFirst(k: Glob, c: Glob)
    requires Covers(k, c) && k != c
    ensures Before(k, c)
  {
    if k.prefix != c.prefix {
      PrefixFirst(k.prefix, c.prefix);
    }
  }

  // ----- Collapsing -----

  /** Not covered by any other. */
  ghost predicate Maximal(c: Glob, s: seq<Glob>) {
    forall k :: k in s && Covers(k, c) ==> k == c
  }

  ghost predicate Covered(c: Glob, s: seq<Glob>) {
    exists k :: k in s && Covers(k, c)
  }

  ghost predicate Distinct(s: seq<Glob>) {
    forall i, j :: 0 <= i < j < |s| ==> s[i] != s[j]
  }

  /** The loop of the source: what remains are exactly the maximal globs, each once, and everything is
      still covered. */
  method Collapse(globs: seq<Glob>) returns (kept: seq<Glob>)
    ensures forall c :: c in kept <==> c in globs && Maximal(c, globs)
    ensures forall c :: c in globs ==> Covered(c, kept)
    ensures Distinct(kept)
  {
    var cp := Sort(globs);
    SortSorted(globs);
    kept := [];
    for i := 0 to |cp|
      invariant forall c :: c in kept <==> c in cp[..i] && Maximal(c, cp[..i])
      invariant forall c :: c in cp[..i] ==> Covered(c, kept)
      invariant Distinct(kept)
    {
      var covered := CoveredBy(kept, cp[i]);
      KeepOrDrop(cp, i, kept, covered);
      if !covered {
        kept := kept + [cp[i]];
      }
    }
    assert cp[..|cp|] == cp;
  }

  method CoveredBy(kept: seq<Glob>, c: Glob) returns (covered: bool)
    ensures covered <==> Covered(c, kept)
  {
    for j := 0 to |kept|
      invariant forall k :: k in kept[..j] ==> !Covers(k, c)
    {
      if Covers(kept[j], c) {
        assert kept[j] in kept;
        return true;
      }
    }
    assert kept[..|kept|] == kept;
    return false;
  }

  lemma KeepOrDrop(cp: seq<Glob>, i: nat, kept: seq<Glob>, covered: bool)
    requires i < |cp| && Sorted(cp) && Distinct(kept)
    requires forall c :: c in kept <==> c in cp[..i] && Maximal(c, cp[..i])
    requires forall c :: c in cp[..i] ==> Covered(c, kept)
    requires covered <==> Covered(cp[i], kept)
    ensures var now := if covered then kept else kept + [cp[i]];
            && Distinct(now)
            && (forall c :: c in now <==> c in cp[..i + 1] && Maximal(c, cp[..i + 1]))
            && (forall c :: c in cp[..i + 1] ==> Covered(c, now))
  {
    hide Covers, Before;
    var c := cp[i];
    assert cp[..i + 1] == cp[..i] + [c];
    forall k | k in cp[..i] && Covers(c, k)
      ensures k == c
    {
      var j :| 0 <= j < i && cp[j] == k;
      assert !Before(cp[i], cp[j]);
      if k != c {
        BroaderFirst(c, k);
      }
    }
    CoversSelf(c);
    if covered {
      var k :| k in kept && Covers(k, c);
      assert Maximal(c, cp[..i + 1]) ==> k == c;
    } else {
      forall k | k in cp[..i] && Covers(k, c)
        ensures false
      {
        var m :| m in kept && Covers(m, k);
        CoversTransitive(m, k, c);
      }
    }
  }

  lemma CoversSelf(c: Glob)
    ensures Covers(c, c)
  {
  }

  ghost predicate InSome(path: string, s: seq<Glob>) {
    exists g :: g in s && In(path, g)
  }

  /** No two of the maximal globs cover each other. */
  lemma CollapsedAntichain(globs: seq<Glob>, kept: seq<Glob>, a: Glob, b: Glob)
    requires forall c :: c in kept <==> c in globs && Maximal(c, globs)
    requires a in kept && b in kept && a != b
    ensures !Covers(a, b)
  {
  }

  /** A list that keeps a cover of everything, and nothing new, has the same paths. */
  lemma SamePaths(globs: seq<Glob>, kept: seq<Glob>, path: string)
    requires forall k :: k in kept ==> k in globs
    requires forall c :: c in globs ==> Covered(c, kept)
    ensures InSome(path, kept) <==> InSome(path, globs)
  {
    if InSome(path, globs) {
      var c :| c in globs && In(path, c);
      var k :| k in kept && Covers(k, c);
      CoversIff(k, c);
    }
  }
}
