/** Merging route patterns (mergeRouteExclusions, internal/edgeir/exclusions.go:328-388). */
module RouteMerge {
  import opened Objects
  import opened Globs

  datatype Route = Route(host: string, glob: Glob)

  predicate Over(a: Route, b: Route) {
    a.host == b.host && Covers(a.glob, b.glob)
  }

  /** The pattern matches a path of a host. */
  predicate Serves(r: Route, host: string, path: string) {
    r.host == host && In(path, r.glob)
  }

  ghost predicate SomeServes(rs: seq<Route>, host: string, path: string) {
    exists i :: 0 <= i < |rs| && Serves(rs[i], host, path)
  }

  // ----- One pattern at a time -----

  /** The first entry comparable to `c`, or the length. */
  function Hit(kept: seq<Route>, c: Route): (i: nat)
    ensures i <= |kept|
    ensures forall j :: 0 <= j < i ==> !Over(kept[j], c) && !Over(c, kept[j])
    ensures i < |kept| ==> Over(kept[i], c) || Over(c, kept[i])
  {
    if kept == [] || Over(kept[0], c) || Over(c, kept[0]) then 0 else 1 + Hit(kept[1..], c)
  }

  /** A covered pattern is dropped, a broader one replaces the first entry it covers, any other is added. */
  function Step(kept: seq<Route>, c: Route): seq<Route> {
    var i := Hit(kept, c);
    if i == |kept| then kept + [c]
    else if Over(kept[i], c) then kept
    else kept[i := c]
  }

  function Merged(all: seq<Route>): seq<Route> {
    if all == [] then [] else Step(Merged(all[..|all| - 1]), all[|all| - 1])
  }

  lemma StepServes(kept: seq<Route>, c: Route, host: string, path: string)
    ensures SomeServes(Step(kept, c), host, path) <==> SomeServes(kept, host, path) || Serves(c, host, path)
  {
    var i, now := Hit(kept, c), Step(kept, c);
    if i == |kept| {
      assert now[|kept|] == c && forall j :: 0 <= j < |kept| ==> now[j] == kept[j];
    } else if Over(kept[i], c) {
      OverServes(kept[i], c, host, path);
    } else {
      OverServes(c, kept[i], host, path);
      assert now[i] == c && forall j :: 0 <= j < |kept| && j != i ==> now[j] == kept[j];
    }
  }

  lemma OverServes(a: Route, b: Route, host: string, path: string)
    requires Over(a, b)
    ensures Serves(b, host, path) ==> Serves(a, host, path)
  {
    CoversIff(a.glob, b.glob);
  }

  /** Merging keeps, for every host, exactly the paths of the patterns. */
  lemma {:induction false} MergedServes(all: seq<Route>, host: string, path: string)
    ensures SomeServes(Merged(all), host, path) <==> SomeServes(all, host, path)
  {
    if all != [] {
      var n := |all| - 1;
      MergedServes(all[..n], host, path);
      StepServes(Merged(all[..n]), all[n], host, path);
      assert forall i :: 0 <= i < n ==> all[..n][i] == all[i];
    }
  }

  // ----- When nothing redundant remains -----

  ghost predicate Antichain(rs: seq<Route>) {
    forall i, j :: 0 <= i < |rs| && 0 <= j < |rs| && i != j ==> !Over(rs[i], rs[j])
  }

  /** An earlier entry covers a later one. */
  ghost predicate Redundant(rs: seq<Route>) {
    exists i, j :: 0 <= i < j < |rs| && Over(rs[i], rs[j])
  }

  lemma OverTransitive(a: Route, b: Route, c: Route)
    requires Over(a, b) && Over(b, c)
    ensures Over(a, c)
  {
    CoversTransitive(a.glob, b.glob, c.glob);
  }

  /** Two patterns over the same one are comparable. */
  lemma OverCommon(a: Route, b: Route, c: Route)
    requires Over(a, c) && Over(b, c)
    ensures Over(a, b) || Over(b, a)
  {
    if a.glob.isPrefix && b.glob.isPrefix {
      PrefixesMeet(a.glob.prefix, b.glob.prefix, c.glob.prefix);
    }
  }

  /** A redundant entry is never removed. */
  lemma StepStaysRedundant(kept: seq<Route>, c: Route)
    requires Redundant(kept)
    ensures Redundant(Step(kept, c))
  {
    hide Over;
    var i, j :| 0 <= i < j < |kept| && Over(kept[i], kept[j]);
    var h, now := Hit(kept, c), Step(kept, c);
    if h == |kept| {
      assert now[i] == kept[i] && now[j] == kept[j];
    } else if !Over(kept[h], c) {
      assert Over(c, kept[h]);
      if h == i {
        OverTransitive(c, kept[i], kept[j]);
        assert now[i] == c && now[j] == kept[j];
      } else if h == j {
        OverCommon(kept[i], c, kept[j]);
      } else {
        assert now[i] == kept[i] && now[j] == kept[j];
      }
    }
  }

  /** The new pattern covers two entries. */
  ghost predicate CoversTwo(kept: seq<Route>, c: Route) {
    exists i, j :: 0 <= i < j < |kept| && Over(c, kept[i]) && Over(c, kept[j])
  }

  lemma StepRedundant(kept: seq<Route>, c: Route)
    requires Antichain(kept) && CoversTwo(kept, c) && forall k :: 0 <= k < |kept| ==> !Over(kept[k], c)
    ensures Redundant(Step(kept, c))
  {
    hide Over;
    var i, j :| 0 <= i < j < |kept| && Over(c, kept[i]) && Over(c, kept[j]);
    var h, now := Hit(kept, c), Step(kept, c);
    assert h <= i && now[h] == c && now[j] == kept[j];
  }

  lemma StepAntichain(kept: seq<Route>, c: Route)
    requires Antichain(kept)
    requires !CoversTwo(kept, c) || exists k :: 0 <= k < |kept| && Over(kept[k], c)
    ensures Antichain(Step(kept, c))
  {
    hide Over;
    var h, now := Hit(kept, c), Step(kept, c);
    if h < |kept| && !Over(kept[h], c) {
      forall k | 0 <= k < |kept| && k != h
        ensures !Over(kept[k], c)
      {
        if Over(kept[k], c) {
          OverTransitive(kept[k], c, kept[h]);
        }
      }
      assert forall k :: 0 <= k < |kept| && k != h ==> !Over(c, kept[k]);
      assert forall k :: 0 <= k < |kept| && k != h ==> now[k] == kept[k];
    } else if h == |kept| {
      assert now == kept + [c];
    }
  }

  // ----- The same in terms of the patterns given -----

  ghost predicate Under(c: Route, rs: seq<Route>) {
    exists i :: 0 <= i < |rs| && Over(rs[i], c)
  }

  /** Some pattern of the list lies under `c` and over both `a` and `b`. */
  ghost predicate Bridged(rs: seq<Route>, c: Route, a: Route, b: Route) {
    exists i :: 0 <= i < |rs| && Over(c, rs[i]) && Over(rs[i], a) && Over(rs[i], b)
  }

  /** The pattern is covered already, or those it covers have a broadest one among them. */
  ghost predicate Gathered(earlier: seq<Route>, c: Route) {
    Under(c, earlier) ||
    forall i, j :: 0 <= i < |earlier| && 0 <= j < |earlier| && Over(c, earlier[i]) && Over(c, earlier[j]) ==>
      Bridged(earlier, c, earlier[i], earlier[j])
  }

  ghost predicate Mergeable(all: seq<Route>) {
    all == [] || (Mergeable(all[..|all| - 1]) && Gathered(all[..|all| - 1], all[|all| - 1]))
  }

  ghost predicate Among(c: Route, rs: seq<Route>) {
    exists i :: 0 <= i < |rs| && rs[i] == c
  }

  /** Entries are patterns given, and every pattern given is under an entry. */
  ghost predicate Represents(kept: seq<Route>, all: seq<Route>) {
    && (forall k :: 0 <= k < |kept| ==> Among(kept[k], all))
    && (forall i :: 0 <= i < |all| ==> Under(all[i], kept))
  }

  lemma {:induction false} MergedRepresents(all: seq<Route>)
    ensures Represents(Merged(all), all)
  {
    hide Over, Represents, Step;
    if all == [] {
      NothingRepresents();
    } else {
      var n := |all| - 1;
      MergedRepresents(all[..n]);
      StepRepresents(Merged(all[..n]), all[..n], all[n]);
      assert all[..n] + [all[n]] == all;
    }
  }

  lemma NothingRepresents()
    ensures Represents([], [])
  {
  }

  lemma StepRepresents(kept: seq<Route>, all: seq<Route>, c: Route)
    requires Represents(kept, all)
    ensures Represents(Step(kept, c), all + [c])
  {
    hide Over, Step;
    forall i | 0 <= i < |all| + 1
      ensures Under((all + [c])[i], Step(kept, c))
    {
      if i < |all| {
        StepUnder(kept, c, all[i]);
      } else {
        StepTakes(kept, c);
      }
    }
    forall k | 0 <= k < |Step(kept, c)|
      ensures Among(Step(kept, c)[k], all + [c])
    {
      StepFrom(kept, c, k);
      if Step(kept, c)[k] != c {
        assert Among(kept[k], all);
        var i :| 0 <= i < |all| && all[i] == kept[k];
        assert (all + [c])[i] == kept[k];
      } else {
        assert (all + [c])[|all|] == c;
      }
    }
  }

  lemma StepUnder(kept: seq<Route>, c: Route, r: Route)
    requires Under(r, kept)
    ensures Under(r, Step(kept, c))
  {
    hide Over;
    var k :| 0 <= k < |kept| && Over(kept[k], r);
    var h, now := Hit(kept, c), Step(kept, c);
    if h < |kept| && !Over(kept[h], c) && k == h {
      OverTransitive(c, kept[h], r);
      assert now[h] == c;
    } else {
      assert now[k] == kept[k];
    }
  }

  lemma StepTakes(kept: seq<Route>, c: Route)
    ensures Under(c, Step(kept, c))
  {
    hide Over;
    OverSelf(c);
    var h := Hit(kept, c);
    assert Over(Step(kept, c)[h], c);
  }

  lemma StepFrom(kept: seq<Route>, c: Route, k: nat)
    requires k < |Step(kept, c)|
    ensures Step(kept, c)[k] == c || (k < |kept| && Step(kept, c)[k] == kept[k])
  {
    hide Over;
  }

  lemma OverSelf(c: Route)
    ensures Over(c, c)
  {
    CoversSelf(c.glob);
  }

  lemma SameUnder(kept: seq<Route>, all: seq<Route>, c: Route)
    requires Represents(kept, all)
    ensures Under(c, kept) <==> Under(c, all)
  {
    hide Over, Represents;
    if Under(c, all) {
      var i :| 0 <= i < |all| && Over(all[i], c);
      RepresentsOver(kept, all, i);
      var k :| 0 <= k < |kept| && Over(kept[k], all[i]);
      OverTransitive(kept[k], all[i], c);
    }
    if Under(c, kept) {
      var k :| 0 <= k < |kept| && Over(kept[k], c);
      RepresentsFrom(kept, all, k);
      var i :| 0 <= i < |all| && all[i] == kept[k];
    }
  }

  /** With no redundant entry so far, the next pattern covers two entries exactly when the patterns it
      covers have no broadest one. */
  lemma GatheredIff(kept: seq<Route>, all: seq<Route>, c: Route)
    requires Represents(kept, all) && Antichain(kept) && !Under(c, all)
    ensures Gathered(all, c) <==> !CoversTwo(kept, c)
  {
    hide Over, Represents, Antichain;
    if CoversTwo(kept, c) {
      NotGathered(kept, all, c);
    } else {
      forall i, j | 0 <= i < |all| && 0 <= j < |all| && Over(c, all[i]) && Over(c, all[j])
        ensures Bridged(all, c, all[i], all[j])
      {
        BridgeFound(kept, all, c, i, j);
      }
    }
  }

  lemma NotGathered(kept: seq<Route>, all: seq<Route>, c: Route)
    requires Represents(kept, all) && Antichain(kept) && !Under(c, all) && CoversTwo(kept, c)
    ensures !Gathered(all, c)
  {
    hide Over, Represents;
    var x, y :| 0 <= x < y < |kept| && Over(c, kept[x]) && Over(c, kept[y]);
    RepresentsFrom(kept, all, x);
    RepresentsFrom(kept, all, y);
    var i :| 0 <= i < |all| && all[i] == kept[x];
    var j :| 0 <= j < |all| && all[j] == kept[y];
    if Bridged(all, c, all[i], all[j]) {
      var m :| 0 <= m < |all| && Over(c, all[m]) && Over(all[m], kept[x]) && Over(all[m], kept[y]);
      RepresentsOver(kept, all, m);
      var k :| 0 <= k < |kept| && Over(kept[k], all[m]);
      OverTransitive(kept[k], all[m], kept[x]);
      OverTransitive(kept[k], all[m], kept[y]);
    }
  }

  lemma BridgeFound(kept: seq<Route>, all: seq<Route>, c: Route, i: nat, j: nat)
    requires Represents(kept, all) && !Under(c, all) && !CoversTwo(kept, c)
    requires i < |all| && j < |all| && Over(c, all[i]) && Over(c, all[j])
    ensures Bridged(all, c, all[i], all[j])
  {
    hide Over, Represents;
    SameUnder(kept, all, c);
    RepresentsOver(kept, all, i);
    RepresentsOver(kept, all, j);
    var x :| 0 <= x < |kept| && Over(kept[x], all[i]);
    var y :| 0 <= y < |kept| && Over(kept[y], all[j]);
    OverCommon(kept[x], c, all[i]);
    OverCommon(kept[y], c, all[j]);
    assert x == y;
    RepresentsFrom(kept, all, x);
    var m :| 0 <= m < |all| && all[m] == kept[x];
  }

  lemma RepresentsOver(kept: seq<Route>, all: seq<Route>, i: nat)
    requires Represents(kept, all) && i < |all|
    ensures exists k :: 0 <= k < |kept| && Over(kept[k], all[i])
  {
    hide Over;
    assert Under(all[i], kept);
  }

  lemma RepresentsFrom(kept: seq<Route>, all: seq<Route>, k: nat)
    requires Represents(kept, all) && k < |kept|
    ensures exists i :: 0 <= i < |all| && all[i] == kept[k]
  {
    hide Over;
    assert Among(kept[k], all);
  }

  lemma {:induction false} AntichainOrRedundant(all: seq<Route>)
    ensures Antichain(Merged(all)) || Redundant(Merged(all))
    ensures Antichain(Merged(all)) <==> Mergeable(all)
  {
    hide Antichain, Redundant, Gathered, Step, CoversTwo, Under;
    if all == [] {
      NothingRedundant();
    } else {
      var n := |all| - 1;
      var kept, c := Merged(all[..n]), all[n];
      AntichainOrRedundant(all[..n]);
      MergedRepresents(all[..n]);
      if Antichain(kept) {
        SameUnder(kept, all[..n], c);
        MergeStep(kept, all[..n], c);
      } else {
        StepStaysRedundant(kept, c);
        RedundantNot(Step(kept, c));
      }
    }
  }

  lemma NothingRedundant()
    ensures Antichain([])
  {
  }

  lemma RedundantNot(rs: seq<Route>)
    requires Redundant(rs)
    ensures !Antichain(rs)
  {
  }

  lemma MergeStep(kept: seq<Route>, all: seq<Route>, c: Route)
    requires Represents(kept, all) && Antichain(kept) && (Under(c, kept) <==> Under(c, all))
    ensures Antichain(Step(kept, c)) || Redundant(Step(kept, c))
    ensures Antichain(Step(kept, c)) <==> Gathered(all, c)
  {
    hide Over, Antichain, Redundant, Step, CoversTwo, Represents, Bridged;
    if Under(c, all) {
      StepAntichain(kept, c);
    } else {
      GatheredIff(kept, all, c);
      if CoversTwo(kept, c) {
        StepRedundant(kept, c);
        RedundantNot(Step(kept, c));
      } else {
        StepAntichain(kept, c);
      }
    }
  }

  /** No pattern of the result covers another one exactly when every pattern given is covered already or
      finds, among the earlier ones it covers, a broadest. */
  lemma MinimalIff(all: seq<Route>)
    ensures Antichain(Merged(all)) <==> Mergeable(all)
  {
    AntichainOrRedundant(all);
  }

  /** The pattern /a* after /a/x and /a/y leaves /a/y in place. */
  lemma NotMinimal(host: string)
    ensures var x, y, a := Route(host, Glob("/a/x", false)), Route(host, Glob("/a/y", false)), Route(host, Glob("/a", true));
            Merged([x, y, a]) == [a, y] && Over(a, y)
  {
    var x, y, a := Route(host, Glob("/a/x", false)), Route(host, Glob("/a/y", false)), Route(host, Glob("/a", true));
    assert !Over(x, y) && !Over(y, x) && Over(a, x) && Over(a, y) && !Over(x, a) by {
      assert "/a/x"[3] != "/a/y"[3];
      assert "/a/x"[..2] == "/a" && "/a/y"[..2] == "/a";
    }
    hide Over;
    assert [x, y, a][..2] == [x, y] && [x, y][..1] == [x] && [x][..0] == [];
    assert Merged([x]) == Step([], x) == [x];
    assert [x][1..] == [] && Hit([x], y) == 1;
    assert Merged([x, y]) == Step([x], y) == [x, y];
    assert Hit([x, y], a) == 0;
    assert Step([x, y], a) == [a, y];
  }

  // ----- On pattern texts -----

  /** The patterns that can be read, each text once. */
  function RoutesOf(ps: seq<string>): seq<Route> {
    if ps == [] then []
    else
      var n := |ps| - 1;
      if ps[n] in ps[..n] || SplitRoute(ps[n]).None? then RoutesOf(ps[..n])
      else RoutesOf(ps[..n]) + [RouteOf(ps[n])]
  }

  function RouteOf(p: string): Route
    requires SplitRoute(p).Some?
  {
    var (h, g) := SplitRoute(p).value;
    Route(h, g)
  }

  predicate TextServes(p: string, host: string, path: string) {
    SplitRoute(p).Some? && Serves(RouteOf(p), host, path)
  }

  ghost predicate TextsServe(ps: seq<string>, host: string, path: string) {
    exists p :: p in ps && TextServes(p, host, path)
  }

  function Text(r: Route): string {
    r.host + GlobString(r.glob)
  }

  function Texts(rs: seq<Route>): (r: seq<string>)
    ensures |r| == |rs| && forall i :: 0 <= i < |rs| ==> r[i] == Text(rs[i])
  {
    seq(|rs|, i requires 0 <= i < |rs| => Text(rs[i]))
  }

  predicate Readable(r: Route) {
    IsHost(r.host) && Writable(r.glob)
  }

  lemma {:induction false} RoutesServe(ps: seq<string>, host: string, path: string)
    ensures SomeServes(RoutesOf(ps), host, path) <==> TextsServe(ps, host, path)
  {
    hide SplitRoute, SomeServes, TextsServe, Serves;
    if ps == [] {
      NoneServe(host, path);
    } else {
      var n := |ps| - 1;
      RoutesServe(ps[..n], host, path);
      assert ps == ps[..n] + [ps[n]];
      TextsServeMore(ps[..n], ps[n], host, path);
      if SplitRoute(ps[n]).Some? {
        SomeServesMore(RoutesOf(ps[..n]), RouteOf(ps[n]), host, path);
      }
    }
  }

  lemma NoneServe(host: string, path: string)
    ensures !SomeServes([], host, path) && !TextsServe([], host, path)
  {
  }

  lemma SomeServesMore(rs: seq<Route>, r: Route, host: string, path: string)
    ensures SomeServes(rs + [r], host, path) <==> SomeServes(rs, host, path) || Serves(r, host, path)
  {
    hide Serves;
    assert (rs + [r])[|rs|] == r && forall i :: 0 <= i < |rs| ==> (rs + [r])[i] == rs[i];
  }

  lemma TextsServeMore(ps: seq<string>, p: string, host: string, path: string)
    ensures TextsServe(ps + [p], host, path) <==> TextsServe(ps, host, path) || TextServes(p, host, path)
    ensures p in ps && TextServes(p, host, path) ==> TextsServe(ps, host, path)
  {
    hide TextServes;
    if TextServes(p, host, path) {
      assert p in ps + [p];
    }
  }

  lemma {:induction false} RoutesReadable(ps: seq<string>)
    ensures forall i :: 0 <= i < |RoutesOf(ps)| ==> Readable(RoutesOf(ps)[i])
  {
    hide SplitRoute, Readable;
    if ps != [] {
      RoutesReadable(ps[..|ps| - 1]);
      if SplitRoute(ps[|ps| - 1]).Some? {
        ReadableRoute(ps[|ps| - 1]);
      }
    }
  }

  lemma ReadableRoute(p: string)
    requires SplitRoute(p).Some?
    ensures Readable(RouteOf(p))
  {
    SplitForm(p);
  }

  lemma ReadBack(r: Route)
    requires Readable(r)
    ensures SplitRoute(Text(r)).Some? && RouteOf(Text(r)) == r
  {
    SplitRoundTrip(r.host, r.glob);
  }

  lemma TextsRead(rs: seq<Route>, out: seq<string>, host: string, path: string)
    requires forall i :: 0 <= i < |rs| ==> Readable(rs[i])
    requires forall p :: p in out <==> p in Texts(rs)
    ensures TextsServe(out, host, path) <==> SomeServes(rs, host, path)
  {
    hide SplitRoute, In, Readable;
    forall i | 0 <= i < |rs|
      ensures SplitRoute(Text(rs[i])).Some? && RouteOf(Text(rs[i])) == rs[i]
    {
      ReadBack(rs[i]);
    }
    if SomeServes(rs, host, path) {
      var i :| 0 <= i < |rs| && Serves(rs[i], host, path);
      assert Texts(rs)[i] in out && TextServes(Texts(rs)[i], host, path);
    }
  }

  // ----- Sorted texts -----

  function InsertText(t: string, s: seq<string>): (r: seq<string>)
    ensures forall x :: x in r <==> x == t || x in s
  {
    if s == [] || Less(t, s[0]) then [t] + s else [s[0]] + InsertText(t, s[1..])
  }

  function SortTexts(s: seq<string>): (r: seq<string>)
    ensures forall x :: x in r <==> x in s
  {
    if s == [] then [] else InsertText(s[0], SortTexts(s[1..]))
  }

  /** In order, equal texts next to each other. */
  predicate Ordered(s: seq<string>) {
    forall i, j :: 0 <= i < j < |s| ==> !Less(s[j], s[i])
  }

  /** In order and without repeats. */
  predicate Ascending(s: seq<string>) {
    forall i, j :: 0 <= i < j < |s| ==> Less(s[i], s[j])
  }

  predicate NoRepeats(s: seq<string>) {
    forall i, j :: 0 <= i < j < |s| ==> s[i] != s[j]
  }

  lemma NotLess(a: string, b: string, c: string)
    requires !Less(b, a) && !Less(c, b)
    ensures !Less(c, a)
  {
    hide Less;
    LessTotal(a, b);
    LessTotal(b, c);
    LessTotal(a, c);
    if Less(a, b) && Less(b, c) {
      LessTransitive(a, b, c);
    }
  }

  lemma {:induction false} InsertOrdered(t: string, s: seq<string>)
    requires Ordered(s)
    ensures Ordered(InsertText(t, s)) && multiset(InsertText(t, s)) == multiset(s) + multiset{t}
  {
    hide Less;
    if s == [] {
    } else if Less(t, s[0]) {
      LessTotal(t, s[0]);
      forall j | 0 <= j < |s|
        ensures !Less(s[j], t)
      {
        if j > 0 {
          NotLess(t, s[0], s[j]);
        }
      }
    } else {
      assert s == [s[0]] + s[1..];
      InsertOrdered(t, s[1..]);
      var r := InsertText(t, s[1..]);
      forall j | 0 <= j < |r|
        ensures !Less(r[j], s[0])
      {
        assert r[j] in r;
      }
    }
  }

  /** Sorting orders the texts and keeps each as often as it was there. */
  lemma {:induction false} SortOrdered(s: seq<string>)
    ensures Ordered(SortTexts(s)) && multiset(SortTexts(s)) == multiset(s)
  {
    if s != [] {
      SortOrdered(s[1..]);
      InsertOrdered(s[0], SortTexts(s[1..]));
      assert s == [s[0]] + s[1..];
    }
  }

  lemma {:induction false} InsertAscending(t: string, s: seq<string>)
    requires Ascending(s) && t !in s
    ensures Ascending(InsertText(t, s))
  {
    hide Less;
    if s == [] {
    } else {
      LessTotal(t, s[0]);
      if Less(t, s[0]) {
        forall j | 0 < j < |s|
          ensures Less(t, s[j])
        {
          LessTransitive(t, s[0], s[j]);
        }
      } else {
        InsertAscending(t, s[1..]);
        var r := InsertText(t, s[1..]);
        forall j | 0 <= j < |r|
          ensures Less(s[0], r[j])
        {
          assert r[j] in r;
        }
      }
    }
  }

  lemma {:induction false} SortAscending(s: seq<string>)
    requires NoRepeats(s)
    ensures Ascending(SortTexts(s))
  {
    if s != [] {
      SortAscending(s[1..]);
      InsertAscending(s[0], SortTexts(s[1..]));
    }
  }

  // ----- The program -----

  /** Collects, merges in place and writes the patterns out. */
  method MergeRouteExclusions(auto: seq<string>, explicit: seq<string>) returns (out: seq<string>)
    ensures multiset(out) == multiset(Texts(Merged(RoutesOf(auto + explicit)))) && Ordered(out)
    ensures forall host, path :: TextsServe(out, host, path) <==> TextsServe(auto + explicit, host, path)
  {
    hide SplitRoute, Merged, In, TextServes, Serves;
    var ps := auto + explicit;
    var all := Collect(ps);
    var kept := [];
    EmptyMerge();
    for i := 0 to |all|
      invariant kept == Merged(all[..i])
    {
      MergedStep(all, i);
      kept := MergeOne(kept, all[i]);
    }
    assert all[..|all|] == all;
    out := SortTexts(Texts(kept));
    SortOrdered(Texts(kept));
    forall host, path
      ensures TextsServe(out, host, path) <==> TextsServe(ps, host, path)
    {
      RoutesServe(ps, host, path);
      MergedServes(all, host, path);
      MergedReadable(ps);
      TextsRead(kept, out, host, path);
    }
  }

  method Collect(ps: seq<string>) returns (all: seq<Route>)
    ensures all == RoutesOf(ps)
  {
    hide SplitRoute;
    all := [];
    var seen: set<string> := {};
    for i := 0 to |ps|
      invariant all == RoutesOf(ps[..i])
      invariant forall p :: p in seen <==> p in ps[..i]
    {
      CollectStep(ps, i);
      if ps[i] !in seen {
        seen := seen + {ps[i]};
        if SplitRoute(ps[i]).Some? {
          all := all + [RouteOf(ps[i])];
        }
      }
    }
    assert ps[..|ps|] == ps;
  }

  lemma CollectStep(ps: seq<string>, i: nat)
    requires i < |ps|
    ensures ps[..i + 1] == ps[..i] + [ps[i]]
    ensures RoutesOf(ps[..i + 1]) ==
            if ps[i] in ps[..i] || SplitRoute(ps[i]).None? then RoutesOf(ps[..i])
            else RoutesOf(ps[..i]) + [RouteOf(ps[i])]
  {
    hide SplitRoute;
    assert ps[..i + 1][..i] == ps[..i];
  }

  /** The inner loop: the first comparable entry decides. */
  method MergeOne(kept: seq<Route>, c: Route) returns (now: seq<Route>)
    ensures now == Step(kept, c)
  {
    hide Over;
    for i := 0 to |kept|
      invariant forall j :: 0 <= j < i ==> !Over(kept[j], c) && !Over(c, kept[j])
    {
      if Over(kept[i], c) {
        HitAt(kept, c, i);
        return kept;
      }
      if Over(c, kept[i]) {
        HitAt(kept, c, i);
        return kept[i := c];
      }
    }
    now := kept + [c];
  }

  lemma HitAt(kept: seq<Route>, c: Route, i: nat)
    requires i < |kept| && forall j :: 0 <= j < i ==> !Over(kept[j], c) && !Over(c, kept[j])
    requires Over(kept[i], c) || Over(c, kept[i])
    ensures Hit(kept, c) == i
  {
    hide Over;
    var h := Hit(kept, c);
  }

  lemma EmptyMerge()
    ensures Merged([]) == []
  {
  }

  lemma MergedStep(all: seq<Route>, i: nat)
    requires i < |all|
    ensures Merged(all[..i + 1]) == Step(Merged(all[..i]), all[i])
  {
    hide Step;
    assert all[..i + 1][..i] == all[..i];
  }

  lemma MergedReadable(ps: seq<string>)
    ensures var kept := Merged(RoutesOf(ps)); forall i :: 0 <= i < |kept| ==> Readable(kept[i])
  {
    hide Readable, Merged, RoutesOf;
    RoutesReadable(ps);
    var all := RoutesOf(ps);
    MergedRepresents(all);
    forall i | 0 <= i < |Merged(all)|
      ensures Readable(Merged(all)[i])
    {
      RepresentsFrom(Merged(all), all, i);
    }
  }
}
