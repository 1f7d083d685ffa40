/** Every run of reloads: each reload takes warm stores over, and the old configuration is torn down some
    time later, in any order with further reloads (internal/server/server.go:1083-1122). */
module ReloadRuns {
  import opened Objects
  import opened Reload

  /** A replaced configuration waiting to be closed, and the stores it must leave alone. */
  datatype Teardown = Teardown(sites: seq<Site>, tempDirs: seq<Dir>, keep: set<nat>)

  /** All stores ever made, the directories on disk, the live configuration, what is to be torn down, and the
      stores some reload has carried over. */
  datatype State = State(stores: Stores, dirs: set<Dir>, sites: seq<Site>, tempDirs: seq<Dir>, pending: seq<Teardown>,
                         carried: set<nat>)

  /** A freshly loaded configuration: its sites, the stores opened for them and its scratch directories. */
  datatype Loaded = Loaded(sites: seq<Site>, stores: Stores, tempDirs: seq<Dir>)

  datatype Step = Reload(next: Loaded) | Refuse(next: Loaded) | Finish(i: nat) | Serve(id: nat, content: map<string, Object>)

  function DirsOf(st: Stores): set<Dir> {
    set id | id in st :: st[id].dir
  }

  /** Loading opens a store of its own for each site, and a new scratch directory where none is
      configured. */
  ghost predicate Fresh(s: State, n: Loaded) {
    && (forall id :: id in n.stores ==> id !in s.stores && n.stores[id].open)
    && (forall id :: id in n.stores <==> id in Ids(n.sites))
    && (forall i, j :: 0 <= i < j < |n.sites| ==> n.sites[i].store != n.sites[j].store || n.sites[i].store.None?)
    && (forall d :: d in n.tempDirs <==> d.Scratch? && d in DirsOf(n.stores))
    && (forall d :: d in n.tempDirs ==> d !in DirsOf(s.stores) && d !in s.dirs)
    && UniqueScratch(n.stores)
  }

  ghost predicate UniqueScratch(st: Stores) {
    forall x, y :: x in st && y in st && st[x].dir == st[y].dir && st[x].dir.Scratch? ==> x == y
  }

  function Reloaded(s: State, n: Loaded): State {
    var all := s.stores + n.stores;
    var gone := Orphaned(s.sites, n.sites, all);
    var sites := AllSettled(s.sites, n.sites);
    State(SettleStores(s.sites, n.sites, all),
          s.dirs + DirsOf(n.stores) - Those(n.tempDirs, gone),
          sites,
          Without(n.tempDirs, gone),
          s.pending + [Teardown(s.sites, s.tempDirs, Ids(sites))],
          s.carried + Ids(sites) * Ids(s.sites))
  }

  function Refused(s: State, n: Loaded): State {
    s.(stores := ClosedExcept(s.stores + n.stores, n.sites, {}),
       dirs := s.dirs + DirsOf(n.stores) - (set d | d in n.tempDirs))
  }

  function Finished(s: State, i: nat): State
    requires i < |s.pending|
  {
    var p := s.pending[i];
    s.(stores := ClosedExcept(s.stores, p.sites, p.keep),
       dirs := s.dirs - ((set d | d in p.tempDirs) - Preserved(s.stores, p.sites, p.keep)),
       pending := s.pending[..i] + s.pending[i + 1..])
  }

  /** Requests change what an open store holds. */
  function Served(s: State, id: nat, content: map<string, Object>): State
    requires id in s.stores
  {
    s.(stores := s.stores[id := s.stores[id].(content := content)])
  }

  ghost predicate Enabled(s: State, step: Step) {
    match step
    case Serve(id, _) => id in s.stores && s.stores[id].open
    case Reload(n) => Fresh(s, n)
    case Refuse(n) => Fresh(s, n)
    case Finish(i) => i < |s.pending|
  }

  ghost function Next(s: State, step: Step): State
    requires Enabled(s, step)
  {
    match step
    case Serve(id, content) => Served(s, id, content)
    case Reload(n) => Reloaded(s, n)
    case Refuse(n) => Refused(s, n)
    case Finish(i) => Finished(s, i)
  }

  // ----- The invariant -----

  ghost predicate LiveOk(s: State) {
    forall id :: id in Ids(s.sites) ==> id in s.stores && s.stores[id].open && s.stores[id].dir in s.dirs
  }

  /** The stores a teardown will close. */
  function Doomed(p: Teardown): set<nat> {
    Ids(p.sites) - p.keep
  }

  /** What a teardown will close is known and not live. */
  ghost predicate PendingOk(s: State) {
    forall p :: p in s.pending ==> Ids(p.sites) <= s.stores.Keys && Doomed(p) !! Ids(s.sites)
  }

  ghost predicate Awaits(s: State, id: nat) {
    exists p :: p in s.pending && id in Doomed(p)
  }

  /** A store that is not live is closed or about to be. */
  ghost predicate Accounted(s: State) {
    forall id :: id in s.stores ==> id in Ids(s.sites) || !s.stores[id].open || Awaits(s, id)
  }

  /** Scratch directories belong to stores of the same configuration. */
  ghost predicate Owned(dirs: seq<Dir>, sites: seq<Site>, st: Stores) {
    forall d :: d in dirs ==> d.Scratch? && exists id :: id in Ids(sites) && id in st && st[id].dir == d
  }

  ghost predicate DirsOwned(s: State) {
    Owned(s.tempDirs, s.sites, s.stores) && forall p :: p in s.pending ==> Owned(p.tempDirs, p.sites, s.stores)
  }

  ghost predicate Inv(s: State) {
    LiveOk(s) && PendingOk(s) && Accounted(s) && DirsOwned(s) && UniqueScratch(s.stores)
  }

  // ----- Settling, in closed form -----

  /** A cold store that gives way to a warm one. */
  ghost predicate Replaced(prior: seq<Site>, next: seq<Site>, id: nat) {
    exists i :: 0 <= i < |next| && Carried(prior, next[i]) && next[i].store == Some(id)
  }

  lemma {:induction false} SettledOpen(prior: seq<Site>, next: seq<Site>, st: Stores, id: nat)
    requires id in st
    ensures id in SettleStores(prior, next, st)
    ensures SettleStores(prior, next, st)[id].dir == st[id].dir
    ensures SettleStores(prior, next, st)[id].open == (st[id].open && !Replaced(prior, next, id))
  {
    hide Carried, Flushed;
    if next != [] {
      var n := |next| - 1;
      SettledOpen(prior, next[..n], st, id);
      CarriedStore(prior, next[n]);
      FlushedStore(prior, next[n]);
      ReplacedMore(prior, next, id);
    }
  }

  lemma FlushedStore(prior: seq<Site>, s: Site)
    ensures Flushed(prior, s) ==> s.store.Some?
    ensures Flushed(prior, s) ==> !Carried(prior, s)
  {
  }

  lemma ReplacedMore(prior: seq<Site>, next: seq<Site>, id: nat)
    requires next != []
    ensures var n := |next| - 1;
            Replaced(prior, next, id) <==> Replaced(prior, next[..n], id) || (Carried(prior, next[n]) && next[n].store == Some(id))
  {
    hide Carried;
    var n := |next| - 1;
    assert forall i :: 0 <= i < n ==> next[..n][i] == next[i];
  }

  lemma IdsAt(sites: seq<Site>, id: nat) returns (i: nat)
    requires id in Ids(sites)
    ensures i < |sites| && sites[i].store == Some(id)
  {
    i :| 0 <= i < |sites| && sites[i].store.Some? && sites[i].store.value == id;
  }

  lemma AtIds(sites: seq<Site>, i: nat)
    requires i < |sites| && sites[i].store.Some?
    ensures sites[i].store.value in Ids(sites)
  {
  }

  /** A live store after a reload is a live one from before, or a fresh one that was not replaced. */
  lemma LiveAfter(s: State, n: Loaded, id: nat)
    requires Fresh(s, n) && id in Ids(AllSettled(s.sites, n.sites))
    ensures id in Ids(s.sites) || (id in n.stores && !Replaced(s.sites, n.sites, id))
  {
    hide Carried, DirsOf, UniqueScratch, Ids;
    var sites := AllSettled(s.sites, n.sites);
    var i := IdsAt(sites, id);
    if Carried(s.sites, n.sites[i]) {
      CarriedFrom(s.sites, n.sites[i]);
    } else {
      AtIds(n.sites, i);
      assert forall j :: 0 <= j < |n.sites| && n.sites[j].store == Some(id) ==> j == i;
    }
  }

  lemma CarriedFrom(prior: seq<Site>, s: Site)
    requires Carried(prior, s)
    ensures Settled(prior, s).store.Some? && Settled(prior, s).store.value in Ids(prior)
  {
    var p := Previous(prior, s.host).value;
    var i :| 0 <= i < |prior| && prior[i] == p;
  }

  /** A fresh store that is not replaced is live. */
  lemma FreshAfter(s: State, n: Loaded, id: nat)
    requires Fresh(s, n) && id in n.stores && !Replaced(s.sites, n.sites, id)
    ensures id in Ids(AllSettled(s.sites, n.sites))
  {
    hide Carried, DirsOf, UniqueScratch, Ids;
    var i := IdsAt(n.sites, id);
    var sites := AllSettled(s.sites, n.sites);
    assert sites[i] == n.sites[i];
    AtIds(sites, i);
  }

  // ----- Reload keeps the invariant -----

  lemma ReloadLive(s: State, n: Loaded)
    requires Inv(s) && Fresh(s, n)
    ensures LiveOk(Reloaded(s, n))
  {
    hide Carried, SettleStores, Ids, Replaced, Accounted, PendingOk, DirsOwned, Orphaned;
    var t := Reloaded(s, n);
    var all := s.stores + n.stores;
    forall id | id in Ids(t.sites)
      ensures id in t.stores && t.stores[id].open && t.stores[id].dir in t.dirs
    {
      LiveAfter(s, n, id);
      SettledOpen(s.sites, n.sites, all, id);
      if id in Ids(s.sites) {
        NotReplaced(s, n, id);
        assert s.stores[id].dir in DirsOf(s.stores);
      } else {
        assert n.stores[id].dir in DirsOf(n.stores);
        DirStays(s, n, id);
      }
    }
  }

  lemma NotReplaced(s: State, n: Loaded, id: nat)
    requires Fresh(s, n) && id in s.stores
    ensures !Replaced(s.sites, n.sites, id)
  {
    hide Carried, DirsOf, UniqueScratch;
    if Replaced(s.sites, n.sites, id) {
      var i :| 0 <= i < |n.sites| && Carried(s.sites, n.sites[i]) && n.sites[i].store == Some(id);
      AtIds(n.sites, i);
    }
  }

  lemma DirStays(s: State, n: Loaded, id: nat)
    requires Fresh(s, n) && id in n.stores && !Replaced(s.sites, n.sites, id)
    ensures n.stores[id].dir !in Those(n.tempDirs, Orphaned(s.sites, n.sites, s.stores + n.stores))
  {
    hide Carried, Orphaned;
    var all := s.stores + n.stores;
    var d := n.stores[id].dir;
    if d in Orphaned(s.sites, n.sites, all) && d in n.tempDirs {
      var i := OrphanAt(s.sites, n.sites, all, d);
      AtIds(n.sites, i);
    }
  }

  lemma OrphanAt(prior: seq<Site>, next: seq<Site>, st: Stores, d: Dir) returns (i: nat)
    requires d in Orphaned(prior, next, st)
    ensures i < |next| && Carried(prior, next[i]) && next[i].store.Some?
    ensures next[i].store.value in st && st[next[i].store.value].dir == d
  {
    i :| 0 <= i < |next| && Carried(prior, next[i]) && next[i].store.value in st && st[next[i].store.value].dir == d;
  }

  lemma ReloadPending(s: State, n: Loaded)
    requires Inv(s) && Fresh(s, n)
    ensures PendingOk(Reloaded(s, n))
  {
    hide Carried, SettleStores, Ids, Replaced, Accounted, DirsOwned, Orphaned, Without, Those, DirsOf, UniqueScratch;
    var t := Reloaded(s, n);
    forall p | p in t.pending
      ensures Ids(p.sites) <= t.stores.Keys && Doomed(p) !! Ids(t.sites)
    {
      forall id | id in Ids(p.sites)
        ensures id in t.stores
      {
        assert p in s.pending ==> Ids(p.sites) <= s.stores.Keys;
        SettledOpen(s.sites, n.sites, s.stores + n.stores, id);
      }
      forall id | id in Doomed(p)
        ensures id !in Ids(t.sites)
      {
        assert p in s.pending ==> Doomed(p) !! Ids(s.sites);
        if id in Ids(t.sites) {
          LiveAfter(s, n, id);
        }
      }
    }
  }

  lemma ReloadAccounted(s: State, n: Loaded)
    requires Inv(s) && Fresh(s, n)
    ensures Accounted(Reloaded(s, n))
  {
    hide Carried, SettleStores, Ids, Replaced, DirsOwned, Orphaned, Without, Those, DirsOf, UniqueScratch, LiveOk, PendingOk;
    var t := Reloaded(s, n);
    var all := s.stores + n.stores;
    var last := Teardown(s.sites, s.tempDirs, Ids(t.sites));
    forall id | id in t.stores
      ensures id in Ids(t.sites) || !t.stores[id].open || Awaits(t, id)
    {
      DirKept(s.sites, n.sites, all, id);
      SettledOpen(s.sites, n.sites, all, id);
      if id in n.stores {
        if !Replaced(s.sites, n.sites, id) {
          FreshAfter(s, n, id);
        }
      } else if id in Ids(s.sites) {
        assert last in t.pending;
      } else if Awaits(s, id) {
        var p :| p in s.pending && id in Doomed(p);
        assert p in t.pending;
      }
    }
  }

  lemma ReloadDirs(s: State, n: Loaded)
    requires Inv(s) && Fresh(s, n)
    ensures DirsOwned(Reloaded(s, n)) && UniqueScratch(Reloaded(s, n).stores)
  {
    hide Carried, SettleStores, Ids, Replaced, LiveOk, PendingOk, Accounted, Orphaned;
    var t := Reloaded(s, n);
    var all := s.stores + n.stores;
    forall d | d in t.tempDirs
      ensures d.Scratch? && exists id :: id in Ids(t.sites) && id in t.stores && t.stores[id].dir == d
    {
      TempDirLive(s, n, d);
    }
    forall p | p in t.pending
      ensures Owned(p.tempDirs, p.sites, t.stores)
    {
      OwnedStill(s, n, p.tempDirs, p.sites);
    }
    forall x, y | x in t.stores && y in t.stores && t.stores[x].dir == t.stores[y].dir && t.stores[x].dir.Scratch?
      ensures x == y
    {
      DirKept(s.sites, n.sites, all, x);
      DirKept(s.sites, n.sites, all, y);
      OneScratch(s, n, x, y);
    }
  }

  lemma OneScratch(s: State, n: Loaded, x: nat, y: nat)
    requires UniqueScratch(s.stores) && Fresh(s, n)
    requires var all := s.stores + n.stores; x in all && y in all && all[x].dir == all[y].dir && all[x].dir.Scratch?
    ensures x == y
  {
    hide Ids;
    assert forall id :: id in n.stores ==> n.stores[id].dir in DirsOf(n.stores);
    assert forall id :: id in s.stores ==> s.stores[id].dir in DirsOf(s.stores);
  }

  lemma TempDirLive(s: State, n: Loaded, d: Dir)
    requires Fresh(s, n) && d in Reloaded(s, n).tempDirs
    ensures var t := Reloaded(s, n);
            d.Scratch? && exists id :: id in Ids(t.sites) && id in t.stores && t.stores[id].dir == d
  {
    hide Carried, SettleStores, Ids, UniqueScratch, Orphaned, Replaced;
    var all := s.stores + n.stores;
    var id :| id in n.stores && n.stores[id].dir == d;
    if Replaced(s.sites, n.sites, id) {
      ReplacedOrphan(s.sites, n.sites, all, id);
    }
    FreshAfter(s, n, id);
    DirKept(s.sites, n.sites, all, id);
  }

  lemma ReplacedOrphan(prior: seq<Site>, next: seq<Site>, st: Stores, id: nat)
    requires Replaced(prior, next, id) && id in st
    ensures st[id].dir in Orphaned(prior, next, st)
  {
    hide Carried;
    var i :| 0 <= i < |next| && Carried(prior, next[i]) && next[i].store == Some(id);
  }

  lemma OwnedStill(s: State, n: Loaded, dirs: seq<Dir>, sites: seq<Site>)
    requires Owned(dirs, sites, s.stores) && Fresh(s, n)
    ensures Owned(dirs, sites, Reloaded(s, n).stores)
  {
    hide Carried, SettleStores, Ids, UniqueScratch, DirsOf;
    var t := Reloaded(s, n);
    forall d | d in dirs
      ensures exists id :: id in Ids(sites) && id in t.stores && t.stores[id].dir == d
    {
      var id :| id in Ids(sites) && id in s.stores && s.stores[id].dir == d;
      DirKept(s.sites, n.sites, s.stores + n.stores, id);
      assert t.stores[id].dir == d;
    }
  }

  // ----- Refused reloads and teardowns keep it -----

  lemma RefuseKeeps(s: State, n: Loaded)
    requires Inv(s) && Fresh(s, n)
    ensures Inv(Refused(s, n))
  {
    hide Ids, UniqueScratch, Fresh, Refused, Awaits, Owned;
    RefusedStores(s, n);
    var t := Refused(s, n);
    forall id | id in s.stores && Awaits(s, id)
      ensures Awaits(t, id)
    {
      AwaitsSame(s, t, id);
    }
    OwnedSame(s.tempDirs, s.sites, s.stores, t.stores);
    forall p | p in s.pending
      ensures Owned(p.tempDirs, p.sites, t.stores)
    {
      OwnedSame(p.tempDirs, p.sites, s.stores, t.stores);
    }
  }

  /** A refused reload leaves the old stores and their directories alone, and closes the new ones. */
  lemma RefusedStores(s: State, n: Loaded)
    requires Inv(s) && Fresh(s, n)
    ensures var t := Refused(s, n);
            && t.sites == s.sites && t.tempDirs == s.tempDirs && t.pending == s.pending
            && (forall id :: id in s.stores ==> id in t.stores && t.stores[id] == s.stores[id])
            && (forall id :: id in t.stores && id !in s.stores ==> !t.stores[id].open)
            && (forall id :: id in s.stores && s.stores[id].dir in s.dirs ==> s.stores[id].dir in t.dirs)
            && UniqueScratch(t.stores)
  {
    hide Ids, LiveOk, PendingOk, Accounted, DirsOwned;
    var t := Refused(s, n);
    assert forall id :: id in s.stores ==> s.stores[id].dir in DirsOf(s.stores);
    forall x, y | x in t.stores && y in t.stores && t.stores[x].dir == t.stores[y].dir && t.stores[x].dir.Scratch?
      ensures x == y
    {
      OneScratch(s, n, x, y);
    }
  }

  lemma AwaitsSame(s: State, t: State, id: nat)
    requires s.pending == t.pending && Awaits(s, id)
    ensures Awaits(t, id)
  {
    var p :| p in s.pending && id in Doomed(p);
  }

  lemma OwnedSame(dirs: seq<Dir>, sites: seq<Site>, st: Stores, now: Stores)
    requires Owned(dirs, sites, st) && forall id :: id in st ==> id in now && now[id].dir == st[id].dir
    ensures Owned(dirs, sites, now)
  {
    hide Ids;
  }

  lemma FinishKeeps(s: State, i: nat)
    requires Inv(s) && i < |s.pending|
    ensures Inv(Finished(s, i))
  {
    hide Ids;
    var t, p := Finished(s, i), s.pending[i];
    assert forall id :: id in s.stores <==> id in t.stores;
    assert forall id :: id in s.stores ==> t.stores[id].dir == s.stores[id].dir;
    assert forall q :: q in t.pending ==> q in s.pending;
    forall id | id in Ids(t.sites)
      ensures t.stores[id].open && t.stores[id].dir in t.dirs
    {
      FinishSpares(s, i, id);
    }
    forall id | id in t.stores
      ensures id in Ids(t.sites) || !t.stores[id].open || Awaits(t, id)
    {
      if id !in Ids(s.sites) && s.stores[id].open {
        var q :| q in s.pending && id in Doomed(q);
        if id !in Doomed(p) {
          StillPending(s, i, q);
        }
      }
    }
    assert Owned(t.tempDirs, t.sites, t.stores);
  }

  lemma StillPending(s: State, i: nat, q: Teardown)
    requires i < |s.pending| && q in s.pending && q != s.pending[i]
    ensures q in Finished(s, i).pending
  {
    var j :| 0 <= j < |s.pending| && s.pending[j] == q;
    var rest := s.pending[..i] + s.pending[i + 1..];
    assert j < i ==> rest[j] == q;
    assert j > i ==> rest[j - 1] == q;
  }

  /** A teardown closes no live store and removes no live store's directory. */
  lemma FinishSpares(s: State, i: nat, id: nat)
    requires Inv(s) && i < |s.pending| && id in Ids(s.sites)
    ensures id in Finished(s, i).stores && Finished(s, i).stores[id].open
    ensures s.stores[id].dir in Finished(s, i).dirs
  {
    hide Ids, Accounted;
    var p := s.pending[i];
    assert p in s.pending && id !in Doomed(p);
    var d := s.stores[id].dir;
    if d in p.tempDirs {
      assert Owned(p.tempDirs, p.sites, s.stores);
      var x :| x in Ids(p.sites) && x in s.stores && s.stores[x].dir == d;
      assert x == id;
      assert d in Preserved(s.stores, p.sites, p.keep);
    }
  }

  lemma NextKeepsInv(s: State, step: Step)
    requires Inv(s) && Enabled(s, step)
    ensures Inv(Next(s, step))
  {
    hide LiveOk, PendingOk, Accounted, DirsOwned, UniqueScratch, Fresh, Reloaded, Refused, Finished;
    match step
    case Reload(n) =>
      ReloadLive(s, n);
      ReloadPending(s, n);
      ReloadAccounted(s, n);
      ReloadDirs(s, n);
    case Refuse(n) => RefuseKeeps(s, n);
    case Finish(i) => FinishKeeps(s, i);
    case Serve(id, content) => ServeKeeps(s, id, content);
  }

  lemma ServeKeeps(s: State, id: nat, content: map<string, Object>)
    requires Inv(s) && id in s.stores
    ensures Inv(Served(s, id, content))
  {
    hide Ids, UniqueScratch, Awaits, Owned;
    var t := Served(s, id, content);
    SameScratch(s.stores, t.stores);
    forall x | x in s.stores && Awaits(s, x)
      ensures Awaits(t, x)
    {
      AwaitsSame(s, t, x);
    }
    OwnedSame(s.tempDirs, s.sites, s.stores, t.stores);
    forall p | p in s.pending
      ensures Owned(p.tempDirs, p.sites, t.stores)
    {
      OwnedSame(p.tempDirs, p.sites, s.stores, t.stores);
    }
  }

  lemma SameScratch(st: Stores, now: Stores)
    requires UniqueScratch(st) && now.Keys == st.Keys && forall id :: id in st ==> now[id].dir == st[id].dir
    ensures UniqueScratch(now)
  {
  }

  // ----- Runs -----

  const START := State(map[], {}, [], [], [], {})

  /** The state after a sequence of steps, each one possible where it is taken. */
  ghost predicate Run(s: State, steps: seq<Step>, t: State)
    decreases |steps|
  {
    if steps == [] then s == t else Enabled(s, steps[0]) && Run(Next(s, steps[0]), steps[1..], t)
  }

  lemma {:induction false} RunKeepsInv(s: State, steps: seq<Step>, t: State)
    requires Inv(s) && Run(s, steps, t)
    ensures Inv(t)
    decreases |steps|
  {
    hide Inv, Next, Enabled;
    if steps != [] {
      NextKeepsInv(s, steps[0]);
      RunKeepsInv(Next(s, steps[0]), steps[1..], t);
    }
  }

  lemma StartInv()
    ensures Inv(START)
  {
  }

  /** In every run of loads, reloads, refused reloads and teardowns in any order: the stores of the live
      configuration are open and their directories in place; and once all teardowns are through, every
      other store ever made is closed. */
  lemma RunsAreSafe(steps: seq<Step>, t: State)
    requires Run(START, steps, t)
    ensures forall id :: id in Ids(t.sites) ==> id in t.stores && t.stores[id].open && t.stores[id].dir in t.dirs
    ensures t.pending == [] ==> forall id :: id in t.stores && id !in Ids(t.sites) ==> !t.stores[id].open
  {
    hide PendingOk, DirsOwned, UniqueScratch, Run;
    StartInv();
    RunKeepsInv(START, steps, t);
  }

  /** What a site serves from after a reload: the warm store of its counterpart, contents and all, if the
      fingerprints agree; else its own, emptied if it has a counterpart under another fingerprint. */
  lemma CarriedOrFresh(s: State, n: Loaded, i: nat)
    requires Inv(s) && Fresh(s, n) && i < |n.sites|
    ensures var t, site, prev := Reloaded(s, n), n.sites[i], Previous(s.sites, n.sites[i].host);
            && (t.sites[i].store != site.store ==>
                  prev.Some? && t.sites[i].store == prev.value.store && prev.value.fingerprint == site.fingerprint)
            && (prev.Some? && prev.value.store.Some? && site.store.Some? ==>
                  var warm, own := prev.value.store.value, site.store.value;
                  && warm in s.stores && warm in t.stores && own in t.stores
                  && (prev.value.fingerprint == site.fingerprint ==>
                        t.sites[i].store == Some(warm) && t.stores[warm].content == s.stores[warm].content)
                  && (prev.value.fingerprint != site.fingerprint ==>
                        t.sites[i].store == Some(own) && t.stores[own].content == map[]))
  {
    hide SettleStores, Previous, UniqueScratch, DirsOf, Orphaned, Ids;
    var site, prev := n.sites[i], Previous(s.sites, n.sites[i].host);
    if prev.Some? && prev.value.store.Some? && site.store.Some? {
      AtIds(n.sites, i);
      PreviousLive(s, site.host);
      var all := s.stores + n.stores;
      DirKept(s.sites, n.sites, all, prev.value.store.value);
      DirKept(s.sites, n.sites, all, site.store.value);
      forall j | 0 <= j < |n.sites|
        ensures n.sites[j].store != prev.value.store
      {
        if n.sites[j].store.Some? {
          AtIds(n.sites, j);
        }
      }
      ContentKept(s.sites, n.sites, all, prev.value.store.value);
      if prev.value.fingerprint != site.fingerprint {
        FlushedEmptied(s.sites, n.sites, all, i);
      }
    }
  }

  /** Settling touches the contents of fresh stores only. */
  lemma {:induction false} ContentKept(prior: seq<Site>, next: seq<Site>, st: Stores, id: nat)
    requires id in st && forall i :: 0 <= i < |next| ==> next[i].store != Some(id)
    ensures id in SettleStores(prior, next, st) && SettleStores(prior, next, st)[id].content == st[id].content
  {
    hide Carried, Flushed;
    if next != [] {
      var n := |next| - 1;
      ContentKept(prior, next[..n], st, id);
      FlushedStore(prior, next[n]);
      CarriedStore(prior, next[n]);
    }
  }

  lemma PreviousLive(s: State, host: string)
    requires Inv(s) && Previous(s.sites, host).Some? && Previous(s.sites, host).value.store.Some?
    ensures Previous(s.sites, host).value.store.value in s.stores
  {
    hide Ids, Accounted, PendingOk, DirsOwned;
    var p := Previous(s.sites, host).value;
    var i :| 0 <= i < |s.sites| && s.sites[i] == p;
    AtIds(s.sites, i);
  }

  lemma {:induction false} FlushedEmptied(prior: seq<Site>, next: seq<Site>, st: Stores, i: nat)
    requires i < |next| && Flushed(prior, next[i]) && next[i].store.value in st
    ensures next[i].store.value in SettleStores(prior, next, st)
    ensures SettleStores(prior, next, st)[next[i].store.value].content == map[]
  {
    hide Carried, Flushed;
    var n := |next| - 1;
    FlushedStore(prior, next[i]);
    FlushedStore(prior, next[n]);
    CarriedStore(prior, next[n]);
    DirKept(prior, next[..n], st, next[i].store.value);
    if i < n {
      FlushedEmptied(prior, next[..n], st, i);
    }
  }

  // ----- Scratch directories that stay behind -----

  /** A teardown that will remove the directory of a store. */
  ghost predicate Removing(s: State, id: nat)
    requires id in s.stores
  {
    exists p :: p in s.pending && s.stores[id].dir in p.tempDirs && id in Doomed(p)
  }

  /** Every teardown that lists the directory of a store keeps that store. */
  ghost predicate Spared(s: State, id: nat)
    requires id in s.stores
  {
    forall p :: p in s.pending && s.stores[id].dir in p.tempDirs ==> id in Ids(p.sites) && id in p.keep
  }

  /** Where the directory of a store stands. Carried: on disk, and on no list that would remove it. In use
      but never carried: on disk and on the live list. Otherwise: gone, or about to be removed. */
  ghost predicate DirOk(s: State, id: nat)
    requires id in s.stores
  {
    var d := s.stores[id].dir;
    if id in s.carried then d in s.dirs && d !in s.tempDirs && Spared(s, id)
    else if id in Ids(s.sites) then d in s.dirs && d in s.tempDirs
    else d in s.dirs ==> Removing(s, id)
  }

  ghost predicate KeptCarried(s: State) {
    forall p :: p in s.pending ==> Ids(p.sites) * p.keep <= s.carried
  }

  ghost predicate ScratchOk(s: State) {
    && (forall id :: id in s.stores && s.stores[id].dir.Scratch? ==> DirOk(s, id))
    && (forall d :: d in s.dirs && d.Scratch? ==> d in DirsOf(s.stores))
    && KeptCarried(s)
    && s.carried <= s.stores.Keys
  }

  /** Every list with the directory of a live store is of a configuration that left it to the next. */
  lemma OnKeepingLists(s: State, id: nat, p: Teardown)
    requires PendingOk(s) && DirsOwned(s) && UniqueScratch(s.stores) && id in Ids(s.sites) && id in s.stores
    requires s.stores[id].dir.Scratch? && p in s.pending && s.stores[id].dir in p.tempDirs
    ensures id in Ids(p.sites) && id in p.keep
  {
    hide Ids;
    var x :| x in Ids(p.sites) && x in s.stores && s.stores[x].dir == s.stores[id].dir;
    assert x == id;
    assert id !in Doomed(p);
  }

  // Reloads

  lemma PriorDir(s: State, n: Loaded, id: nat)
    requires Fresh(s, n) && id in s.stores && s.stores[id].dir.Scratch?
    ensures var t, d := Reloaded(s, n), s.stores[id].dir;
            && id in t.stores && t.stores[id].dir == d && d !in t.tempDirs && (d in t.dirs <==> d in s.dirs)
  {
    hide Ids, SettleStores, AllSettled, Carried, Orphaned, UniqueScratch, Replaced;
    SettledOpen(s.sites, n.sites, s.stores + n.stores, id);
    assert s.stores[id].dir in DirsOf(s.stores);
  }

  lemma PriorDirOk(s: State, n: Loaded, id: nat)
    requires Inv(s) && ScratchOk(s) && Fresh(s, n) && id in s.stores && s.stores[id].dir.Scratch?
    ensures id in Reloaded(s, n).stores && DirOk(Reloaded(s, n), id)
  {
    hide Ids, SettleStores, Carried, Orphaned, UniqueScratch, Replaced, DirsOf, LiveOk, PendingOk, Accounted, DirsOwned,
         Without, Those, AllSettled;
    PriorDir(s, n, id);
    var t := Reloaded(s, n);
    var last := Teardown(s.sites, s.tempDirs, Ids(t.sites));
    assert last in t.pending && (forall p :: p in s.pending ==> p in t.pending);
    assert forall p :: p in t.pending ==> p in s.pending || p == last;
    assert DirOk(s, id);
    if id in t.carried && id !in s.carried {
      forall p | p in s.pending && s.stores[id].dir in p.tempDirs
        ensures id in Ids(p.sites) && id in p.keep
      {
        OnKeepingLists(s, id, p);
      }
    }
    if id in Ids(t.sites) {
      LiveAfter(s, n, id);
    }
  }

  lemma FreshDirOk(s: State, n: Loaded, id: nat)
    requires Inv(s) && ScratchOk(s) && Fresh(s, n) && id in n.stores && n.stores[id].dir.Scratch?
    ensures id in Reloaded(s, n).stores && DirOk(Reloaded(s, n), id)
  {
    hide Ids, SettleStores, AllSettled, Carried, Orphaned, UniqueScratch, Replaced, PendingOk, Accounted, DirsOwned,
         Spared, Removing;
    var all, t, d := s.stores + n.stores, Reloaded(s, n), n.stores[id].dir;
    SettledOpen(s.sites, n.sites, all, id);
    assert id !in t.carried;
    assert d in DirsOf(n.stores);
    if Replaced(s.sites, n.sites, id) {
      ReplacedOrphan(s.sites, n.sites, all, id);
      assert d !in t.dirs;
      ReplacedNotLive(s, n, id);
    } else {
      FreshAfter(s, n, id);
      DirStays(s, n, id);
    }
  }

  lemma ReplacedNotLive(s: State, n: Loaded, id: nat)
    requires Inv(s) && Fresh(s, n) && id in n.stores && Replaced(s.sites, n.sites, id)
    ensures id !in Ids(AllSettled(s.sites, n.sites))
  {
    hide Ids, AllSettled, Replaced, UniqueScratch, DirsOf, PendingOk, Accounted, DirsOwned;
    if id in Ids(AllSettled(s.sites, n.sites)) {
      LiveAfter(s, n, id);
    }
  }

  lemma ReloadScratch(s: State, n: Loaded)
    requires Inv(s) && ScratchOk(s) && Fresh(s, n)
    ensures ScratchOk(Reloaded(s, n))
  {
    hide Ids, SettleStores, AllSettled, Carried, Orphaned, UniqueScratch, DirOk, DirsOf, Without, Those, PendingOk,
         Accounted, DirsOwned, Replaced;
    var t := Reloaded(s, n);
    var all := s.stores + n.stores;
    forall id | id in all
      ensures id in t.stores && t.stores[id].dir == all[id].dir
    {
      SettledOpen(s.sites, n.sites, all, id);
    }
    forall id | id in t.stores && t.stores[id].dir.Scratch?
      ensures DirOk(t, id)
    {
      DirKept(s.sites, n.sites, all, id);
      if id in n.stores {
        FreshDirOk(s, n, id);
      } else {
        PriorDirOk(s, n, id);
      }
    }
    ReloadDirsKnown(s, n);
  }

  lemma ReloadDirsKnown(s: State, n: Loaded)
    requires ScratchOk(s) && Fresh(s, n)
    ensures forall d :: d in Reloaded(s, n).dirs && d.Scratch? ==> d in DirsOf(Reloaded(s, n).stores)
  {
    hide Ids, SettleStores, AllSettled, Carried, Orphaned, UniqueScratch, DirOk, Without, Those;
    var t := Reloaded(s, n);
    var all := s.stores + n.stores;
    forall d | d in t.dirs && d.Scratch?
      ensures d in DirsOf(t.stores)
    {
      var id :| id in all && all[id].dir == d;
      SettledOpen(s.sites, n.sites, all, id);
    }
  }

  // Refused reloads

  lemma RefuseScratch(s: State, n: Loaded)
    requires Inv(s) && ScratchOk(s) && Fresh(s, n)
    ensures ScratchOk(Refused(s, n))
  {
    hide Ids, UniqueScratch, PendingOk, Accounted, DirsOwned, DirOk;
    RefusedStores(s, n);
    var t := Refused(s, n);
    forall id | id in t.stores && t.stores[id].dir.Scratch?
      ensures DirOk(t, id)
    {
      RefusedDirOk(s, n, id);
    }
    forall d | d in t.dirs && d.Scratch?
      ensures d in DirsOf(t.stores)
    {
      assert d in DirsOf(s.stores);
      var id :| id in s.stores && s.stores[id].dir == d;
      assert t.stores[id].dir == d;
    }
  }

  lemma RefusedDirOk(s: State, n: Loaded, id: nat)
    requires Inv(s) && ScratchOk(s) && Fresh(s, n) && id in Refused(s, n).stores && Refused(s, n).stores[id].dir.Scratch?
    ensures DirOk(Refused(s, n), id)
  {
    hide Ids, UniqueScratch, PendingOk, Accounted, DirsOwned;
    RefusedStores(s, n);
    if id in s.stores {
      assert s.stores[id].dir in DirsOf(s.stores);
      assert DirOk(s, id);
    } else {
      assert n.stores[id].dir in DirsOf(n.stores);
    }
  }

  // Teardowns

  lemma FinishScratch(s: State, i: nat)
    requires Inv(s) && ScratchOk(s) && i < |s.pending|
    ensures ScratchOk(Finished(s, i))
  {
    hide Ids, UniqueScratch, LiveOk, PendingOk, Accounted, DirsOwned, DirOk;
    var t := Finished(s, i);
    assert forall q :: q in t.pending ==> q in s.pending;
    forall id | id in t.stores && t.stores[id].dir.Scratch?
      ensures DirOk(t, id)
    {
      FinishedDirOk(s, i, id);
    }
    forall d | d in t.dirs && d.Scratch?
      ensures d in DirsOf(t.stores)
    {
      var id :| id in s.stores && s.stores[id].dir == d;
      assert t.stores[id].dir == d;
    }
  }

  /** A teardown removes the scratch directories on its list, but for those of the stores it keeps. */
  lemma FinishedDir(s: State, i: nat, id: nat)
    requires UniqueScratch(s.stores) && i < |s.pending| && id in s.stores && s.stores[id].dir.Scratch?
    ensures var t, p, d := Finished(s, i), s.pending[i], s.stores[id].dir;
            && id in t.stores && t.stores[id].dir == d
            && (d in t.dirs <==> d in s.dirs && (d in p.tempDirs ==> id in Ids(p.sites) && id in p.keep))
  {
    hide Ids;
  }

  lemma FinishedDirOk(s: State, i: nat, id: nat)
    requires UniqueScratch(s.stores) && DirsOwned(s) && PendingOk(s)
    requires i < |s.pending| && id in s.stores && s.stores[id].dir.Scratch? && DirOk(s, id)
    ensures id in Finished(s, i).stores && DirOk(Finished(s, i), id)
  {
    hide Ids, UniqueScratch, DirsOwned;
    FinishedDir(s, i, id);
    var p, t, d := s.pending[i], Finished(s, i), s.stores[id].dir;
    assert forall q :: q in t.pending ==> q in s.pending;
    assert p in s.pending;
    if id in Ids(s.sites) && d in p.tempDirs {
      OnKeepingLists(s, id, p);
    }
    if id !in s.carried && id !in Ids(s.sites) && d in t.dirs {
      var q :| q in s.pending && d in q.tempDirs && id in Doomed(q);
      StillPending(s, i, q);
    }
  }

  lemma NextKeepsScratch(s: State, step: Step)
    requires Inv(s) && ScratchOk(s) && Enabled(s, step)
    ensures ScratchOk(Next(s, step))
  {
    hide Inv, ScratchOk, Fresh, Reloaded, Refused, Finished;
    match step
    case Reload(n) => ReloadScratch(s, n);
    case Refuse(n) => RefuseScratch(s, n);
    case Finish(i) => FinishScratch(s, i);
    case Serve(id, content) => ServeScratch(s, id, content);
  }

  lemma ServeScratch(s: State, id: nat, content: map<string, Object>)
    requires ScratchOk(s) && id in s.stores
    ensures ScratchOk(Served(s, id, content))
  {
    hide Ids;
    var t := Served(s, id, content);
    forall x | x in t.stores && t.stores[x].dir.Scratch?
      ensures DirOk(t, x)
    {
      assert DirOk(s, x);
    }
    assert forall x :: x in s.stores ==> t.stores[x].dir in DirsOf(t.stores);
  }

  lemma {:induction false} RunKeepsScratch(s: State, steps: seq<Step>, t: State)
    requires Inv(s) && ScratchOk(s) && Run(s, steps, t)
    ensures Inv(t) && ScratchOk(t)
    decreases |steps|
  {
    hide Inv, ScratchOk, Next, Enabled;
    if steps != [] {
      NextKeepsInv(s, steps[0]);
      NextKeepsScratch(s, steps[0]);
      RunKeepsScratch(Next(s, steps[0]), steps[1..], t);
    }
  }

  lemma StartOk()
    ensures Inv(START) && ScratchOk(START)
  {
  }

  /** A scratch directory on disk, and no teardown outstanding, in any run: its store is live, or some
      reload carried it over. The directory of a carried store is never removed, at any point of any run,
      closed though the store may be. */
  lemma ScratchLeft(steps: seq<Step>, s: State, d: Dir)
    requires Run(START, steps, s) && d.Scratch?
    ensures forall id :: id in s.carried ==> id in s.stores && (s.stores[id].dir == d ==> d in s.dirs)
    ensures s.pending == [] ==>
              (d in s.dirs <==> exists id :: id in s.stores && s.stores[id].dir == d && (id in Ids(s.sites) || id in s.carried))
  {
    hide Run, Ids;
    StartOk();
    RunKeepsScratch(START, steps, s);
    if s.pending == [] && d in s.dirs {
      var id :| id in s.stores && s.stores[id].dir == d;
      assert DirOk(s, id);
    }
    if s.pending == [] && d !in s.dirs {
      forall id | id in s.stores && s.stores[id].dir == d
        ensures id !in Ids(s.sites) && id !in s.carried
      {
        assert DirOk(s, id);
      }
    }
  }

  /** Taking a store over carries it. */
  lemma CarriedByReload(s: State, n: Loaded, i: nat)
    requires Fresh(s, n) && i < |n.sites| && Carried(s.sites, n.sites[i])
    ensures Settled(s.sites, n.sites[i]).store.Some? && Settled(s.sites, n.sites[i]).store.value in Reloaded(s, n).carried
  {
    hide Carried, SettleStores, Settled, Orphaned, Ids, DirsOf, UniqueScratch;
    CarriedFrom(s.sites, n.sites[i]);
    var sites := AllSettled(s.sites, n.sites);
    assert sites[i] == Settled(s.sites, n.sites[i]);
    AtIds(sites, i);
  }
}
