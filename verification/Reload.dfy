/** Carrying warm cache stores across configuration reloads (internal/config/config.go:656-715, 896-931;
    internal/server/server.go:1083-1122). */
module Reload {
  import opened Objects

  /** A configured directory, or a scratch one made for a site without a disk path. */
  datatype Dir = Configured(path: string) | Scratch(id: nat)

  /** A cache store: whether it is open, its disk directory, and what a lookup finds in it. */
  datatype Store = Store(open: bool, dir: Dir, content: map<string, Object>)

  type Stores = map<nat, Store>

  /** A site: its primary host, its cache-key fingerprint and its store. */
  datatype Site = Site(host: string, fingerprint: string, store: Option<nat>)

  // ----- Which store a site gets -----

  /** The last old site with that host. */
  function Previous(prior: seq<Site>, host: string): (r: Option<Site>)
    ensures r.Some? ==> r.value in prior && r.value.host == host
    ensures r.None? ==> forall i :: 0 <= i < |prior| ==> prior[i].host != host
  {
    if prior == [] then None
    else if prior[|prior| - 1].host == host then Some(prior[|prior| - 1])
    else Previous(prior[..|prior| - 1], host)
  }

  /** The site has a counterpart, and both have stores, not the same one. */
  predicate Matched(prior: seq<Site>, s: Site) {
    var prev := Previous(prior, s.host);
    prev.Some? && prev.value.store.Some? && s.store.Some? && prev.value.store != s.store
  }

  /** The warm store is carried over: the keys mean the same. */
  predicate Carried(prior: seq<Site>, s: Site) {
    Matched(prior, s) && Previous(prior, s.host).value.fingerprint == s.fingerprint
  }

  /** The keys mean something else: the site starts empty. */
  predicate Flushed(prior: seq<Site>, s: Site) {
    Matched(prior, s) && Previous(prior, s.host).value.fingerprint != s.fingerprint
  }

  function Settled(prior: seq<Site>, s: Site): Site {
    if Carried(prior, s) then s.(store := Previous(prior, s.host).value.store) else s
  }

  function AllSettled(prior: seq<Site>, next: seq<Site>): (r: seq<Site>)
    ensures |r| == |next| && forall i :: 0 <= i < |r| ==> r[i] == Settled(prior, next[i])
  {
    seq(|next|, i requires 0 <= i < |next| => Settled(prior, next[i]))
  }

  // ----- What happens to the stores -----

  function Closed(st: Stores, id: nat): Stores {
    if id in st then st[id := st[id].(open := false)] else st
  }

  /** What Stores.Store.Reset leaves. */
  function Emptied(st: Stores, id: nat): Stores {
    if id in st then st[id := st[id].(content := map[])] else st
  }

  /** One site: its cold store is closed when the warm one takes over, emptied when the keys changed. */
  function SettleStore(prior: seq<Site>, s: Site, st: Stores): Stores {
    if Carried(prior, s) then Closed(st, s.store.value)
    else if Flushed(prior, s) then Emptied(st, s.store.value)
    else st
  }

  function SettleStores(prior: seq<Site>, next: seq<Site>, st: Stores): Stores {
    if next == [] then st
    else SettleStore(prior, next[|next| - 1], SettleStores(prior, next[..|next| - 1], st))
  }

  /** The directories of the cold stores that were closed. */
  function Orphaned(prior: seq<Site>, next: seq<Site>, st: Stores): set<Dir> {
    set i | 0 <= i < |next| && Carried(prior, next[i]) && next[i].store.value in st :: st[next[i].store.value].dir
  }

  function Without(dirs: seq<Dir>, gone: set<Dir>): (r: seq<Dir>)
    ensures forall d :: d in r <==> d in dirs && d !in gone
  {
    if dirs == [] then []
    else Without(dirs[..|dirs| - 1], gone) + (if dirs[|dirs| - 1] in gone then [] else [dirs[|dirs| - 1]])
  }

  function Those(dirs: seq<Dir>, these: set<Dir>): set<Dir> {
    set d | d in dirs && d in these
  }

  // ----- Tearing a configuration down -----

  function Ids(sites: seq<Site>): set<nat> {
    set i | 0 <= i < |sites| && sites[i].store.Some? :: sites[i].store.value
  }

  function ClosedExcept(st: Stores, sites: seq<Site>, keep: set<nat>): Stores {
    map id | id in st :: if id in Ids(sites) && id !in keep then st[id].(open := false) else st[id]
  }

  function Preserved(st: Stores, sites: seq<Site>, keep: set<nat>): set<Dir> {
    set id | id in st && id in Ids(sites) && id in keep :: st[id].dir
  }

  // ----- The program -----

  class Registry {
    var stores: Stores
    var dirs: set<Dir>

    constructor (st: Stores, ds: set<Dir>)
      ensures stores == st && dirs == ds
    {
      stores, dirs := st, ds;
    }
  }

  class Config {
    var sites: seq<Site>
    var tempDirs: seq<Dir>

    constructor (ss: seq<Site>, ds: seq<Dir>)
      ensures sites == ss && tempDirs == ds
    {
      sites, tempDirs := ss, ds;
    }

    /** Takes over old's warm stores, in place. */
    method TransplantStoresFrom(prior: Config, reg: Registry)
      requires this != prior
      modifies this, reg
      ensures sites == AllSettled(prior.sites, old(sites))
      ensures reg.stores == SettleStores(prior.sites, old(sites), old(reg.stores))
      ensures tempDirs == Without(old(tempDirs), Orphaned(prior.sites, old(sites), old(reg.stores)))
      ensures reg.dirs == old(reg.dirs) - Those(old(tempDirs), Orphaned(prior.sites, old(sites), old(reg.stores)))
    {
      hide Carried, Flushed, Settled, SettleStore, SettleStores, Orphaned, Without, Those, Previous;
      var orphaned: set<Dir> := {};
      ghost var was, st := sites, reg.stores;
      NothingSettled(prior.sites, was, st);
      for i := 0 to |sites|
        invariant |sites| == |was| && tempDirs == old(tempDirs) && reg.dirs == old(reg.dirs)
        invariant forall j :: 0 <= j < i ==> sites[j] == Settled(prior.sites, was[j])
        invariant forall j :: i <= j < |sites| ==> sites[j] == was[j]
        invariant reg.stores == SettleStores(prior.sites, was[..i], st)
        invariant orphaned == Orphaned(prior.sites, was[..i], st)
      {
        SettleStep(prior.sites, was, i, st);
        var s := sites[i];
        var prev := FindPrevious(prior.sites, s.host);
        SettleCases(prior.sites, s, reg.stores);
        if prev.None? || prev.value.store.None? || s.store.None? || prev.value.store == s.store {
          continue;
        }
        if prev.value.fingerprint != s.fingerprint {
          reg.stores := Emptied(reg.stores, s.store.value);
          continue;
        }
        var cold := s.store.value;
        sites := sites[i := s.(store := prev.value.store)];
        DirKept(prior.sites, was[..i], st, cold);
        if cold in reg.stores {
          orphaned := orphaned + {reg.stores[cold].dir};
        }
        reg.stores := Closed(reg.stores, cold);
      }
      assert was[..|was|] == was;
      assert sites == AllSettled(prior.sites, was);
      RemoveDirs(orphaned, reg);
    }

    /** Removes the scratch directories of the discarded stores. */
    method RemoveDirs(gone: set<Dir>, reg: Registry)
      modifies `tempDirs, reg`dirs
      ensures tempDirs == Without(old(tempDirs), gone) && reg.dirs == old(reg.dirs) - Those(old(tempDirs), gone)
    {
      var kept := [];
      ghost var all := tempDirs;
      for i := 0 to |tempDirs|
        invariant tempDirs == all
        invariant kept == Without(all[..i], gone) && reg.dirs == old(reg.dirs) - Those(all[..i], gone)
      {
        assert all[..i + 1][..i] == all[..i] && all[..i + 1] == all[..i] + [all[i]];
        if tempDirs[i] in gone {
          reg.dirs := reg.dirs - {tempDirs[i]};
        } else {
          kept := kept + [tempDirs[i]];
        }
      }
      assert all[..|all|] == all;
      tempDirs := kept;
    }

    /** Closes the stores that are not kept and removes the directories that back none of the kept. */
    method CloseExcept(keep: set<nat>, reg: Registry)
      modifies reg
      ensures reg.stores == ClosedExcept(old(reg.stores), sites, keep)
      ensures reg.dirs == old(reg.dirs) - ((set d | d in tempDirs) - Preserved(old(reg.stores), sites, keep))
    {
      var preserved: set<Dir> := {};
      ghost var st := reg.stores;
      NothingClosed(st, sites, keep);
      for i := 0 to |sites|
        invariant reg.dirs == old(reg.dirs)
        invariant reg.stores == ClosedExcept(st, sites[..i], keep)
        invariant preserved == Preserved(st, sites[..i], keep)
      {
        CloseStep(st, sites, i, keep);
        var s := sites[i];
        if s.store.None? {
          continue;
        }
        if s.store.value in keep {
          if s.store.value in reg.stores {
            preserved := preserved + {reg.stores[s.store.value].dir};
          }
          continue;
        }
        reg.stores := Closed(reg.stores, s.store.value);
      }
      assert sites[..|sites|] == sites;
      for i := 0 to |tempDirs|
        invariant reg.stores == ClosedExcept(st, sites, keep)
        invariant reg.dirs == old(reg.dirs) - ((set d | d in tempDirs[..i]) - preserved)
      {
        assert tempDirs[..i + 1] == tempDirs[..i] + [tempDirs[i]];
        if tempDirs[i] !in preserved {
          reg.dirs := reg.dirs - {tempDirs[i]};
        }
      }
      assert tempDirs[..|tempDirs|] == tempDirs;
    }
  }

  /** The map of the source, by host, later sites first. */
  method FindPrevious(prior: seq<Site>, host: string) returns (r: Option<Site>)
    ensures r == Previous(prior, host)
  {
    var byHost: map<string, Site> := map[];
    for i := 0 to |prior|
      invariant forall h :: h in byHost <==> Previous(prior[..i], h).Some?
      invariant forall h :: h in byHost ==> Previous(prior[..i], h) == Some(byHost[h])
    {
      assert prior[..i + 1][..i] == prior[..i];
      byHost := byHost[prior[i].host := prior[i]];
    }
    assert prior[..|prior|] == prior;
    r := if host in byHost then Some(byHost[host]) else None;
  }

  lemma SettleStep(prior: seq<Site>, next: seq<Site>, i: nat, st: Stores)
    requires i < |next|
    ensures SettleStores(prior, next[..i + 1], st) == SettleStore(prior, next[i], SettleStores(prior, next[..i], st))
    ensures Orphaned(prior, next[..i + 1], st) ==
            Orphaned(prior, next[..i], st)
            + (if Carried(prior, next[i]) && next[i].store.value in st then {st[next[i].store.value].dir} else {})
  {
    hide Carried, SettleStore;
    assert next[..i + 1][..i] == next[..i];
    var a, b := next[..i], next[..i + 1];
    assert b[i] == next[i] && forall j :: 0 <= j < i ==> b[j] == a[j];
    CarriedStore(prior, next[i]);
  }

  lemma NothingSettled(prior: seq<Site>, next: seq<Site>, st: Stores)
    ensures SettleStores(prior, next[..0], st) == st && Orphaned(prior, next[..0], st) == {}
  {
  }

  lemma CarriedStore(prior: seq<Site>, s: Site)
    ensures Carried(prior, s) ==> s.store.Some? && Previous(prior, s.host).Some?
  {
  }

  lemma SettleCases(prior: seq<Site>, s: Site, st: Stores)
    ensures var prev := Previous(prior, s.host);
            if prev.None? || prev.value.store.None? || s.store.None? || prev.value.store == s.store then
              !Carried(prior, s) && Settled(prior, s) == s && SettleStore(prior, s, st) == st
            else if prev.value.fingerprint != s.fingerprint then
              !Carried(prior, s) && Settled(prior, s) == s && SettleStore(prior, s, st) == Emptied(st, s.store.value)
            else
              && Carried(prior, s) && Settled(prior, s) == s.(store := prev.value.store)
              && SettleStore(prior, s, st) == Closed(st, s.store.value)
  {
  }

  /** Settling changes no directory and creates no store. */
  lemma {:induction false} DirKept(prior: seq<Site>, next: seq<Site>, st: Stores, id: nat)
    ensures id in SettleStores(prior, next, st) <==> id in st
    ensures id in st ==> SettleStores(prior, next, st)[id].dir == st[id].dir
  {
    hide Carried, Flushed;
    if next != [] {
      DirKept(prior, next[..|next| - 1], st, id);
    }
  }

  lemma NothingClosed(st: Stores, sites: seq<Site>, keep: set<nat>)
    ensures ClosedExcept(st, sites[..0], keep) == st && Preserved(st, sites[..0], keep) == {}
  {
  }

  lemma CloseStep(st: Stores, sites: seq<Site>, i: nat, keep: set<nat>)
    requires i < |sites|
    ensures var s, now := sites[i], ClosedExcept(st, sites[..i], keep);
            && (s.store.None? || s.store.value in keep ==> ClosedExcept(st, sites[..i + 1], keep) == now)
            && (s.store.Some? && s.store.value !in keep ==> ClosedExcept(st, sites[..i + 1], keep) == Closed(now, s.store.value))
            && (forall id :: id in now <==> id in st) && (forall id :: id in st ==> now[id].dir == st[id].dir)
            && Preserved(st, sites[..i + 1], keep) == Preserved(st, sites[..i], keep)
               + (if s.store.Some? && s.store.value in keep && s.store.value in st then {st[s.store.value].dir} else {})
  {
    var a, b := sites[..i], sites[..i + 1];
    assert b[i] == sites[i] && forall j :: 0 <= j < i ==> b[j] == a[j];
    assert Ids(b) == Ids(a) + (if sites[i].store.Some? then {sites[i].store.value} else {});
  }
}
