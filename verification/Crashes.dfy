/** Exactly what a crash keeps (internal/cache/disk.go:264-316), at any moment of any run, and what a second
    tier opened on the same directory takes away (internal/config/config.go:656-704). */
module Crashes {
  import opened Objects
  import opened DiskShard
  import opened Disk
  import opened DiskIndex
  import opened DiskTiers
  import DiskLoad
  import opened Persist

  // ----- The second pass evicts nothing -----

  /** Distinct keys that all occur in another list, with the same size, are no longer in bytes. */
  lemma {:induction false} SubListByKey(c: seq<ObjectMeta>, d: seq<ObjectMeta>)
    requires DistinctKeys(c) && (forall i :: 0 <= i < |d| ==> d[i].size >= 0)
    requires forall i :: 0 <= i < |c| ==> Occurs(c[i], d)
    ensures Bytes(c) <= Bytes(d)
  {
    if c == [] {
      BytesNonNegative(d);
    } else {
      assert Occurs(c[0], d);
      var x :| 0 <= x < |d| && d[x].key == c[0].key && d[x].size == c[0].size;
      var d' := d[..x] + d[x + 1..];
      BytesWithout(d, x);
      forall i | 0 <= i < |c[1..]|
        ensures Occurs(c[1..][i], d')
      {
        OccursWithout(c[i + 1], d, x);
      }
      SubListByKey(c[1..], d');
    }
  }

  lemma BytesWithout(d: seq<ObjectMeta>, x: nat)
    requires x < |d|
    ensures Bytes(d) == d[x].size + Bytes(d[..x] + d[x + 1..])
  {
    BytesAppend(d[..x], d[x + 1..]);
    BytesAppend(d[..x], d[x..]);
    assert d == d[..x] + d[x..] && d[x..][1..] == d[x + 1..];
  }

  lemma OccursWithout(m: ObjectMeta, d: seq<ObjectMeta>, x: nat)
    requires x < |d| && Occurs(m, d) && m.key != d[x].key
    ensures Occurs(m, d[..x] + d[x + 1..])
  {
    var y :| 0 <= y < |d| && d[y].key == m.key && d[y].size == m.size;
    var d' := d[..x] + d[x + 1..];
    assert d'[if y < x then y else y - 1] == d[y];
  }

  ghost predicate Occurs(m: ObjectMeta, d: seq<ObjectMeta>) {
    exists j :: 0 <= j < |d| && d[j].key == m.key && d[j].size == m.size
  }

  /** The key is live in its shard with the size of `m`. */
  ghost predicate LiveAs(s: State, l: Layout, m: ObjectMeta)
    requires ValidLayout(l) && |s.shards| == |l.caps|
  {
    var items := s.shards[l.home(m.key)].items;
    m.key in items && items[m.key].size == m.size
  }

  lemma CandidateIff(s: State, l: Layout, i: int, m: ObjectMeta)
    requires Inv(s, l) && 0 <= i < |s.shards|
    ensures m in Candidates(s.index, l, i, s.files) <==> m in s.index && l.home(m.key) == i && LiveAs(s, l, m)
  {
    hide Candidates, Accepts, FlusherOk, ListOk, ShardOk;
    CandidateOrigin(s.index, l, i, s.files);
    if m in s.index {
      var n :| 0 <= n < |s.index| && s.index[n] == m;
      CrashAcceptsIff(s, l, n);
      if l.home(m.key) == i && LiveAs(s, l, m) {
        DiskLoad.CandidateMember(s.index, l, i, s.files, n);
      }
    }
  }

  lemma LiveOccurs(t: Shard, i: int, l: Layout, files: Files, m: ObjectMeta)
    requires 0 <= i < |l.caps| && ShardOk(t, i, l, files)
    requires m.key in t.items && t.items[m.key].size == m.size
    ensures Indexed(t.lru, t.items) && Occurs(m, MetasOf(t))
  {
    hide Total;
    AccountedIndexed(t);
    var n :| 0 <= n < |t.lru| && t.lru[n] == m.key;
    assert ValidEntry(m.key, t.items[m.key]);
    assert MetasOf(t)[n] == t.items[m.key];
  }

  lemma ShardFacts(t: Shard, i: int, l: Layout, files: Files)
    requires 0 <= i < |l.caps| && ShardOk(t, i, l, files)
    ensures Indexed(t.lru, t.items) && (Bytes(MetasOf(t)) <= l.caps[i] || MetasOf(t) == [])
    ensures forall x :: 0 <= x < |MetasOf(t)| ==> MetasOf(t)[x].size >= 0
  {
    hide Total;
    AccountedBytes(t);
    forall x | 0 <= x < |MetasOf(t)|
      ensures MetasOf(t)[x].size >= 0
    {
      assert ValidEntry(t.lru[x], t.items[t.lru[x]]);
    }
  }

  /** What a reload accepts after a crash fits together. */
  lemma AcceptedFit(s: State, l: Layout, i: int)
    requires Inv(s, l) && 0 <= i < |s.shards|
    ensures var c := Candidates(s.index, l, i, s.files); Fit(c, l.caps[i]) == |c|
  {
    hide Candidates, FlusherOk, ShardOk, LiveAs, Occurs, NoGhosts, Bytes;
    var c, t := Candidates(s.index, l, i, s.files), s.shards[i];
    assert ShardOk(t, i, l, s.files);
    ShardFacts(t, i, l, s.files);
    CandidatesDistinct(s.index, l, i, s.files);
    forall x | 0 <= x < |c|
      ensures Occurs(c[x], MetasOf(t))
    {
      CandidateIff(s, l, i, c[x]);
      LiveAsFacts(s, l, c[x]);
      LiveOccurs(t, i, l, s.files, c[x]);
    }
    SubListByKey(c, MetasOf(t));
    FitsWhole(c, MetasOf(t), l.caps[i]);
  }

  lemma LiveAsFacts(s: State, l: Layout, m: ObjectMeta)
    requires ValidLayout(l) && |s.shards| == |l.caps| && LiveAs(s, l, m)
    ensures var items := s.shards[l.home(m.key)].items; m.key in items && items[m.key].size == m.size
  {
  }

  lemma FitsWhole(c: seq<ObjectMeta>, d: seq<ObjectMeta>, cap: int)
    requires Bytes(c) <= Bytes(d) && (Bytes(d) <= cap || d == [])
    requires forall x :: 0 <= x < |c| ==> Occurs(c[x], d)
    ensures Fit(c, cap) == |c|
  {
    if c != [] {
      assert Occurs(c[0], d);
    }
  }

  // ----- What comes back -----

  lemma EntryIff(r: Shard, m: ObjectMeta)
    requires Accounted(r)
    ensures Indexed(r.lru, r.items) && (m in MetasOf(r) <==> m.key in r.items && r.items[m.key] == m)
  {
    hide Total;
    AccountedIndexed(r);
    if m in MetasOf(r) {
      var n :| 0 <= n < |r.lru| && MetasOf(r)[n] == m;
      assert ValidEntry(r.lru[n], r.items[r.lru[n]]);
    }
    if m.key in r.items && r.items[m.key] == m {
      var n :| 0 <= n < |r.lru| && r.lru[n] == m.key;
      assert MetasOf(r)[n] == m;
    }
  }

  /** After a crash in any state of any run, whatever the flusher was doing: an entry comes back exactly if
      the index file lists it and its key was live with the same size. */
  lemma CrashKeepsIff(s: State, l: Layout, i: int, m: ObjectMeta)
    requires Inv(s, l) && 0 <= i < |s.shards|
    ensures var r := Reloaded(s.index, l, i, s.files);
            (m.key in r.items && r.items[m.key] == m) <==> m in s.index && l.home(m.key) == i && LiveAs(s, l, m)
  {
    hide Candidates, Reloaded, FlusherOk, ShardOk, LiveAs, NoGhosts, Bytes, Accounted;
    var c, r := Candidates(s.index, l, i, s.files), Reloaded(s.index, l, i, s.files);
    ReloadKeepsPrefix(s.index, l, i, s.files);
    AcceptedFit(s, l, i);
    assert c[..|c|] == c;
    CandidateIff(s, l, i, m);
    EntryIff(r, m);
  }

  /** When a shard is clean and the flusher rests, a crash loses nothing of that shard: a reload at the same
      budget restores exactly its entries, placement hints aside. */
  lemma CrashRestoresCleanShard(s: State, l: Layout, i: int)
    requires Inv(s, l) && 0 <= i < |s.shards| && s.flusher == Resting && !s.shards[i].dirty
    ensures var r := Reloaded(s.index, l, i, s.files);
            && Valid(r) && !r.dirty
            && (forall k :: k in r.items <==> k in s.shards[i].items)
            && (forall k :: k in r.items ==> r.items[k] == Persisted(s.shards[i].items[k]))
  {
    hide Candidates, Reloaded, ShardOk, LiveAs, NoGhosts, Bytes, Accounted;
    var r, t := Reloaded(s.index, l, i, s.files), s.shards[i];
    ReloadKeepsPrefix(s.index, l, i, s.files);
    AcceptedFit(s, l, i);
    assert ShardOk(t, i, l, s.files) && Covers(t, s.index);
    forall k | k in t.items
      ensures k in r.items && r.items[k] == Persisted(t.items[k])
    {
      LiveKey(t, i, l, s.files, k);
      LiveHome(s, l, i, k);
      CrashKeepsIff(s, l, i, Persisted(t.items[k]));
    }
    forall k | k in r.items
      ensures k in t.items
    {
      EntryKey(r, k);
      CrashKeepsIff(s, l, i, r.items[k]);
      LiveAsFacts(s, l, r.items[k]);
    }
  }

  lemma LiveHome(s: State, l: Layout, i: int, k: string)
    requires Inv(s, l) && 0 <= i < |s.shards| && k in s.shards[i].items
    ensures l.home(k) == i && s.shards[i].items[k].key == k && LiveAs(s, l, Persisted(s.shards[i].items[k]))
  {
    hide Accounted, FlusherOk, NoGhosts;
    assert ShardOk(s.shards[i], i, l, s.files);
    EntryKey(s.shards[i], k);
  }

  /** The promise for whole runs, crashes included: from any directory a tier may open, after any steps, a
      clean shard under a resting flusher survives a crash exactly. */
  lemma RunsRecoverCleanShards(l: Layout, files: Files, index: seq<ObjectMeta>, steps: seq<Step>, i: int)
    requires ValidLayout(l) && DistinctKeys(index) && 0 <= i < |l.caps|
    requires forall n :: 0 <= n < |index| ==> Persisted(index[n]) == index[n]
    ensures var s := Run(l, Reopened(l, files, index), steps);
            s.flusher == Resting && !s.shards[i].dirty ==>
              var r := Next(l, s, Crash).shards[i];
              && (forall k :: k in r.items <==> k in s.shards[i].items)
              && (forall k :: k in r.items ==> r.items[k] == Persisted(s.shards[i].items[k]))
  {
    hide Inv, Reloaded;
    ReopenedInv(l, files, index);
    RunKeepsInv(Reopened(l, files, index), l, steps);
    var s := Run(l, Reopened(l, files, index), steps);
    if s.flusher == Resting && !s.shards[i].dirty {
      CrashRestoresCleanShard(s, l, i);
    }
  }

  // ----- Stale metadata -----

  /** The index file lists the key with the live size and other metadata. */
  ghost predicate ListedOtherwise(s: State, l: Layout, k: string)
    requires ValidLayout(l) && |s.shards| == |l.caps|
  {
    var items := s.shards[l.home(k)].items;
    k in items && exists n :: 0 <= n < |s.index| && s.index[n].key == k
                              && s.index[n].size == items[k].size && s.index[n] != Persisted(items[k])
  }

  /** What comes back after a crash was live, and its blob is the live one. */
  lemma CrashServesLive(s: State, l: Layout, k: string)
    requires Inv(s, l)
    ensures var h := l.home(k);
            var t := Reopened(l, s.files, s.index);
            k in t.shards[h].items ==>
              k in s.shards[h].items && Blob(k) in s.files && Blob(k) in t.files && t.files[Blob(k)] == s.files[Blob(k)]
  {
    hide Reloaded, FlusherOk, ListOk, LiveAs, Accounted, ShardOk;
    var h, t := l.home(k), Reopened(l, s.files, s.index);
    if k in t.shards[h].items {
      ReloadedEntry(s, l, k);
      var m := t.shards[h].items[k];
      CrashKeepsIff(s, l, h, m);
      LiveAsFacts(s, l, m);
      LiveBlob(s, l, k);
    }
  }

  lemma ReloadedEntry(s: State, l: Layout, k: string)
    requires Inv(s, l) && k in Reloaded(s.index, l, l.home(k), s.files).items
    ensures Reloaded(s.index, l, l.home(k), s.files).items[k].key == k
  {
    hide Reloaded, Candidates, Accounted, FlusherOk, NoGhosts, TierOk;
    ReloadKeepsPrefix(s.index, l, l.home(k), s.files);
    EntryKey(Reloaded(s.index, l, l.home(k), s.files), k);
  }

  lemma LiveBlob(s: State, l: Layout, k: string)
    requires Inv(s, l) && k in s.shards[l.home(k)].items
    ensures Blob(k) in s.files && |s.files[Blob(k)]| == s.shards[l.home(k)].items[k].size
  {
    hide Accounted, FlusherOk, NoGhosts;
    var t := s.shards[l.home(k)];
    assert ShardOk(t, l.home(k), l, s.files);
    EntryKey(t, k);
    BackedBlob(t.items[k], s.files);
  }

  /** A crash serves the live body with other metadata than the live one exactly if the index file lists the
      key that way. */
  lemma StaleIff(s: State, l: Layout, k: string)
    requires Inv(s, l)
    ensures var h := l.home(k);
            var r := Reloaded(s.index, l, h, s.files);
            (k in r.items && k in s.shards[h].items && r.items[k] != Persisted(s.shards[h].items[k]))
            <==> ListedOtherwise(s, l, k)
  {
    hide Reloaded, FlusherOk, NoGhosts, Accounted, ShardOk;
    var h := l.home(k);
    var r, items := Reloaded(s.index, l, h, s.files), s.shards[h].items;
    if k in r.items && k in items && r.items[k] != Persisted(items[k]) {
      ReloadedEntry(s, l, k);
      CrashKeepsIff(s, l, h, r.items[k]);
    }
    if ListedOtherwise(s, l, k) {
      var n :| 0 <= n < |s.index| && s.index[n].key == k && s.index[n].size == items[k].size && s.index[n] != Persisted(items[k]);
      CrashKeepsIff(s, l, h, s.index[n]);
    }
  }

  // ----- A second tier on the same directory -----

  /** Opened with the same budget over a live tier, then closed: it reaps the temporary files, unlinks the blobs
      its reload does not keep, and writes the index file from what it kept. */
  ghost function ColdPass(s: State, l: Layout): State
    requires Inv(s, l)
  {
    var t := Reopened(l, s.files, s.index);
    ReopenedInv(l, s.files, s.index);
    TierIndexed(t.shards, l, t.files);
    s.(files := Reaped(t.files), index := Snapshot(t.shards))
  }

  /** Of the live tier's blobs exactly those go whose key the index file lists with another size. Its
      temporary files all go, so the commits under way will fail. */
  lemma ColdPassSpares(s: State, l: Layout, k: string)
    requires Inv(s, l) && k in s.shards[l.home(k)].items
    ensures var f, size := ColdPass(s, l).files, s.shards[l.home(k)].items[k].size;
            && (Blob(k) in f <==> !exists n :: 0 <= n < |s.index| && s.index[n].key == k && s.index[n].size != size)
            && (Blob(k) in f ==> f[Blob(k)] == s.files[Blob(k)])
            && forall id :: Wip(id) !in f
  {
    hide Reloaded, FlusherOk, NoGhosts, Accounted, ShardOk;
    var h, t := l.home(k), Reopened(l, s.files, s.index);
    LiveBlob(s, l, k);
    if n :| 0 <= n < |s.index| && s.index[n].key == k {
      OnlyListing(s, l, n);
      CrashKeepsIff(s, l, h, s.index[n]);
    } else if k in t.shards[h].items {
      ReloadedEntry(s, l, k);
      CrashKeepsIff(s, l, h, t.shards[h].items[k]);
    }
  }

  /** Keys are listed once, so an entry that comes back for a listed key is the one listed. */
  lemma OnlyListing(s: State, l: Layout, n: int)
    requires Inv(s, l) && 0 <= n < |s.index|
    ensures var k := s.index[n].key;
            var r := Reloaded(s.index, l, l.home(k), s.files);
            k in r.items ==> r.items[k] == s.index[n]
  {
    hide Reloaded, FlusherOk, NoGhosts, Accounted, ShardOk, LiveAs;
    var k := s.index[n].key;
    var r := Reloaded(s.index, l, l.home(k), s.files);
    if k in r.items {
      ReloadedEntry(s, l, k);
      CrashKeepsIff(s, l, l.home(k), r.items[k]);
      var x :| 0 <= x < |s.index| && s.index[x] == r.items[k];
      assert s.index[x].key == s.index[n].key;
    }
  }

  lemma {:induction false} SnapshotHas(shards: seq<Shard>, m: ObjectMeta)
    requires AllIndexed(shards)
    ensures m in Snapshot(shards) <==> exists i :: 0 <= i < |shards| && m in PersistAll(MetasOf(shards[i]))
  {
    if shards != [] {
      SnapshotHas(shards[1..], m);
      assert forall i :: 0 <= i < |shards| - 1 ==> shards[1..][i] == shards[i + 1];
      if m in Snapshot(shards[1..]) {
        var i :| 0 <= i < |shards| - 1 && m in PersistAll(MetasOf(shards[1..][i]));
        assert m in PersistAll(MetasOf(shards[i + 1]));
      }
      if i :| 0 < i < |shards| && m in PersistAll(MetasOf(shards[i])) {
        assert m in PersistAll(MetasOf(shards[1..][i - 1]));
      }
    }
  }

  /** The index file it leaves lists exactly the entries that still agree with the live tier in size. */
  lemma ColdIndexIff(s: State, l: Layout, m: ObjectMeta)
    requires Inv(s, l)
    ensures m in ColdPass(s, l).index <==> m in s.index && LiveAs(s, l, m)
  {
    hide Reloaded, FlusherOk, NoGhosts, Accounted, ShardOk, LiveAs, Snapshot, Metas;
    var t := Reopened(l, s.files, s.index);
    ReopenedInv(l, s.files, s.index);
    TierIndexed(t.shards, l, t.files);
    SnapshotHas(t.shards, m);
    if m in Snapshot(t.shards) {
      var i :| 0 <= i < |t.shards| && m in PersistAll(MetasOf(t.shards[i]));
      ListedComesBack(s, l, i, m);
    }
    if m in s.index && LiveAs(s, l, m) {
      var i := l.home(m.key);
      CrashKeepsIff(s, l, i, m);
      ComesBackListed(s, l, i, m);
    }
  }

  lemma ListedComesBack(s: State, l: Layout, i: int, m: ObjectMeta)
    requires Inv(s, l) && 0 <= i < |s.shards|
    requires var r := Reloaded(s.index, l, i, s.files); Indexed(r.lru, r.items) && m in PersistAll(MetasOf(r))
    ensures m in s.index && LiveAs(s, l, m)
  {
    hide Reloaded, FlusherOk, NoGhosts, Accounted, ShardOk, LiveAs, Metas;
    var r := Reloaded(s.index, l, i, s.files);
    ReloadKeepsPrefix(s.index, l, i, s.files);
    var n :| 0 <= n < |MetasOf(r)| && PersistAll(MetasOf(r))[n] == m;
    EntryIff(r, MetasOf(r)[n]);
    CrashKeepsIff(s, l, i, MetasOf(r)[n]);
  }

  lemma ComesBackListed(s: State, l: Layout, i: int, m: ObjectMeta)
    requires Inv(s, l) && 0 <= i < |s.shards| && m in s.index
    requires var r := Reloaded(s.index, l, i, s.files); m.key in r.items && r.items[m.key] == m
    ensures var r := Reloaded(s.index, l, i, s.files); Indexed(r.lru, r.items) && m in PersistAll(MetasOf(r))
  {
    hide Reloaded, FlusherOk, NoGhosts, Accounted, ShardOk, Metas;
    var r := Reloaded(s.index, l, i, s.files);
    ReloadKeepsPrefix(s.index, l, i, s.files);
    EntryIff(r, m);
    var n :| 0 <= n < |MetasOf(r)| && MetasOf(r)[n] == m;
    assert PersistAll(MetasOf(r))[n] == m;
  }

  /** Under a resting flusher a clean shard keeps all its blobs and stays covered by the index file. */
  lemma ColdPassKeepsClean(s: State, l: Layout, i: int, k: string)
    requires Inv(s, l) && 0 <= i < |s.shards| && s.flusher == Resting && !s.shards[i].dirty && k in s.shards[i].items
    ensures var t := ColdPass(s, l);
            && Blob(k) in t.files && Blob(k) in s.files && t.files[Blob(k)] == s.files[Blob(k)]
            && Persisted(s.shards[i].items[k]) in t.index
  {
    hide Reloaded, NoGhosts, Accounted, ShardOk, ColdPass;
    LiveHome(s, l, i, k);
    assert Covers(s.shards[i], s.index);
    ColdPassSpares(s, l, k);
    ColdIndexIff(s, l, Persisted(s.shards[i].items[k]));
    forall n | 0 <= n < |s.index| && s.index[n].key == k
      ensures s.index[n].size == s.shards[i].items[k].size
    {
      IndexEntryIsLive(s, l, i, n);
    }
    LiveBlob(s, l, k);
  }
}
