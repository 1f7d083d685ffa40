/** A flush over a directory that the old store still uses (internal/config/config.go:668-684,
    internal/server/server.go:1083-1122): the new store drops what it loaded and empties the index file, but
    the old one goes on writing there until it is closed, and then writes its own index file. */
module Flushes {
  import opened Objects
  import opened DiskShard
  import opened Disk
  import opened DiskIndex
  import opened DiskTiers
  import DiskLoad
  import opened Persist
  import opened Crashes

  /** The directory after a second tier was opened over a live one and reset. */
  ghost function Flushed(s: State, l: Layout): Files
    requires Inv(s, l)
  {
    var t := Reopened(l, s.files, s.index);
    map n | n in t.files && n.Blob? && n.key !in t.shards[l.home(n.key)].items :: t.files[n]
  }

  /** A blob of the old store outlives the flush exactly if the index file did not list its key. */
  lemma FlushSpares(s: State, l: Layout, k: string)
    requires Inv(s, l) && k in s.shards[l.home(k)].items
    ensures Blob(k) in Flushed(s, l) <==> !exists n :: 0 <= n < |s.index| && s.index[n].key == k
    ensures Blob(k) in Flushed(s, l) ==> Blob(k) in s.files && Flushed(s, l)[Blob(k)] == s.files[Blob(k)]
  {
    hide Reloaded, FlusherOk, NoGhosts, Accounted, ShardOk;
    var h, t := l.home(k), Reopened(l, s.files, s.index);
    LiveBlob(s, l, k);
    if n :| 0 <= n < |s.index| && s.index[n].key == k {
      OnlyListing(s, l, n);
      CrashKeepsIff(s, l, h, s.index[n]);
    } else if k in t.shards[h].items {
      ReloadedEntry(s, l, k);
      CrashKeepsIff(s, l, h, t.shards[h].items[k]);
    }
  }

  // ----- The old store's index file over any directory -----

  /** What a shard lists, and what of it a directory backs. */
  lemma ListedIff(shards: seq<Shard>, l: Layout, was: Files, i: int, m: ObjectMeta)
    requires ValidLayout(l) && TierOk(shards, l, was) && 0 <= i < |shards| && AllIndexed(shards)
    ensures m in Snapshot(shards) && l.home(m.key) == i <==> m.key in shards[i].items && m == Persisted(shards[i].items[m.key])
  {
    hide Snapshot, Total, Metas;
    SnapshotHas(shards, m);
    if m in Snapshot(shards) && l.home(m.key) == i {
      var j :| 0 <= j < |shards| && m in PersistAll(MetasOf(shards[j]));
      InShard(shards[j], j, l, was, m);
    }
    if m.key in shards[i].items && m == Persisted(shards[i].items[m.key]) {
      assert ShardOk(shards[i], i, l, was);
      ShardLists(shards[i], m);
    }
  }

  lemma InShard(t: Shard, j: int, l: Layout, was: Files, m: ObjectMeta)
    requires 0 <= j < |l.caps| && ShardOk(t, j, l, was) && Indexed(t.lru, t.items) && m in PersistAll(MetasOf(t))
    ensures m.key in t.items && m == Persisted(t.items[m.key]) && l.home(m.key) == j
  {
    hide Total;
    var n :| 0 <= n < |t.lru| && PersistAll(MetasOf(t))[n] == m;
    assert ValidEntry(t.lru[n], t.items[t.lru[n]]);
  }

  lemma ShardLists(t: Shard, m: ObjectMeta)
    requires Accounted(t) && Indexed(t.lru, t.items) && m.key in t.items && m == Persisted(t.items[m.key])
    ensures m in PersistAll(MetasOf(t))
  {
    hide Total;
    var n :| 0 <= n < |t.lru| && t.lru[n] == m.key;
    assert PersistAll(MetasOf(t))[n] == m;
  }

  /** All that the directory backs fits the shard: it did before. */
  lemma ListedFit(shards: seq<Shard>, l: Layout, was: Files, now: Files, i: int)
    requires ValidLayout(l) && TierOk(shards, l, was) && 0 <= i < |shards| && AllIndexed(shards) && DistinctKeys(Snapshot(shards))
    ensures var c := Candidates(Snapshot(shards), l, i, now); Fit(c, l.caps[i]) == |c|
  {
    hide Candidates, ShardOk, Occurs, Bytes, Snapshot, AllIndexed;
    var list, t := Snapshot(shards), shards[i];
    var c := Candidates(list, l, i, now);
    assert ShardOk(t, i, l, was);
    ShardFacts(t, i, l, was);
    CandidatesDistinct(list, l, i, now);
    CandidateOrigin(list, l, i, now);
    forall x | 0 <= x < |c|
      ensures Occurs(c[x], MetasOf(t))
    {
      ListedIff(shards, l, was, i, c[x]);
      LiveOccurs(t, i, l, was, c[x]);
    }
    SubListByKey(c, MetasOf(t));
    FitsWhole(c, MetasOf(t), l.caps[i]);
  }

  /** After the old store has written its index file last, whatever became of the directory: a later opening
      returns an entry of the old store exactly if the directory holds a blob of its key with its size. */
  lemma OldIndexReturns(shards: seq<Shard>, l: Layout, was: Files, now: Files, k: string)
    requires ValidLayout(l) && TierOk(shards, l, was)
    ensures AllIndexed(shards)
    ensures var i := l.home(k);
            var r := Reloaded(Snapshot(shards), l, i, now);
            && (k in r.items <==> k in shards[i].items && Backed(shards[i].items[k], now))
            && (k in r.items ==> r.items[k] == Persisted(shards[i].items[k]))
  {
    hide Candidates, Reloaded, ShardOk, Bytes, Accounted, Snapshot, AllIndexed;
    TierIndexed(shards, l, was);
    assert shards[0..] == shards;
    SnapshotDistinct(shards, l, was, 0);
    var i, list := l.home(k), Snapshot(shards);
    var c, r := Candidates(list, l, i, now), Reloaded(list, l, i, now);
    ReloadKeepsPrefix(list, l, i, now);
    ListedFit(shards, l, was, now, i);
    assert c[..|c|] == c;
    CandidateOrigin(list, l, i, now);
    if k in r.items {
      var m := r.items[k];
      KeyOf(r, k);
      EntryIff(r, m);
      ListedIff(shards, l, was, i, m);
    }
    if k in shards[i].items && Backed(shards[i].items[k], now) {
      assert ShardOk(shards[i], i, l, was);
      var m := Persisted(shards[i].items[k]);
      EntryFacts(shards[i], i, l, was, k);
      ListedIff(shards, l, was, i, m);
      var n :| 0 <= n < |list| && list[n] == m;
      DiskLoad.CandidateMember(list, l, i, now, n);
      EntryIff(r, m);
    }
  }

  lemma KeyOf(r: Shard, k: string)
    requires Accounted(r) && k in r.items
    ensures r.items[k].key == k
  {
    assert ValidEntry(k, r.items[k]);
  }

  lemma EntryFacts(t: Shard, i: int, l: Layout, was: Files, k: string)
    requires 0 <= i < |l.caps| && ShardOk(t, i, l, was) && k in t.items
    ensures t.items[k].key == k && t.items[k].size <= l.caps[i]
  {
    hide Total;
    assert ValidEntry(k, t.items[k]);
    ShardFacts(t, i, l, was);
    var n :| 0 <= n < |t.lru| && t.lru[n] == k;
    var ms := MetasOf(t);
    assert ms[n] == t.items[k];
    OneOfMany(ms, n);
  }

  lemma {:induction false} OneOfMany(ms: seq<ObjectMeta>, n: nat)
    requires n < |ms| && forall x :: 0 <= x < |ms| ==> ms[x].size >= 0
    ensures ms[n].size <= Bytes(ms)
  {
    BytesWithout(ms, n);
    BytesNonNegative(ms[..n] + ms[n + 1..]);
  }

  /** So with nothing in between, the entries of the old recipe that the flush did not get rid of, and that a
      later opening returns, are those that the index file did not list when the new store was opened. */
  lemma FlushUndone(s: State, l: Layout, k: string)
    requires Inv(s, l)
    ensures AllIndexed(s.shards)
    ensures k in Reloaded(Snapshot(s.shards), l, l.home(k), Flushed(s, l)).items <==>
              k in s.shards[l.home(k)].items && !exists n :: 0 <= n < |s.index| && s.index[n].key == k
  {
    hide Reloaded, FlusherOk, NoGhosts, Accounted, ShardOk, Flushed, Snapshot, ListOk, AllIndexed;
    OldIndexReturns(s.shards, l, s.files, Flushed(s, l), k);
    if k in s.shards[l.home(k)].items {
      var h := l.home(k);
      assert ShardOk(s.shards[h], h, l, s.files);
      EntryFacts(s.shards[h], h, l, s.files, k);
      FlushSpares(s, l, k);
      LiveBlob(s, l, k);
    }
  }
}
