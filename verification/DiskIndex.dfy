/** The persisted index of the disk tier (internal/cache/disk.go, snapshotIfDirty and load): what a
    snapshot writes, and what a reload makes of it under any budget. */
module DiskIndex {
  import opened Objects
  import opened Rings
  import opened DiskShard
  import opened Disk

  /** What the index file keeps of an entry: everything but the placement hint. */
  function Persisted(m: ObjectMeta): ObjectMeta {
    m.(tier := "")
  }

  function PersistAll(ms: seq<ObjectMeta>): (r: seq<ObjectMeta>)
    ensures |r| == |ms| && forall i :: 0 <= i < |ms| ==> r[i] == Persisted(ms[i])
  {
    seq(|ms|, i requires 0 <= i < |ms| => Persisted(ms[i]))
  }

  /** The index file of these shards: each in recency order, one after the other. */
  function Snapshot(shards: seq<Shard>): seq<ObjectMeta>
    requires AllIndexed(shards)
  {
    if shards == [] then []
    else PersistAll(Metas(shards[0].lru, shards[0].items)) + Snapshot(shards[1..])
  }

  ghost predicate AllIndexed(shards: seq<Shard>) {
    forall i :: 0 <= i < |shards| ==> Indexed(shards[i].lru, shards[i].items)
  }

  lemma {:induction false} SnapshotAppend(a: seq<Shard>, s: Shard)
    requires AllIndexed(a) && Indexed(s.lru, s.items)
    ensures AllIndexed(a + [s])
    ensures Snapshot(a + [s]) == Snapshot(a) + PersistAll(Metas(s.lru, s.items))
  {
    var ms := PersistAll(Metas(s.lru, s.items));
    if a == [] {
      assert a + [s] == [s] && [s][1..] == [];
      assert ms + [] == ms;
    } else {
      assert (a + [s])[1..] == a[1..] + [s];
      SnapshotAppend(a[1..], s);
      var head := PersistAll(Metas(a[0].lru, a[0].items));
      assert head + (Snapshot(a[1..]) + ms) == head + Snapshot(a[1..]) + ms;
    }
  }

  ghost predicate DistinctKeys(ms: seq<ObjectMeta>) {
    forall i, j :: 0 <= i < j < |ms| ==> ms[i].key != ms[j].key
  }

  // ----- Reload -----

  /** Where a tier puts its entries: the shard of each key and the cap of each shard. */
  datatype Layout = Layout(caps: seq<int>, home: string -> int)

  ghost predicate ValidLayout(l: Layout) {
    forall k :: 0 <= l.home(k) < |l.caps|
  }

  /** Links a reloaded entry at the front; reloading does not dirty the shard. */
  function LoadEntry(s: Shard, m: ObjectMeta): Shard {
    s.(curBytes := s.curBytes + m.size,
       atomicBytes := s.curBytes + m.size,
       lru := [m.key] + s.lru,
       items := s.items[m.key := m])
  }

  /** The shard holding exactly these entries, first one most recently used. */
  function FromList(cap: int, ms: seq<ObjectMeta>): Shard {
    if ms == [] then Shard(cap, 0, 0, map[], [], false)
    else LoadEntry(FromList(cap, ms[1..]), ms[0])
  }

  predicate Accepts(m: ObjectMeta, cap: int, files: Files) {
    Backed(m, files) && m.size <= cap
  }

  /** The entries of the file that shard `j` can hold, in file order. */
  function Candidates(entries: seq<ObjectMeta>, l: Layout, j: int, files: Files): seq<ObjectMeta>
    requires 0 <= j < |l.caps|
  {
    if entries == [] then []
    else
      var rest := Candidates(entries[1..], l, j, files);
      if l.home(entries[0].key) == j && Accepts(entries[0], l.caps[j], files) then [entries[0]] + rest else rest
  }

  /** The keys whose blob a reload unlinks at once: stale, partial or too large for their shard. */
  ghost function Rejected(entries: seq<ObjectMeta>, l: Layout, files: Files): set<string>
    requires ValidLayout(l)
  {
    if entries == [] then {}
    else
      Rejected(entries[1..], l, files)
      + (if Accepts(entries[0], l.caps[l.home(entries[0].key)], files) then {} else {entries[0].key})
  }

  // ----- FromList -----

  lemma {:induction false} FromListKeys(cap: int, ms: seq<ObjectMeta>)
    ensures var s := FromList(cap, ms);
            && s.maxBytes == cap && !s.dirty
            && |s.lru| == |ms| && (forall i :: 0 <= i < |ms| ==> s.lru[i] == ms[i].key)
            && (forall k :: k in s.items ==> k in s.lru)
  {
    if ms != [] {
      FromListKeys(cap, ms[1..]);
    }
  }

  lemma LoadAccounted(s: Shard, m: ObjectMeta)
    requires Accounted(s) && m.key !in s.items && m.size >= 0
    ensures Accounted(LoadEntry(s, m))
  {
    hide Accounted;
    InstallAccounted(s, m);
    DirtyIrrelevant(InstallEntry(s, m), s.dirty);
  }

  lemma EmptyAccounted(cap: int)
    ensures Accounted(FromList(cap, [])) && MetasOf(FromList(cap, [])) == []
  {
  }

  /** A reloaded shard accounts for exactly the listed entries, in the listed order. */
  lemma {:induction false} FromListAccounted(cap: int, ms: seq<ObjectMeta>)
    requires DistinctKeys(ms) && forall i :: 0 <= i < |ms| ==> ms[i].size >= 0
    ensures Accounted(FromList(cap, ms)) && MetasOf(FromList(cap, ms)) == ms
  {
    hide Total, Linked;
    if ms == [] {
      EmptyAccounted(cap);
    } else {
      var t := FromList(cap, ms[1..]);
      FromListAccounted(cap, ms[1..]);
      FromListKeys(cap, ms[1..]);
      FreshKey(ms, t);
      LoadAccounted(t, ms[0]);
      LoadMetas(t, ms[0]);
    }
  }

  lemma LoadMetas(s: Shard, m: ObjectMeta)
    requires Accounted(s) && Accounted(LoadEntry(s, m)) && m.key !in s.items
    ensures MetasOf(LoadEntry(s, m)) == [m] + MetasOf(s)
  {
    hide Total, Distinct;
  }

  lemma FreshKey(ms: seq<ObjectMeta>, t: Shard)
    requires ms != [] && DistinctKeys(ms)
    requires |t.lru| == |ms| - 1 && forall i :: 0 <= i < |t.lru| ==> t.lru[i] == ms[i + 1].key
    requires forall k :: k in t.items ==> k in t.lru
    ensures ms[0].key !in t.items
  {
  }

  // ----- Candidates -----

  lemma {:induction false} CandidateOrigin(entries: seq<ObjectMeta>, l: Layout, j: int, files: Files)
    requires 0 <= j < |l.caps|
    ensures forall i :: 0 <= i < |Candidates(entries, l, j, files)| ==>
              var m := Candidates(entries, l, j, files)[i];
              m in entries && l.home(m.key) == j && Accepts(m, l.caps[j], files)
  {
    if entries != [] {
      CandidateOrigin(entries[1..], l, j, files);
    }
  }

  lemma {:induction false} CandidatesDistinct(entries: seq<ObjectMeta>, l: Layout, j: int, files: Files)
    requires 0 <= j < |l.caps| && DistinctKeys(entries)
    ensures DistinctKeys(Candidates(entries, l, j, files))
  {
    if entries != [] {
      var rest := Candidates(entries[1..], l, j, files);
      CandidatesDistinct(entries[1..], l, j, files);
      CandidateOrigin(entries[1..], l, j, files);
      forall i | 0 <= i < |rest|
        ensures rest[i].key != entries[0].key
      {
        var m := rest[i];
        assert m in entries[1..];
      }
    }
  }

  /** Reloading shard `j`: its candidates, then eviction down to the cap. */
  ghost function Reloaded(entries: seq<ObjectMeta>, l: Layout, j: int, files: Files): Shard
    requires 0 <= j < |l.caps|
  {
    EvictTo(FromList(l.caps[j], Candidates(entries, l, j, files)), l.caps[j])
  }

  /** Whatever the budget or shard count, a reload keeps, per shard, the longest prefix in file order
      of the individually fitting entries that fits the shard's cap together. */
  lemma ReloadKeepsPrefix(entries: seq<ObjectMeta>, l: Layout, j: int, files: Files)
    requires 0 <= j < |l.caps| && DistinctKeys(entries)
    ensures var c, r := Candidates(entries, l, j, files), Reloaded(entries, l, j, files);
            && Valid(r) && r.maxBytes == l.caps[j]
            && MetasOf(r) == c[..Fit(c, l.caps[j])]
            && (r.dirty <==> Fit(c, l.caps[j]) < |c|)
  {
    var c, cap := Candidates(entries, l, j, files), l.caps[j];
    var s := FromList(cap, c);
    CandidateOrigin(entries, l, j, files);
    CandidatesDistinct(entries, l, j, files);
    FromListAccounted(cap, c);
    FromListKeys(cap, c);
    EvictClosedForm(s, cap);
    CutMetas(s, EvictTo(s, cap), Fit(c, cap));
  }

  lemma CutMetas(s: Shard, r: Shard, n: nat)
    requires Accounted(s) && Accounted(r) && CutTo(s, r, n)
    ensures MetasOf(r) == MetasOf(s)[..n]
  {
    hide Total, Distinct;
  }

  // ----- Snapshot, then reload -----

  /** A running tier: shards within their caps, each key in its home shard and backed by its blob. */
  ghost predicate ShardOk(s: Shard, i: int, l: Layout, files: Files)
    requires 0 <= i < |l.caps|
  {
    && Valid(s) && s.maxBytes == l.caps[i]
    && (forall k :: k in s.items ==> l.home(k) == i)
    && AllBacked(s, files)
  }

  ghost predicate TierOk(shards: seq<Shard>, l: Layout, files: Files) {
    && |shards| == |l.caps|
    && forall i :: 0 <= i < |shards| ==> ShardOk(shards[i], i, l, files)
  }

  lemma {:induction false} CandidatesConcat(a: seq<ObjectMeta>, b: seq<ObjectMeta>, l: Layout, j: int, files: Files)
    requires 0 <= j < |l.caps|
    ensures Candidates(a + b, l, j, files) == Candidates(a, l, j, files) + Candidates(b, l, j, files)
  {
    if a == [] {
      assert a + b == b;
    } else {
      assert (a + b)[1..] == a[1..] + b;
      CandidatesConcat(a[1..], b, l, j, files);
    }
  }

  lemma {:induction false} CandidatesAll(ms: seq<ObjectMeta>, l: Layout, j: int, files: Files)
    requires 0 <= j < |l.caps|
    requires forall i :: 0 <= i < |ms| ==> l.home(ms[i].key) == j && Accepts(ms[i], l.caps[j], files)
    ensures Candidates(ms, l, j, files) == ms
  {
    if ms != [] {
      CandidatesAll(ms[1..], l, j, files);
    }
  }

  lemma {:induction false} CandidatesNone(ms: seq<ObjectMeta>, l: Layout, j: int, files: Files)
    requires 0 <= j < |l.caps|
    requires forall i :: 0 <= i < |ms| ==> l.home(ms[i].key) != j
    ensures Candidates(ms, l, j, files) == []
  {
    if ms != [] {
      CandidatesNone(ms[1..], l, j, files);
    }
  }

  lemma {:induction false} EachFits(ms: seq<ObjectMeta>, i: nat)
    requires i < |ms| && forall n :: 0 <= n < |ms| ==> ms[n].size >= 0
    ensures ms[i].size <= Bytes(ms)
  {
    BytesNonNegative(ms[1..]);
    if i > 0 {
      EachFits(ms[1..], i - 1);
    }
  }

  lemma {:induction false} PersistedBytes(ms: seq<ObjectMeta>)
    ensures Bytes(PersistAll(ms)) == Bytes(ms)
  {
    if ms != [] {
      assert PersistAll(ms)[1..] == PersistAll(ms[1..]);
      PersistedBytes(ms[1..]);
    }
  }

  /** Each entry of a running shard would be accepted again by the same shard. */
  lemma ShardEntryOk(s: Shard, i: int, l: Layout, files: Files, n: int)
    requires 0 <= i < |l.caps| && ShardOk(s, i, l, files) && 0 <= n < |s.lru|
    ensures Indexed(s.lru, s.items)
    ensures var m := MetasOf(s)[n];
            && m.key == s.lru[n] && m.size >= 0 && l.home(m.key) == i
            && Accepts(m, l.caps[i], files) && Accepts(Persisted(m), l.caps[i], files)
  {
    AccountedBytes(s);
    var k := s.lru[n];
    assert k in s.items && ValidEntry(k, s.items[k]) && Backed(s.items[k], files);
    forall x | 0 <= x < |s.lru|
      ensures MetasOf(s)[x].size >= 0
    {
      assert ValidEntry(s.lru[x], s.items[s.lru[x]]);
    }
    hide Total;
    EachFits(MetasOf(s), n);
  }

  lemma ShardCandidates(s: Shard, i: int, l: Layout, j: int, files: Files)
    requires 0 <= i < |l.caps| && 0 <= j < |l.caps| && ShardOk(s, i, l, files)
    ensures Indexed(s.lru, s.items)
    ensures Candidates(PersistAll(MetasOf(s)), l, j, files) == if i == j then PersistAll(MetasOf(s)) else []
  {
    hide Accounted, Accepts;
    AccountedIndexed(s);
    var ms := PersistAll(MetasOf(s));
    forall n | 0 <= n < |ms|
      ensures l.home(ms[n].key) == i && Accepts(ms[n], l.caps[i], files)
    {
      ShardEntryOk(s, i, l, files, n);
    }
    if i == j {
      CandidatesAll(ms, l, j, files);
    } else {
      CandidatesNone(ms, l, j, files);
    }
  }

  lemma AccountedIndexed(s: Shard)
    requires Accounted(s)
    ensures Indexed(s.lru, s.items)
  {
  }

  lemma TierIndexed(shards: seq<Shard>, l: Layout, files: Files)
    requires TierOk(shards, l, files)
    ensures AllIndexed(shards)
  {
    hide Accounted, Indexed;
    forall i | 0 <= i < |shards|
      ensures Indexed(shards[i].lru, shards[i].items)
    {
      assert ShardOk(shards[i], i, l, files);
      AccountedIndexed(shards[i]);
    }
  }

  lemma {:induction false} SnapshotCandidates(shards: seq<Shard>, l: Layout, j: int, files: Files, i: nat)
    requires TierOk(shards, l, files) && 0 <= j < |l.caps| && i <= |shards|
    requires AllIndexed(shards)
    ensures Candidates(Snapshot(shards[i..]), l, j, files)
            == if i <= j then PersistAll(MetasOf(shards[j])) else []
    decreases |shards| - i
  {
    hide ShardOk, Snapshot, Candidates, PersistAll;
    if i < |shards| {
      SnapshotCandidates(shards, l, j, files, i + 1);
      ShardCandidates(shards[i], i, l, j, files);
      SnapshotStep(shards, i);
      var a, b := PersistAll(MetasOf(shards[i])), Snapshot(shards[i + 1..]);
      CandidatesConcat(a, b, l, j, files);
      assert i == j ==> a + [] == a;
    } else {
      NoCandidates(shards, l, j, files);
    }
  }

  lemma SnapshotStep(shards: seq<Shard>, i: nat)
    requires AllIndexed(shards) && i < |shards|
    ensures Snapshot(shards[i..]) == PersistAll(MetasOf(shards[i])) + Snapshot(shards[i + 1..])
  {
    assert shards[i..][1..] == shards[i + 1..];
  }

  lemma NoCandidates(shards: seq<Shard>, l: Layout, j: int, files: Files)
    requires 0 <= j < |l.caps|
    ensures Candidates(Snapshot(shards[|shards|..]), l, j, files) == []
  {
  }

  /** A snapshot lists each key once. */
  lemma {:induction false} SnapshotDistinct(shards: seq<Shard>, l: Layout, files: Files, i: nat)
    requires TierOk(shards, l, files) && i <= |shards|
    requires AllIndexed(shards)
    ensures DistinctKeys(Snapshot(shards[i..]))
    ensures forall x :: 0 <= x < |Snapshot(shards[i..])| ==> i <= l.home(Snapshot(shards[i..])[x].key)
    decreases |shards| - i
  {
    if i < |shards| {
      SnapshotDistinct(shards, l, files, i + 1);
      var a, b := PersistAll(MetasOf(shards[i])), Snapshot(shards[i + 1..]);
      SnapshotStep(shards, i);
      ShardKeys(shards[i], i, l, files);
      hide ShardOk, Snapshot, PersistAll;
      ConcatDistinct(a, b, l, i);
    }
  }

  lemma ShardKeys(s: Shard, i: int, l: Layout, files: Files)
    requires 0 <= i < |l.caps| && ShardOk(s, i, l, files) && Indexed(s.lru, s.items)
    ensures DistinctKeys(PersistAll(MetasOf(s)))
    ensures forall n :: 0 <= n < |s.lru| ==> l.home(PersistAll(MetasOf(s))[n].key) == i
  {
    hide Total;
    forall n | 0 <= n < |s.lru|
      ensures PersistAll(MetasOf(s))[n].key == s.lru[n]
    {
      assert ValidEntry(s.lru[n], s.items[s.lru[n]]);
    }
  }

  lemma ConcatDistinct(a: seq<ObjectMeta>, b: seq<ObjectMeta>, l: Layout, i: int)
    requires DistinctKeys(a) && DistinctKeys(b)
    requires forall n :: 0 <= n < |a| ==> l.home(a[n].key) == i
    requires forall n :: 0 <= n < |b| ==> i < l.home(b[n].key)
    ensures DistinctKeys(a + b)
    ensures forall x :: 0 <= x < |a + b| ==> i <= l.home((a + b)[x].key)
  {
    forall x, y | 0 <= x < y < |a + b|
      ensures (a + b)[x].key != (a + b)[y].key
    {
      assert x < |a| ==> l.home((a + b)[x].key) == i;
      assert y >= |a| ==> i < l.home((a + b)[y].key);
    }
  }

  /** Closing and reopening at the same budget: the index names each key once, and every shard comes
      back clean with the same entries in the same recency order, placement hints aside. */
  lemma ReopenRestores(shards: seq<Shard>, l: Layout, files: Files, j: int)
    requires TierOk(shards, l, files) && 0 <= j < |shards|
    requires AllIndexed(shards)
    ensures DistinctKeys(Snapshot(shards))
    ensures var r := Reloaded(Snapshot(shards), l, j, files);
            && Valid(r) && !r.dirty && r.lru == shards[j].lru
            && MetasOf(r) == PersistAll(MetasOf(shards[j]))
  {
    var r := Reloaded(Snapshot(shards), l, j, files);
    var ms := PersistAll(MetasOf(shards[j]));
    assert shards[0..] == shards;
    SnapshotDistinct(shards, l, files, 0);
    SnapshotCandidates(shards, l, j, files, 0);
    ReloadKeepsPrefix(Snapshot(shards), l, j, files);
    assert ShardOk(shards[j], j, l, files);
    WholeShardFits(shards[j], j, l, files);
    assert ms[..|ms|] == ms;
    hide Snapshot, Reloaded, TierOk;
    SameKeys(r, shards[j], l, j, files);
  }

  lemma WholeShardFits(s: Shard, i: int, l: Layout, files: Files)
    requires 0 <= i < |l.caps| && ShardOk(s, i, l, files) && Indexed(s.lru, s.items)
    ensures Fit(PersistAll(MetasOf(s)), l.caps[i]) == |s.lru|
  {
    AccountedBytes(s);
    PersistedBytes(MetasOf(s));
  }

  /** Entries carry their key, so equal entry lists mean equal recency lists. */
  lemma SameKeys(r: Shard, s: Shard, l: Layout, i: int, files: Files)
    requires 0 <= i < |l.caps| && ShardOk(s, i, l, files) && Valid(r)
    requires Indexed(s.lru, s.items) && Indexed(r.lru, r.items)
    requires MetasOf(r) == PersistAll(MetasOf(s))
    ensures r.lru == s.lru
  {
    hide Total;
    forall n | 0 <= n < |s.lru|
      ensures r.lru[n] == s.lru[n]
    {
      assert ValidEntry(s.lru[n], s.items[s.lru[n]]);
      assert ValidEntry(r.lru[n], r.items[r.lru[n]]);
      assert MetasOf(r)[n].key == MetasOf(s)[n].key;
    }
    assert |r.lru| == |s.lru|;
  }
}
