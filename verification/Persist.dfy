/** Index persistence as a protocol (internal/cache/disk.go, flushIfDirty): one background flusher
    snapshots shard by shard and writes outside the locks, while commits, deletes, evictions and
    hits go on and index writes may fail; a crash may come between any two steps. */
module Persist {
  import opened Objects
  import opened DiskShard
  import opened Disk
  import opened DiskIndex
  import opened DiskTiers
  import DiskLoad
  import Rings

  datatype Flusher =
    | Resting
    | Snapping(next: nat, acc: seq<ObjectMeta>, any: bool)
    | Writing(list: seq<ObjectMeta>)
    | Rearming(next: nat)

  /** Memory (shards, flusher) and disk (files, index). An absent index file reads as an empty list. */
  datatype State = State(shards: seq<Shard>, files: Files, index: seq<ObjectMeta>, flusher: Flusher)

  datatype Step =
    | Install(meta: ObjectMeta, body: seq<byte>)   // the end of a commit: rename and link
    | Remove(key: string)                          // eviction, deletion, or replacement by a commit
    | Hit(key: string)
    | StartFlush
    | Snap
    | Decide
    | WriteOk
    | WriteFail
    | Rearm
    | Crash                                        // memory is lost and the tier reopens

  /** One step; a step that is not enabled changes nothing. */
  ghost function Next(l: Layout, s: State, step: Step): State
    requires ValidLayout(l) && |s.shards| == |l.caps|
  {
    match step
    case Install(m, body) =>
      var h := l.home(m.key);
      if m.key in s.shards[h].items || m.size != |body| || s.shards[h].curBytes + m.size > s.shards[h].maxBytes then s
      else s.(shards := s.shards[h := InstallEntry(s.shards[h], m)], files := s.files[Blob(m.key) := body])
    case Remove(k) =>
      var h := l.home(k);
      if k !in s.shards[h].items then s
      else s.(shards := s.shards[h := RemoveEntry(s.shards[h], k)], files := s.files - {Blob(k)})
    case Hit(k) =>
      var h := l.home(k);
      if k !in s.shards[h].items then s
      else s.(shards := s.shards[h := TouchEntry(s.shards[h], k)])
    case StartFlush => if s.flusher == Resting then s.(flusher := Snapping(0, [], false)) else s
    case Snap =>
      if s.flusher.Snapping? && s.flusher.next < |s.shards| then
        var i, f := s.flusher.next, s.flusher;
        s.(shards := s.shards[i := s.shards[i].(dirty := false)],
           flusher := Snapping(i + 1, f.acc + Listing(s.shards[i]), f.any || s.shards[i].dirty))
      else s
    case Decide =>
      if s.flusher.Snapping? && s.flusher.next == |s.shards| then
        s.(flusher := if s.flusher.any then Writing(s.flusher.acc) else Resting)
      else s
    case WriteOk => if s.flusher.Writing? then s.(index := s.flusher.list, flusher := Resting) else s
    case WriteFail => if s.flusher.Writing? then s.(flusher := Rearming(0)) else s
    case Rearm =>
      if s.flusher.Rearming? then
        var i := s.flusher.next;
        if i < |s.shards| then s.(shards := s.shards[i := s.shards[i].(dirty := true)], flusher := Rearming(i + 1))
        else s.(flusher := Resting)
      else s
    case Crash => Reopened(l, s.files, s.index)
  }

  ghost function ReloadedShards(l: Layout, files: Files, index: seq<ObjectMeta>): (r: seq<Shard>)
    ensures |r| == |l.caps| && forall j :: 0 <= j < |r| ==> r[j] == Reloaded(index, l, j, files)
  {
    seq(|l.caps|, j requires 0 <= j < |l.caps| => Reloaded(index, l, j, files))
  }

  /** The tier as it comes up over a directory and an index file. */
  ghost function Reopened(l: Layout, files: Files, index: seq<ObjectMeta>): State
    requires ValidLayout(l)
  {
    var shards := ReloadedShards(l, files, index);
    State(shards, DropBlobs(files, DiskLoad.Unkept(index, shards, l)), index, Resting)
  }

  /** What a snapshot of one shard appends. */
  function Listing(s: Shard): seq<ObjectMeta> {
    if forall i :: 0 <= i < |s.lru| ==> s.lru[i] in s.items then PersistAll(Metas(s.lru, s.items)) else []
  }

  /** Any interleaving, from a starting state. */
  ghost function Run(l: Layout, s: State, steps: seq<Step>): (r: State)
    requires ValidLayout(l) && |s.shards| == |l.caps|
    ensures |r.shards| == |l.caps|
  {
    if steps == [] then s else Next(l, Run(l, s, steps[..|steps| - 1]), steps[|steps| - 1])
  }

  // ----- The invariant -----

  /** Every entry of the shard is listed with equal (persisted) metadata. */
  ghost predicate Covers(s: Shard, list: seq<ObjectMeta>) {
    forall k :: k in s.items ==> Persisted(s.items[k]) in list
  }

  ghost predicate CleanCovered(shards: seq<Shard>, list: seq<ObjectMeta>, lo: int, hi: int) {
    forall i :: 0 <= i < |shards| && lo <= i < hi && !shards[i].dirty ==> Covers(shards[i], list)
  }

  /** A listed key that is not in its shard has no blob. */
  ghost predicate NoGhosts(list: seq<ObjectMeta>, shards: seq<Shard>, files: Files, l: Layout)
    requires ValidLayout(l) && |shards| == |l.caps|
  {
    forall n :: 0 <= n < |list| && list[n].key !in shards[l.home(list[n].key)].items ==> Blob(list[n].key) !in files
  }

  ghost predicate ListOk(list: seq<ObjectMeta>, shards: seq<Shard>, files: Files, l: Layout)
    requires ValidLayout(l) && |shards| == |l.caps|
  {
    && DistinctKeys(list)
    && NoGhosts(list, shards, files, l)
    && forall n :: 0 <= n < |list| ==> Persisted(list[n]) == list[n]
  }

  ghost predicate FlusherOk(s: State, l: Layout)
    requires ValidLayout(l) && |s.shards| == |l.caps|
  {
    var n := |s.shards|;
    match s.flusher
    case Resting => CleanCovered(s.shards, s.index, 0, n)
    case Snapping(next, acc, any) =>
      && next <= n
      && ListOk(acc, s.shards, s.files, l)
      && (forall x :: 0 <= x < |acc| ==> l.home(acc[x].key) < next)
      && CleanCovered(s.shards, acc, 0, next)
      && CleanCovered(s.shards, s.index, if any then next else 0, n)
    case Writing(list) => ListOk(list, s.shards, s.files, l) && CleanCovered(s.shards, list, 0, n)
    case Rearming(next) => next <= n && forall i :: 0 <= i < next ==> s.shards[i].dirty
  }

  ghost predicate Inv(s: State, l: Layout) {
    && ValidLayout(l) && TierOk(s.shards, l, s.files)
    && ListOk(s.index, s.shards, s.files, l)
    && FlusherOk(s, l)
  }

  // ----- Steps on one shard: commits, removals, hits -----

  /** What such a step may do to shard `h`: a change of entries sets the dirty flag, a key that is
      out of the shard afterwards has no blob unless it had a stray one before, and other shards' blobs stay. */
  ghost predicate LocalStep(was: Shard, now: Shard, files: Files, fs: Files, l: Layout, h: int) {
    && (now.dirty || (now.items == was.items && now.dirty == was.dirty))
    && (was.dirty ==> now.dirty)
    && (forall k :: l.home(k) == h && k !in now.items && (k in was.items || Blob(k) !in files) ==> Blob(k) !in fs)
    && (forall k :: l.home(k) != h && Blob(k) !in files ==> Blob(k) !in fs)
  }

  lemma CoveredAfter(shards: seq<Shard>, h: int, now: Shard, list: seq<ObjectMeta>, lo: int, hi: int)
    requires 0 <= h < |shards| && CleanCovered(shards, list, lo, hi)
    requires now.dirty || (now.items == shards[h].items && now.dirty == shards[h].dirty)
    ensures CleanCovered(shards[h := now], list, lo, hi)
  {
    var after := shards[h := now];
    forall i | 0 <= i < |after| && lo <= i < hi && !after[i].dirty
      ensures Covers(after[i], list)
    {
      assert Covers(shards[i], list);
    }
  }

  lemma ListAfter(list: seq<ObjectMeta>, shards: seq<Shard>, files: Files, l: Layout, h: int, now: Shard, fs: Files)
    requires ValidLayout(l) && |shards| == |l.caps| && 0 <= h < |shards|
    requires ListOk(list, shards, files, l) && LocalStep(shards[h], now, files, fs, l, h)
    ensures ListOk(list, shards[h := now], fs, l)
  {
    hide DistinctKeys;
  }

  lemma TierAfter(shards: seq<Shard>, l: Layout, files: Files, h: int, now: Shard, fs: Files)
    requires TierOk(shards, l, files) && 0 <= h < |shards|
    requires ShardOk(now, h, l, fs) && BlobsKeptOutside(files, fs, l, h)
    ensures TierOk(shards[h := now], l, fs)
  {
    forall j | 0 <= j < |shards| && j != h
      ensures ShardOk(shards[j], j, l, fs)
    {
      OtherShardOk(shards[j], j, h, l, files, fs);
    }
    hide ShardOk;
  }

  lemma LocalStepKeepsInv(s: State, l: Layout, h: int, now: Shard, fs: Files)
    requires Inv(s, l) && 0 <= h < |s.shards|
    requires ShardOk(now, h, l, fs) && BlobsKeptOutside(s.files, fs, l, h)
    requires LocalStep(s.shards[h], now, s.files, fs, l, h)
    ensures Inv(s.(shards := s.shards[h := now], files := fs), l)
  {
    hide ShardOk, BlobsKeptOutside, CleanCovered, ListOk;
    var n := |s.shards|;
    TierAfter(s.shards, l, s.files, h, now, fs);
    ListAfter(s.index, s.shards, s.files, l, h, now, fs);
    match s.flusher
    case Resting =>
      CoveredAfter(s.shards, h, now, s.index, 0, n);
    case Snapping(next, acc, any) =>
      ListAfter(acc, s.shards, s.files, l, h, now, fs);
      CoveredAfter(s.shards, h, now, acc, 0, next);
      CoveredAfter(s.shards, h, now, s.index, if any then next else 0, n);
    case Writing(list) =>
      ListAfter(list, s.shards, s.files, l, h, now, fs);
      CoveredAfter(s.shards, h, now, list, 0, n);
    case Rearming(next) =>
  }

  lemma InstallKeepsInv(s: State, l: Layout, m: ObjectMeta, body: seq<byte>)
    requires Inv(s, l)
    ensures Inv(Next(l, s, Install(m, body)), l)
  {
    var h := l.home(m.key);
    var was := s.shards[h];
    if m.key !in was.items && m.size == |body| && was.curBytes + m.size <= was.maxBytes {
      var now, fs := InstallEntry(was, m), s.files[Blob(m.key) := body];
      assert ShardOk(was, h, l, s.files);
      InstallOk(was, h, l, s.files, m, body);
      hide Inv, ShardOk, BlobsKeptOutside;
      LocalStepKeepsInv(s, l, h, now, fs);
    }
  }

  lemma InstallOk(was: Shard, h: int, l: Layout, files: Files, m: ObjectMeta, body: seq<byte>)
    requires 0 <= h < |l.caps| && l.home(m.key) == h && ShardOk(was, h, l, files)
    requires m.key !in was.items && m.size == |body| && was.curBytes + m.size <= was.maxBytes
    ensures ShardOk(InstallEntry(was, m), h, l, files[Blob(m.key) := body])
    ensures BlobsKeptOutside(files, files[Blob(m.key) := body], l, h)
    ensures LocalStep(was, InstallEntry(was, m), files, files[Blob(m.key) := body], l, h)
  {
    hide Accounted, Backed, LocalStep;
    InstallAccounted(was, m);
    var fs := files[Blob(m.key) := body];
    forall k | k in was.items
      ensures Backed(was.items[k], fs)
    {
      assert Backed(was.items[k], files);
      EntryKey(was, k);
      BackedBlob(was.items[k], files);
      NewlyBacked(was.items[k], fs);
    }
    NewlyBacked(m, fs);
    InstallLocal(was, h, l, files, m, body);
  }

  lemma InstallLocal(was: Shard, h: int, l: Layout, files: Files, m: ObjectMeta, body: seq<byte>)
    requires l.home(m.key) == h
    ensures LocalStep(was, InstallEntry(was, m), files, files[Blob(m.key) := body], l, h)
  {
  }

  lemma RemoveKeepsInv(s: State, l: Layout, k: string)
    requires Inv(s, l)
    ensures Inv(Next(l, s, Remove(k)), l)
  {
    var h := l.home(k);
    var was := s.shards[h];
    assert ShardOk(was, h, l, s.files);
    hide Inv, ShardOk, BlobsKeptOutside;
    if k in was.items {
      RemoveOk(was, h, l, s.files, k);
      LocalStepKeepsInv(s, l, h, RemoveEntry(was, k), s.files - {Blob(k)});
    }
  }

  lemma HitKeepsInv(s: State, l: Layout, k: string)
    requires Inv(s, l)
    ensures Inv(Next(l, s, Hit(k)), l)
  {
    var h := l.home(k);
    var was := s.shards[h];
    if k in was.items {
      assert ShardOk(was, h, l, s.files);
      TouchOk(was, h, l, s.files, k);
      NoFileChange(s.files, l, h);
      TouchLocal(was, s.files, l, h, k);
      hide Inv, ShardOk, BlobsKeptOutside, LocalStep, TouchEntry;
      LocalStepKeepsInv(s, l, h, TouchEntry(was, k), s.files);
    }
  }

  lemma TouchLocal(was: Shard, files: Files, l: Layout, h: int, k: string)
    ensures LocalStep(was, TouchEntry(was, k), files, files, l, h)
  {
  }

  // ----- Steps of the flusher -----

  /** Clearing or setting a dirty flag leaves the tier and the lists in order. */
  lemma FlagKeepsTier(shards: seq<Shard>, l: Layout, files: Files, i: int, dirty: bool)
    requires TierOk(shards, l, files) && 0 <= i < |shards|
    ensures TierOk(shards[i := shards[i].(dirty := dirty)], l, files)
  {
    hide Linked, Total, Backed;
    assert ShardOk(shards[i], i, l, files);
    assert ShardOk(shards[i].(dirty := dirty), i, l, files);
  }

  lemma FlagKeepsList(list: seq<ObjectMeta>, shards: seq<Shard>, l: Layout, files: Files, i: int, dirty: bool)
    requires ValidLayout(l) && |shards| == |l.caps| && 0 <= i < |shards| && ListOk(list, shards, files, l)
    ensures ListOk(list, shards[i := shards[i].(dirty := dirty)], files, l)
  {
    hide DistinctKeys;
  }

  lemma ListingOk(s: Shard, i: int, l: Layout, files: Files)
    requires 0 <= i < |l.caps| && ShardOk(s, i, l, files)
    ensures Covers(s, Listing(s)) && DistinctKeys(Listing(s))
    ensures forall x :: 0 <= x < |Listing(s)| ==> l.home(Listing(s)[x].key) == i && Listing(s)[x].key in s.items
    ensures forall x :: 0 <= x < |Listing(s)| ==> Persisted(Listing(s)[x]) == Listing(s)[x]
  {
    hide Total, AllBacked, DistinctKeys, Covers, ValidEntry;
    AccountedIndexed(s);
    assert Listing(s) == PersistAll(MetasOf(s));
    ShardKeys(s, i, l, files);
    ListingCovers(s);
    ListingEntries(s);
  }

  lemma ListingCovers(s: Shard)
    requires Accounted(s)
    ensures Covers(s, Listing(s))
  {
    hide Total;
    AccountedIndexed(s);
    forall k | k in s.items
      ensures Persisted(s.items[k]) in Listing(s)
    {
      var n :| 0 <= n < |s.lru| && s.lru[n] == k;
      assert Listing(s)[n] == Persisted(s.items[k]);
    }
  }

  lemma ListingEntries(s: Shard)
    requires Accounted(s)
    ensures forall x :: 0 <= x < |Listing(s)| ==> Listing(s)[x].key in s.items && Persisted(Listing(s)[x]) == Listing(s)[x]
  {
    hide Total;
    AccountedIndexed(s);
    forall x | 0 <= x < |Listing(s)|
      ensures Listing(s)[x].key in s.items
    {
      assert ValidEntry(s.lru[x], s.items[s.lru[x]]);
    }
  }

  lemma AppendListing(acc: seq<ObjectMeta>, more: seq<ObjectMeta>, shards: seq<Shard>, files: Files, l: Layout, i: int)
    requires ValidLayout(l) && |shards| == |l.caps| && 0 <= i < |shards|
    requires ListOk(acc, shards, files, l) && forall x :: 0 <= x < |acc| ==> l.home(acc[x].key) < i
    requires DistinctKeys(more)
    requires forall x :: 0 <= x < |more| ==> l.home(more[x].key) == i && more[x].key in shards[i].items
    requires forall x :: 0 <= x < |more| ==> Persisted(more[x]) == more[x]
    ensures ListOk(acc + more, shards, files, l)
    ensures forall x :: 0 <= x < |acc + more| ==> l.home((acc + more)[x].key) < i + 1
  {
    forall x, y | 0 <= x < y < |acc + more|
      ensures (acc + more)[x].key != (acc + more)[y].key
    {
      assert x < |acc| ==> l.home((acc + more)[x].key) < i;
      assert y >= |acc| ==> l.home((acc + more)[y].key) == i;
    }
  }

  lemma CoveredByMore(shards: seq<Shard>, acc: seq<ObjectMeta>, more: seq<ObjectMeta>, i: int)
    requires 0 <= i < |shards| && CleanCovered(shards, acc, 0, i) && Covers(shards[i], more)
    ensures CleanCovered(shards[i := shards[i].(dirty := false)], acc + more, 0, i + 1)
  {
    var after := shards[i := shards[i].(dirty := false)];
    forall j | 0 <= j < |after| && 0 <= j < i + 1 && !after[j].dirty
      ensures Covers(after[j], acc + more)
    {
      if j < i {
        assert Covers(shards[j], acc);
      }
    }
  }

  lemma SnapKeepsInv(s: State, l: Layout)
    requires Inv(s, l) && s.flusher.Snapping? && s.flusher.next < |s.shards|
    ensures Inv(Next(l, s, Snap), l)
  {
    var i, f, n := s.flusher.next, s.flusher, |s.shards|;
    var was := s.shards[i];
    var after := s.shards[i := was.(dirty := false)];
    var more := Listing(was);
    ListingOk(was, i, l, s.files);
    hide ShardOk, Covers, Listing, DistinctKeys;
    FlagKeepsTier(s.shards, l, s.files, i, false);
    FlagKeepsList(s.index, s.shards, l, s.files, i, false);
    AppendListing(f.acc, more, s.shards, s.files, l, i);
    FlagKeepsList(f.acc + more, s.shards, l, s.files, i, false);
    CoveredByMore(s.shards, f.acc, more, i);
    IndexCoverAfterSnap(s.shards, s.index, i, f.any);
  }

  /** Until a dirty shard is seen the old index still covers every clean shard; afterwards it need
      only cover those not yet snapshotted. */
  lemma IndexCoverAfterSnap(shards: seq<Shard>, index: seq<ObjectMeta>, i: int, any: bool)
    requires 0 <= i < |shards| && CleanCovered(shards, index, if any then i else 0, |shards|)
    ensures CleanCovered(shards[i := shards[i].(dirty := false)], index,
                         if any || shards[i].dirty then i + 1 else 0, |shards|)
  {
    var after := shards[i := shards[i].(dirty := false)];
    var lo := if any || shards[i].dirty then i + 1 else 0;
    forall j | 0 <= j < |after| && lo <= j < |shards| && !after[j].dirty
      ensures Covers(after[j], index)
    {
      assert Covers(shards[j], index);
    }
  }

  lemma RearmKeepsInv(s: State, l: Layout)
    requires Inv(s, l) && s.flusher.Rearming?
    ensures Inv(Next(l, s, Rearm), l)
  {
    hide ShardOk, ListOk, Covers;
    var i := s.flusher.next;
    if i < |s.shards| {
      FlagKeepsTier(s.shards, l, s.files, i, true);
      FlagKeepsList(s.index, s.shards, l, s.files, i, true);
      hide TierOk;
    }
  }

  lemma FlushStepKeepsInv(s: State, l: Layout, step: Step)
    requires Inv(s, l) && step in {StartFlush, Decide, WriteOk, WriteFail}
    ensures Inv(Next(l, s, step), l)
  {
    hide ShardOk, Covers;
    assert NoGhosts([], s.shards, s.files, l);
  }

  /** Opening any directory whose index file names each key once: whatever the blobs, the tier comes
      up with the invariant. A fresh start is the case of no files and no index. */
  lemma ReopenedInv(l: Layout, files: Files, index: seq<ObjectMeta>)
    requires ValidLayout(l) && DistinctKeys(index)
    requires forall n :: 0 <= n < |index| ==> Persisted(index[n]) == index[n]
    ensures Inv(Reopened(l, files, index), l)
  {
    hide DropBlobs, DistinctKeys, Reloaded, Covers;
    var shards := ReloadedShards(l, files, index);
    var s := Reopened(l, files, index);
    ReopenedTier(l, files, index);
    forall n | 0 <= n < |index| && index[n].key !in shards[l.home(index[n].key)].items
      ensures Blob(index[n].key) !in s.files
    {
      UnkeptHasNoBlob(l, files, index, shards, n);
    }
    forall j | 0 <= j < |shards|
      ensures Covers(shards[j], index)
    {
      ReloadedCovered(l, files, index, j);
    }
    hide TierOk, Reopened;
  }

  lemma UnkeptHasNoBlob(l: Layout, files: Files, index: seq<ObjectMeta>, shards: seq<Shard>, n: int)
    requires ValidLayout(l) && |shards| == |l.caps| && 0 <= n < |index|
    requires index[n].key !in shards[l.home(index[n].key)].items
    ensures Blob(index[n].key) !in DropBlobs(files, DiskLoad.Unkept(index, shards, l))
  {
    assert index[n] in index;
  }

  ghost function FirstPass(l: Layout, files: Files, index: seq<ObjectMeta>): (r: seq<Shard>)
    ensures |r| == |l.caps|
    ensures DiskLoad.Distributed(r, index, l, files)
  {
    seq(|l.caps|, j requires 0 <= j < |l.caps| => FromList(l.caps[j], Candidates(index, l, j, files)))
  }

  lemma ReopenedTier(l: Layout, files: Files, index: seq<ObjectMeta>)
    requires ValidLayout(l) && DistinctKeys(index)
    ensures var s := Reopened(l, files, index);
            TierOk(s.shards, l, s.files)
  {
    hide EvictTo, DistinctKeys;
    DiskLoad.ReloadedTier(index, l, files, FirstPass(l, files, index), ReloadedShards(l, files, index));
  }

  lemma ReloadedCovered(l: Layout, files: Files, index: seq<ObjectMeta>, j: int)
    requires ValidLayout(l) && DistinctKeys(index) && 0 <= j < |l.caps|
    requires forall n :: 0 <= n < |index| ==> Persisted(index[n]) == index[n]
    ensures Covers(Reloaded(index, l, j, files), index)
  {
    var loaded := FirstPass(l, files, index);
    DiskLoad.DistributedShard(loaded, index, l, files, j);
    DiskLoad.EvictKeeps(loaded[j], l.caps[j]);
  }

  /** Every step keeps the invariant. */
  lemma NextKeepsInv(s: State, l: Layout, step: Step)
    requires Inv(s, l)
    ensures Inv(Next(l, s, step), l)
  {
    match step
    case Install(m, body) => InstallKeepsInv(s, l, m, body);
    case Remove(k) => RemoveKeepsInv(s, l, k);
    case Hit(k) => HitKeepsInv(s, l, k);
    case Snap => if s.flusher.Snapping? && s.flusher.next < |s.shards| { SnapKeepsInv(s, l); }
    case Rearm => if s.flusher.Rearming? { RearmKeepsInv(s, l); }
    case Crash => ReopenedInv(l, s.files, s.index);
    case _ => FlushStepKeepsInv(s, l, step);
  }

  /** So it holds after every run. */
  lemma {:induction false} RunKeepsInv(s: State, l: Layout, steps: seq<Step>)
    requires Inv(s, l)
    ensures Inv(Run(l, s, steps), l)
  {
    if steps != [] {
      hide Inv;
      RunKeepsInv(s, l, steps[..|steps| - 1]);
      NextKeepsInv(Run(l, s, steps[..|steps| - 1]), l, steps[|steps| - 1]);
    }
  }

  // ----- Crash and reload -----

  /** The blob of a listed key is there just when the key is live, and then has the live size. */
  lemma ListedBlob(s: State, l: Layout, n: int)
    requires Inv(s, l) && 0 <= n < |s.index|
    ensures var k := s.index[n].key;
            var items := s.shards[l.home(k)].items;
            && (Blob(k) in s.files <==> k in items)
            && (k in items ==> |s.files[Blob(k)]| == items[k].size && items[k].size <= l.caps[l.home(k)])
  {
    var k := s.index[n].key;
    var h := l.home(k);
    if k in s.shards[h].items {
      assert ShardOk(s.shards[h], h, l, s.files);
      assert Backed(s.shards[h].items[k], s.files) && ValidEntry(k, s.shards[h].items[k]);
      LiveEntryFits(s.shards[h], h, l, s.files, k);
    }
  }

  lemma LiveEntryFits(s: Shard, i: int, l: Layout, files: Files, k: string)
    requires 0 <= i < |l.caps| && ShardOk(s, i, l, files) && k in s.items
    ensures s.items[k].size <= l.caps[i]
  {
    var n :| 0 <= n < |s.lru| && s.lru[n] == k;
    ShardEntryOk(s, i, l, files, n);
  }

  /** After a crash at any point of any run, a reload accepts an index entry exactly when its key is
      still live with a body of the recorded size. */
  lemma CrashAcceptsIff(s: State, l: Layout, n: int)
    requires Inv(s, l) && 0 <= n < |s.index|
    ensures var m := s.index[n];
            var items := s.shards[l.home(m.key)].items;
            Accepts(m, l.caps[l.home(m.key)], s.files) <==> m.key in items && items[m.key].size == m.size
  {
    ListedBlob(s, l, n);
  }

  lemma IndexEntryIsLive(s: State, l: Layout, i: int, n: int)
    requires Inv(s, l) && 0 <= n < |s.index| && 0 <= i < |s.shards| && Covers(s.shards[i], s.index)
    requires s.index[n].key in s.shards[i].items
    ensures s.index[n] == Persisted(s.shards[i].items[s.index[n].key])
  {
    hide ShardOk, FlusherOk, NoGhosts;
    var k := s.index[n].key;
    LiveKey(s.shards[i], i, l, s.files, k);
    var x :| 0 <= x < |s.index| && s.index[x] == Persisted(s.shards[i].items[k]);
    assert s.index[x].key == s.index[n].key;
  }

  lemma LiveKey(s: Shard, i: int, l: Layout, files: Files, k: string)
    requires 0 <= i < |l.caps| && ShardOk(s, i, l, files) && k in s.items
    ensures s.items[k].key == k
  {
    hide Accounted;
    EntryKey(s, k);
  }

  // ----- What a crash can get wrong -----

  lemma RunThen(l: Layout, s: State, steps: seq<Step>, step: Step)
    requires ValidLayout(l) && |s.shards| == |l.caps|
    ensures Run(l, s, steps + [step]) == Next(l, Run(l, s, steps), step)
  {
    assert (steps + [step])[..|steps|] == steps;
  }

  const ONE_SHARD: Layout := Layout([10], (k: string) => 0)

  function Version(etag: string): ObjectMeta {
    ObjectMeta("k", 1, "", etag, "", "", "", 0, false, "")
  }

  function Holding(m: ObjectMeta, dirty: bool): Shard {
    Shard(10, 1, 1, map["k" := m], ["k"], dirty)
  }

  const EMPTY: Shard := Shard(10, 0, 0, map[], [], false)

  lemma FreshStart()
    ensures ValidLayout(ONE_SHARD)
    ensures Reopened(ONE_SHARD, map[], []) == State([EMPTY], map[], [], Resting)
  {
    assert ReloadedShards(ONE_SHARD, map[], []) == [EMPTY];
    assert DiskLoad.Unkept([], [EMPTY], ONE_SHARD) == {};
  }

  lemma InstallOne(s: State, t: Shard, m: ObjectMeta, body: seq<byte>)
    requires s.shards == [t] && t.items == map[] && t.lru == [] && t.curBytes == 0 && t.maxBytes == 10
    requires m.key == "k" && m.size == 1 == |body|
    ensures Next(ONE_SHARD, s, Install(m, body))
            == s.(shards := [Holding(m, true)], files := s.files[Blob("k") := body])
  {
    assert InstallEntry(t, m) == Holding(m, true);
  }

  lemma RemoveOne(s: State, m: ObjectMeta, dirty: bool)
    requires s.shards == [Holding(m, dirty)] && m.size == 1
    ensures Next(ONE_SHARD, s, Remove("k")) == s.(shards := [EMPTY.(dirty := true)], files := s.files - {Blob("k")})
  {
    assert RemoveEntry(Holding(m, dirty), "k").items == map[];
    assert Rings.Without(["k"], "k") == [];
    assert RemoveEntry(Holding(m, dirty), "k") == EMPTY.(dirty := true);
  }

  /** A whole successful flush of one dirty entry. */
  lemma FlushOne(s: State, m: ObjectMeta)
    requires s.shards == [Holding(m, true)] && s.flusher == Resting && Persisted(m) == m
    ensures var s1 := Next(ONE_SHARD, s, StartFlush);
            var s2 := Next(ONE_SHARD, s1, Snap);
            var s3 := Next(ONE_SHARD, s2, Decide);
            && |s2.shards| == |s3.shards| == 1
            && Next(ONE_SHARD, s3, WriteOk) == s.(shards := [Holding(m, false)], index := [m])
  {
    var s1 := s.(flusher := Snapping(0, [], false));
    assert Next(ONE_SHARD, s, StartFlush) == s1;
    assert Listing(Holding(m, true)) == [m];
    var s2 := s.(shards := [Holding(m, false)], flusher := Snapping(1, [m], true));
    assert [] + [m] == [m];
    assert s1.shards[0 := s1.shards[0].(dirty := false)] == [Holding(m, false)];
    assert Next(ONE_SHARD, s1, Snap) == s2;
    var s3 := s2.(flusher := Writing([m]));
    assert Next(ONE_SHARD, s2, Decide) == s3;
  }

  /** Store one byte as "v1", flush, store another byte as "v2", crash. */
  ghost const RECOMMIT_THEN_CRASH: seq<Step> :=
    [Install(Version("v1"), [1])] + [StartFlush] + [Snap] + [Decide] + [WriteOk]
    + [Remove("k")] + [Install(Version("v2"), [2])]

  lemma FirstCommitFlushed()
    ensures ValidLayout(ONE_SHARD)
    ensures var start := Reopened(ONE_SHARD, map[], []);
            Run(ONE_SHARD, start, [Install(Version("v1"), [1])] + [StartFlush] + [Snap] + [Decide] + [WriteOk])
            == State([Holding(Version("v1"), false)], map[Blob("k") := [1]], [Version("v1")], Resting)
  {
    FreshStart();
    hide Next, Run, Reopened;
    var start, m := Reopened(ONE_SHARD, map[], []), Version("v1");
    var r1 := [Install(m, [1])];
    RunOne(ONE_SHARD, start, Install(m, [1]));
    InstallOne(start, EMPTY, m, [1]);
    var s1 := Run(ONE_SHARD, start, r1);
    RunThen(ONE_SHARD, start, r1, StartFlush);
    RunThen(ONE_SHARD, start, r1 + [StartFlush], Snap);
    RunThen(ONE_SHARD, start, r1 + [StartFlush] + [Snap], Decide);
    RunThen(ONE_SHARD, start, r1 + [StartFlush] + [Snap] + [Decide], WriteOk);
    FlushOne(s1, m);
  }

  lemma RunOne(l: Layout, s: State, step: Step)
    requires ValidLayout(l) && |s.shards| == |l.caps|
    ensures Run(l, s, [step]) == Next(l, s, step)
  {
    assert [step][..0] == [];
  }

  /** The design's "never a stale or corrupt hit" fails for a recommit of the same size inside the
      flush window: the reload pairs the first commit's metadata with the second commit's body. */
  lemma CrashCanMixCommits()
    ensures ValidLayout(ONE_SHARD)
    ensures var s := Run(ONE_SHARD, Reopened(ONE_SHARD, map[], []), RECOMMIT_THEN_CRASH);
            && "k" in s.shards[0].items && s.shards[0].items["k"] == Version("v2")
            && s.files == map[Blob("k") := [2]]
            && var r := Reloaded(s.index, ONE_SHARD, 0, s.files);
               "k" in r.items && r.items["k"] == Version("v1")
  {
    FirstCommitFlushed();
    FreshStart();
    hide Next, Run, Reopened;
    var start := Reopened(ONE_SHARD, map[], []);
    var r := [Install(Version("v1"), [1])] + [StartFlush] + [Snap] + [Decide] + [WriteOk];
    var s := Run(ONE_SHARD, start, r);
    RunThen(ONE_SHARD, start, r, Remove("k"));
    RunThen(ONE_SHARD, start, r + [Remove("k")], Install(Version("v2"), [2]));
    RemoveOne(s, Version("v1"), false);
    var t := Run(ONE_SHARD, start, r + [Remove("k")]);
    InstallOne(t, EMPTY.(dirty := true), Version("v2"), [2]);
    var files := map[Blob("k") := [2]];
    assert t.files[Blob("k") := [2]] == files;
    StaleReload(files);
  }

  lemma StaleReload(files: Files)
    requires files == map[Blob("k") := [2]]
    ensures var r := Reloaded([Version("v1")], ONE_SHARD, 0, files);
            "k" in r.items && r.items["k"] == Version("v1")
  {
    var m := Version("v1");
    assert [m][1..] == [];
    assert Candidates([m], ONE_SHARD, 0, files) == [m];
    assert Bytes([m]) == 1 + Bytes([]);
    ReloadKeepsPrefix([m], ONE_SHARD, 0, files);
    assert [m][..1] == [m];
    var r := Reloaded([m], ONE_SHARD, 0, files);
    assert MetasOf(r)[0] == m && r.items[r.lru[0]] == m;
    assert ValidEntry(r.lru[0], m);
  }
}
