/** Reading the index file back (internal/cache/disk.go, load), in the source's own two passes. */
module DiskLoad {
  import opened Objects
  import opened DiskShard
  import opened Disk
  import opened DiskIndex

  /** The shards after the first pass over a list of entries. */
  ghost predicate Distributed(shards: seq<Shard>, entries: seq<ObjectMeta>, l: Layout, files: Files) {
    && |shards| == |l.caps|
    && forall j :: 0 <= j < |shards| ==> shards[j] == FromList(l.caps[j], Candidates(entries, l, j, files))
  }

  /** The first pass, back to front, over any index file: the directory it leaves, and the entries it loads. An
      entry whose blob is missing or of another size, or that is too large for its shard, is not loaded and its
      blob unlinked. */
  ghost function FirstPass(entries: seq<ObjectMeta>, l: Layout, files: Files): (Files, seq<ObjectMeta>)
    requires ValidLayout(l)
  {
    if entries == [] then (files, [])
    else
      var (fs, loaded) := FirstPass(entries[1..], l, files);
      var m := entries[0];
      if Accepts(m, l.caps[l.home(m.key)], fs) then (fs, [m] + loaded) else (fs - {Blob(m.key)}, loaded)
  }

  /** The entries of one shard, in file order. */
  function OfShard(ms: seq<ObjectMeta>, l: Layout, j: int): seq<ObjectMeta> {
    if ms == [] then [] else (if l.home(ms[0].key) == j then [ms[0]] else []) + OfShard(ms[1..], l, j)
  }

  /** The shards hold the loaded entries. */
  ghost predicate Holding(shards: seq<Shard>, loaded: seq<ObjectMeta>, l: Layout) {
    && |shards| == |l.caps|
    && forall j :: 0 <= j < |shards| ==> shards[j] == FromList(l.caps[j], OfShard(loaded, l, j))
  }

  lemma HoldOne(shards: seq<Shard>, loaded: seq<ObjectMeta>, l: Layout, m: ObjectMeta)
    requires Holding(shards, loaded, l) && 0 <= l.home(m.key) < |l.caps|
    ensures Holding(shards[l.home(m.key) := LoadEntry(shards[l.home(m.key)], m)], [m] + loaded, l)
  {
    var h := l.home(m.key);
    var shards' := shards[h := LoadEntry(shards[h], m)];
    assert ([m] + loaded)[1..] == loaded;
    forall j | 0 <= j < |l.caps|
      ensures shards'[j] == FromList(l.caps[j], OfShard([m] + loaded, l, j))
    {
      var c := OfShard(loaded, l, j);
      assert ([m] + c)[1..] == c && [] + c == c;
    }
  }

  lemma HoldNothing(shards: seq<Shard>, l: Layout)
    requires |shards| == |l.caps| && forall j :: 0 <= j < |shards| ==> shards[j] == Shard(l.caps[j], 0, 0, map[], [], false)
    ensures Holding(shards, [], l)
  {
  }

  /** On distinct keys each entry is judged by the directory as it was. */
  lemma {:induction false} PassDistinct(entries: seq<ObjectMeta>, l: Layout, files: Files)
    requires ValidLayout(l) && DistinctKeys(entries)
    ensures FirstPass(entries, l, files).0 == DropBlobs(files, Rejected(entries, l, files))
    ensures forall j :: 0 <= j < |l.caps| ==> OfShard(FirstPass(entries, l, files).1, l, j) == Candidates(entries, l, j, files)
  {
    hide Backed, DropBlobs, DistinctKeys;
    if entries == [] {
      DropNothing(files);
    } else {
      DistinctRest(entries);
      PassDistinct(entries[1..], l, files);
      assert entries[0..] == entries;
      RejectOne(entries, 0, l, files);
      var loaded, m := FirstPass(entries[1..], l, files).1, entries[0];
      assert ([m] + loaded)[1..] == loaded;
      forall j | 0 <= j < |l.caps|
        ensures OfShard(FirstPass(entries, l, files).1, l, j) == Candidates(entries, l, j, files)
      {
        var c := OfShard(loaded, l, j);
        assert [] + c == c;
      }
    }
  }

  lemma DistinctRest(entries: seq<ObjectMeta>)
    requires entries != [] && DistinctKeys(entries)
    ensures DistinctKeys(entries[1..])
  {
  }

  lemma {:induction false} RejectedAreEntries(entries: seq<ObjectMeta>, l: Layout, files: Files, k: string)
    requires ValidLayout(l) && k in Rejected(entries, l, files)
    ensures exists n :: 0 <= n < |entries| && entries[n].key == k && !Accepts(entries[n], l.caps[l.home(k)], files)
  {
    if k in Rejected(entries[1..], l, files) {
      RejectedAreEntries(entries[1..], l, files, k);
      var n :| 0 <= n < |entries[1..]| && entries[1..][n].key == k && !Accepts(entries[1..][n], l.caps[l.home(k)], files);
      assert entries[n + 1].key == k;
    }
  }

  lemma BackedUnderDrops(m: ObjectMeta, files: Files, gone: set<string>)
    requires m.key !in gone
    ensures Backed(m, DropBlobs(files, gone)) == Backed(m, files)
  {
  }

  /** First pass, back to front: drop unusable blobs, re-home the rest. */
  method Distribute(entries: seq<ObjectMeta>, l: Layout, files: Files) returns (shards: seq<Shard>, fs: Files)
    requires ValidLayout(l)
    ensures Holding(shards, FirstPass(entries, l, files).1, l) && fs == FirstPass(entries, l, files).0
  {
    shards := seq(|l.caps|, j requires 0 <= j < |l.caps| => Shard(l.caps[j], 0, 0, map[], [], false));
    HoldNothing(shards, l);
    fs := files;
    var i := |entries|;
    assert entries[i..] == [];
    while i > 0
      invariant 0 <= i <= |entries| && |shards| == |l.caps|
      invariant Holding(shards, FirstPass(entries[i..], l, files).1, l) && fs == FirstPass(entries[i..], l, files).0
    {
      hide LoadEntry, Holding;
      i := i - 1;
      var m := entries[i];
      var h := l.home(m.key);
      assert entries[i..][0] == m && entries[i..][1..] == entries[i + 1..];
      if !Backed(m, fs) || m.size > l.caps[h] {
        fs := fs - {Blob(m.key)};
      } else {
        HoldOne(shards, FirstPass(entries[i + 1..], l, files).1, l, m);
        shards := shards[h := LoadEntry(shards[h], m)];
      }
    }
    assert entries[0..] == entries;
  }

  lemma RejectOne(entries: seq<ObjectMeta>, i: nat, l: Layout, files: Files)
    requires i < |entries| && ValidLayout(l) && DistinctKeys(entries)
    ensures var m := entries[i];
            var fs := DropBlobs(files, Rejected(entries[i + 1..], l, files));
            var accepted := Accepts(m, l.caps[l.home(m.key)], files);
            && accepted == (Backed(m, fs) && m.size <= l.caps[l.home(m.key)])
            && DropBlobs(files, Rejected(entries[i..], l, files)) == if accepted then fs else fs - {Blob(m.key)}
  {
    var m, rest := entries[i], entries[i + 1..];
    var gone := Rejected(rest, l, files);
    assert m.key !in gone by {
      if m.key in gone {
        RejectedAreEntries(rest, l, files, m.key);
        assert false;
      }
    }
    BackedUnderDrops(m, files, gone);
    assert entries[i..][0] == m && entries[i..][1..] == rest;
    DropOneMore(files, gone, m.key);
    hide DropBlobs;
    assert gone + {} == gone;
  }

  /** The key was loaded into its home shard and evicted from it again. */
  ghost predicate Evicted(k: string, loaded: seq<Shard>, shards: seq<Shard>, l: Layout, upTo: int)
    requires |loaded| == |shards| && 0 <= upTo <= |shards|
  {
    0 <= l.home(k) < upTo && k in loaded[l.home(k)].items && k !in shards[l.home(k)].items
  }

  /** A shard of the first pass: accounted, at home, acceptable, and clear of what was unlinked. */
  ghost predicate Homed(s: Shard, j: int, l: Layout) {
    Accounted(s) && forall k :: k in s.items ==> l.home(k) == j
  }

  lemma DropsCompose(files: Files, a: set<string>, b: set<string>)
    ensures DropBlobs(DropBlobs(files, a), b) == DropBlobs(files, a + b)
  {
  }

  lemma EvictKeeps(s: Shard, room: int)
    requires Accounted(s)
    ensures EvictTo(s, room).items.Keys <= s.items.Keys
    ensures forall k :: k in EvictTo(s, room).items ==> EvictTo(s, room).items[k] == s.items[k]
  {
    hide Total, Linked;
    EvictClosedForm(s, room);
  }

  /** Second pass: evict each shard from the back down to its cap. */
  method Trim(loaded: seq<Shard>, l: Layout, files: Files) returns (shards: seq<Shard>, fs: Files, ghost gone: set<string>)
    requires |loaded| == |l.caps| && forall j :: 0 <= j < |loaded| ==> Homed(loaded[j], j, l)
    ensures |shards| == |loaded|
    ensures forall j :: 0 <= j < |shards| ==> shards[j] == EvictTo(loaded[j], l.caps[j])
    ensures fs == DropBlobs(files, gone)
    ensures forall k :: k in gone <==> Evicted(k, loaded, shards, l, |shards|)
  {
    hide Accounted, DropBlobs, EvictTo;
    shards, fs, gone := loaded, files, {};
    DropNothing(files);
    for j := 0 to |loaded|
      invariant |shards| == |loaded|
      invariant forall i :: 0 <= i < j ==> shards[i] == EvictTo(loaded[i], l.caps[i])
      invariant fs == DropBlobs(files, gone)
      invariant forall k :: k in gone <==> Evicted(k, loaded, shards, l, j)
    {
      assert Homed(loaded[j], j, l);
      var r;
      r, fs := EvictLoop(loaded[j], fs, l.caps[j]);
      ghost var evicted := loaded[j].items.Keys - r.items.Keys;
      DropsCompose(files, gone, evicted);
      shards, gone := shards[j := r], gone + evicted;
    }
  }

  lemma DropNothing(files: Files)
    ensures DropBlobs(files, {}) == files
  {
  }

  /** The keys of index entries that the reload did not keep. */
  ghost function Unkept(entries: seq<ObjectMeta>, shards: seq<Shard>, l: Layout): set<string>
    requires ValidLayout(l) && |shards| == |l.caps|
  {
    set m | m in entries && m.key !in shards[l.home(m.key)].items :: m.key
  }

  lemma {:induction false} CandidateMember(entries: seq<ObjectMeta>, l: Layout, j: int, files: Files, n: nat)
    requires 0 <= j < |l.caps| && n < |entries|
    requires l.home(entries[n].key) == j && Accepts(entries[n], l.caps[j], files)
    ensures entries[n] in Candidates(entries, l, j, files)
  {
    if n > 0 {
      CandidateMember(entries[1..], l, j, files, n - 1);
    }
  }

  lemma {:induction false} AcceptedNotRejected(entries: seq<ObjectMeta>, l: Layout, files: Files, n: nat)
    requires ValidLayout(l) && n < |entries| && DistinctKeys(entries)
    ensures entries[n].key in Rejected(entries, l, files)
            <==> !Accepts(entries[n], l.caps[l.home(entries[n].key)], files)
  {
    var m := entries[n];
    if n > 0 {
      AcceptedNotRejected(entries[1..], l, files, n - 1);
    } else if m.key in Rejected(entries[1..], l, files) {
      RejectedAreEntries(entries[1..], l, files, m.key);
    }
  }

  /** What the first pass makes of one shard. */
  lemma DistributedShard(loaded: seq<Shard>, entries: seq<ObjectMeta>, l: Layout, files: Files, j: int)
    requires DistinctKeys(entries) && Distributed(loaded, entries, l, files) && 0 <= j < |loaded|
    ensures Homed(loaded[j], j, l) && loaded[j].maxBytes == l.caps[j]
    ensures forall k :: k in loaded[j].items ==>
              loaded[j].items[k] in entries && Accepts(loaded[j].items[k], l.caps[j], files)
    ensures forall m :: m in Candidates(entries, l, j, files) ==> m.key in loaded[j].items
  {
    var c := Candidates(entries, l, j, files);
    CandidateOrigin(entries, l, j, files);
    CandidatesDistinct(entries, l, j, files);
    FromListAccounted(l.caps[j], c);
    FromListKeys(l.caps[j], c);
    hide Candidates, FromList, Total;
    var s := loaded[j];
    forall k | k in s.items
      ensures exists i :: 0 <= i < |c| && c[i].key == k && s.items[k] == c[i]
    {
      var i :| 0 <= i < |s.lru| && s.lru[i] == k;
      assert MetasOf(s)[i] == c[i];
    }
  }

  /** Both passes together: every shard is the closed form of the reload, the tier is in order, and
      just the blobs of index entries that were not kept are unlinked. */
  method Load(entries: seq<ObjectMeta>, l: Layout, files: Files) returns (shards: seq<Shard>, fs: Files)
    requires ValidLayout(l) && DistinctKeys(entries)
    ensures |shards| == |l.caps|
    ensures forall j :: 0 <= j < |shards| ==> shards[j] == Reloaded(entries, l, j, files)
    ensures fs == DropBlobs(files, Unkept(entries, shards, l))
    ensures TierOk(shards, l, fs)
  {
    hide DropBlobs, EvictTo, Accounted, Rejected, Unkept, TierOk;
    var loaded, fs1 := Distribute(entries, l, files);
    PassDistinct(entries, l, files);
    forall j | 0 <= j < |loaded|
      ensures Homed(loaded[j], j, l)
    {
      DistributedShard(loaded, entries, l, files, j);
    }
    ghost var gone;
    shards, fs, gone := Trim(loaded, l, fs1);
    DropsCompose(files, Rejected(entries, l, files), gone);
    GoneIsUnkept(entries, l, files, loaded, shards, gone);
    ReloadedTier(entries, l, files, loaded, shards);
  }

  lemma KeptWereLoaded(loaded: seq<Shard>, shards: seq<Shard>, entries: seq<ObjectMeta>, l: Layout, files: Files, k: string)
    requires ValidLayout(l) && DistinctKeys(entries) && Distributed(loaded, entries, l, files)
    requires |shards| == |loaded| && forall j :: 0 <= j < |shards| ==> shards[j] == EvictTo(loaded[j], l.caps[j])
    requires k in shards[l.home(k)].items
    ensures k in loaded[l.home(k)].items
  {
    DistributedShard(loaded, entries, l, files, l.home(k));
    EvictKeeps(loaded[l.home(k)], l.caps[l.home(k)]);
  }

  /** A loaded key is the key of an accepted entry of the index. */
  lemma LoadedEntry(loaded: seq<Shard>, entries: seq<ObjectMeta>, l: Layout, files: Files, k: string) returns (n: nat)
    requires ValidLayout(l) && DistinctKeys(entries) && Distributed(loaded, entries, l, files)
    requires k in loaded[l.home(k)].items
    ensures n < |entries| && entries[n].key == k && Accepts(entries[n], l.caps[l.home(k)], files)
  {
    var h := l.home(k);
    DistributedShard(loaded, entries, l, files, h);
    var m := loaded[h].items[k];
    n :| 0 <= n < |entries| && entries[n] == m;
    assert ValidEntry(k, m);
  }

  lemma GoneIsUnkept(entries: seq<ObjectMeta>, l: Layout, files: Files,
                     loaded: seq<Shard>, shards: seq<Shard>, gone: set<string>)
    requires ValidLayout(l) && DistinctKeys(entries) && Distributed(loaded, entries, l, files)
    requires |shards| == |loaded|
    requires forall j :: 0 <= j < |shards| ==> shards[j] == EvictTo(loaded[j], l.caps[j])
    requires forall k :: k in gone <==> Evicted(k, loaded, shards, l, |shards|)
    ensures Rejected(entries, l, files) + gone == Unkept(entries, shards, l)
  {
    hide EvictTo, Rejected, DistinctKeys, Accepts;
    forall k | k in Rejected(entries, l, files)
      ensures k in Unkept(entries, shards, l)
    {
      RejectedAreEntries(entries, l, files, k);
      var n :| 0 <= n < |entries| && entries[n].key == k && !Accepts(entries[n], l.caps[l.home(k)], files);
      assert entries[n] in entries;
      if k in shards[l.home(k)].items {
        KeptWereLoaded(loaded, shards, entries, l, files, k);
        var x := LoadedEntry(loaded, entries, l, files, k);
        AcceptedNotRejected(entries, l, files, x);
      }
    }
    forall k | k in gone
      ensures k in Unkept(entries, shards, l)
    {
      var x := LoadedEntry(loaded, entries, l, files, k);
      assert entries[x] in entries;
    }
    forall k | k in Unkept(entries, shards, l)
      ensures k in Rejected(entries, l, files) + gone
    {
      var n :| 0 <= n < |entries| && entries[n].key == k;
      AcceptedNotRejected(entries, l, files, n);
      if Accepts(entries[n], l.caps[l.home(k)], files) {
        CandidateMember(entries, l, l.home(k), files, n);
        DistributedShard(loaded, entries, l, files, l.home(k));
      }
    }
  }

  lemma EvictedValid(s: Shard, cap: int)
    requires Accounted(s) && s.maxBytes == cap
    ensures Valid(EvictTo(s, cap)) && EvictTo(s, cap).maxBytes == cap
    ensures forall k :: k in EvictTo(s, cap).items ==> EvictTo(s, cap).items[k].key == k
  {
    EvictClosedForm(s, cap);
    hide EvictTo, Total, Linked;
    forall k | k in EvictTo(s, cap).items
      ensures EvictTo(s, cap).items[k].key == k
    {
      assert ValidEntry(k, EvictTo(s, cap).items[k]);
    }
  }

  lemma ReloadedShardOk(entries: seq<ObjectMeta>, l: Layout, files: Files, loaded: seq<Shard>, shards: seq<Shard>, j: int)
    requires ValidLayout(l) && DistinctKeys(entries) && Distributed(loaded, entries, l, files)
    requires |shards| == |loaded| && 0 <= j < |shards| && shards[j] == EvictTo(loaded[j], l.caps[j])
    ensures ShardOk(shards[j], j, l, DropBlobs(files, Unkept(entries, shards, l)))
  {
    DistributedShard(loaded, entries, l, files, j);
    hide DropBlobs, Unkept, Distributed, EvictTo, Accounted, DistinctKeys, Backed;
    EvictedValid(loaded[j], l.caps[j]);
    EvictKeeps(loaded[j], l.caps[j]);
    var gone := Unkept(entries, shards, l);
    forall k | k in shards[j].items
      ensures l.home(k) == j && Backed(shards[j].items[k], DropBlobs(files, gone))
    {
      var m := shards[j].items[k];
      KeptNotUnkept(entries, shards, l, k);
      BackedUnderDrops(m, files, gone);
    }
  }

  lemma ReloadedTier(entries: seq<ObjectMeta>, l: Layout, files: Files, loaded: seq<Shard>, shards: seq<Shard>)
    requires ValidLayout(l) && DistinctKeys(entries) && Distributed(loaded, entries, l, files)
    requires |shards| == |loaded|
    requires forall j :: 0 <= j < |shards| ==> shards[j] == EvictTo(loaded[j], l.caps[j])
    ensures TierOk(shards, l, DropBlobs(files, Unkept(entries, shards, l)))
  {
    hide ShardOk, EvictTo, DropBlobs, Unkept;
    forall j | 0 <= j < |shards|
      ensures ShardOk(shards[j], j, l, DropBlobs(files, Unkept(entries, shards, l)))
    {
      ReloadedShardOk(entries, l, files, loaded, shards, j);
    }
  }

  lemma KeptNotUnkept(entries: seq<ObjectMeta>, shards: seq<Shard>, l: Layout, k: string)
    requires ValidLayout(l) && |shards| == |l.caps| && k in shards[l.home(k)].items
    ensures k !in Unkept(entries, shards, l)
  {
  }
}
