/** The disk tier as an object: its shards, its blob directory and its index file. */
module DiskTiers {
  import opened Objects
  import opened DiskShard
  import opened Disk
  import opened DiskIndex
  import DiskLoad
  import Shards
  import Rings

  /** Outside shard `i`, committed blobs are untouched. */
  ghost predicate BlobsKeptOutside(files: Files, fs: Files, l: Layout, i: int) {
    forall n :: n in files && n.Blob? && l.home(n.key) != i ==> n in fs && fs[n] == files[n]
  }

  /** The directory without its in-progress files. */
  function Reaped(files: Files): Files {
    map n | n in files && n.Blob? :: files[n]
  }

  lemma OtherShardOk(s: Shard, j: int, i: int, l: Layout, files: Files, fs: Files)
    requires 0 <= j < |l.caps| && i != j && ShardOk(s, j, l, files) && BlobsKeptOutside(files, fs, l, i)
    ensures ShardOk(s, j, l, fs)
  {
    hide Linked, Total;
    forall k | k in s.items
      ensures Backed(s.items[k], fs)
    {
      assert Backed(s.items[k], files) && ValidEntry(k, s.items[k]);
    }
  }

  /** The keys a commit to shard `i` unlinks or writes all live in shard `i`. */
  lemma CommitStaysHome(s: Shard, i: int, l: Layout, files: Files, meta: ObjectMeta, id: nat, renameOk: bool,
                        stored: bool, failed: bool, r: Shard, fs: Files)
    requires 0 <= i < |l.caps| && Wip(id) in files && l.home(meta.key) == i && ShardOk(s, i, l, files)
    requires Commits(s, files, meta, id, renameOk, stored, failed, r, fs)
    requires Valid(r) && AllBacked(r, fs) && r.maxBytes == s.maxBytes
    ensures ShardOk(r, i, l, fs) && BlobsKeptOutside(files, fs, l, i)
  {
    hide EvictTo, MadeRoom, Valid, AllBacked, Commits, BlobsKeptOutside;
    CommitFacts(s, files, meta, id, renameOk, stored, failed, r, fs);
    CommitBlobs(s, i, l, files, meta, id, renameOk, stored, failed, r, fs);
  }

  lemma CommitBlobs(s: Shard, i: int, l: Layout, files: Files, meta: ObjectMeta, id: nat, renameOk: bool,
                    stored: bool, failed: bool, r: Shard, fs: Files)
    requires Wip(id) in files && l.home(meta.key) == i && forall k :: k in s.items ==> l.home(k) == i
    requires Commits(s, files, meta, id, renameOk, stored, failed, r, fs)
    ensures BlobsKeptOutside(files, fs, l, i)
  {
    hide MadeRoom;
  }

  /** A name no file carries yet. */
  method FreshId(files: Files) returns (id: nat)
    ensures Wip(id) !in files
  {
    id := 0;
    ghost var taken := {};
    while Wip(id) in files
      invariant taken <= files.Keys && |taken| == id
      invariant forall n :: n in taken ==> n.Wip? && n.id < id
      decreases |files.Keys| - |taken|
    {
      taken := taken + {Wip(id)};
      SubsetSize(taken, files.Keys);
      id := id + 1;
    }
  }

  lemma {:induction false} SubsetSize(a: set<Name>, b: set<Name>)
    requires a <= b
    ensures |a| <= |b|
  {
    if a != {} {
      var x :| x in a;
      SubsetSize(a - {x}, b - {x});
    }
  }

  class DiskTier {
    const maxBytes: int
    /** The 32-bit FNV-1a hash that routes a key to its shard. */
    const hash: string -> nat
    var shards: seq<Shard>
    var files: Files
    var index: IndexFile

    function L(): (l: Layout)
      ensures ValidLayout(l)
    {
      var n := Shards.ShardCount(maxBytes);
      var l := Layout(Shards.Caps(maxBytes, n), k => Shards.ShardIndex(hash(k), n));
      assert forall k :: l.home(k) == Shards.ShardIndex(hash(k), n);
      l
    }

    ghost predicate Valid()
      reads this
    {
      TierOk(shards, L(), files)
    }

    function Home(key: string): (i: int)
      ensures i == L().home(key) && 0 <= i < |L().caps|
    {
      Shards.ShardIndex(hash(key), Shards.ShardCount(maxBytes))
    }

    /** The object a hit on `key` would return: index entry and blob. */
    ghost function Lookup(key: string): Option<Object>
      requires Valid()
      reads this
    {
      var items := shards[Home(key)].items;
      assert ShardOk(shards[Home(key)], Home(key), L(), files);
      if key in items then
        assert Backed(items[key], files) && ValidEntry(key, items[key]);
        Some(Object(items[key], files[Blob(key)]))
      else None
    }

    /** Replaces shard `i` and the files it owns: all a critical section of its lock can change. */
    method Store(i: int, s: Shard, fs: Files)
      requires Valid() && 0 <= i < |shards|
      requires ShardOk(s, i, L(), fs) && BlobsKeptOutside(files, fs, L(), i)
      modifies this`shards, this`files
      ensures Valid() && shards == old(shards)[i := s] && files == fs
      ensures forall k :: Home(k) != i ==> Lookup(k) == old(Lookup(k))
    {
      forall j | 0 <= j < |shards| && j != i
        ensures ShardOk(shards[j], j, L(), fs)
      {
        OtherShardOk(shards[j], j, i, L(), files, fs);
      }
      forall k | Home(k) != i && k in shards[Home(k)].items
        ensures Blob(k) in files && Blob(k) in fs && fs[Blob(k)] == files[Blob(k)]
      {
        var j := Home(k);
        assert ShardOk(shards[j], j, L(), files);
        assert Backed(shards[j].items[k], files) && ValidEntry(k, shards[j].items[k]);
      }
      hide ShardOk, BlobsKeptOutside, L;
      shards := shards[i := s];
      files := fs;
    }
  
    /** Opens the directory: orphaned in-progress files go, then the index is reloaded. */
    constructor (maxBytes: int, hash: string -> nat, files: Files, index: IndexFile)
      requires index.Entries? ==> DistinctKeys(index.list)
      ensures Valid() && this.maxBytes == maxBytes && this.hash == hash && this.index == index
      ensures var list := if index.Entries? then index.list else [];
              && (forall j :: 0 <= j < |shards| ==> shards[j] == Reloaded(list, L(), j, Reaped(files)))
              && this.files == DropBlobs(Reaped(files), DiskLoad.Unkept(list, shards, L()))
    {
      this.maxBytes := maxBytes;
      this.hash := hash;
      this.index := index;
      this.shards := [];
      this.files := map[];
      new;
      var list := if index.Entries? then index.list else [];
      var loaded, fs := DiskLoad.Load(list, L(), Reaped(files));
      hide TierOk, DropBlobs, DiskLoad.Unkept;
      this.shards := loaded;
      this.files := fs;
    }

    /** Starts a body: a new file under the temporary prefix. */
    method Begin() returns (id: nat)
      requires Valid()
      modifies this`files
      ensures Valid() && Wip(id) !in old(files) && files == old(files)[Wip(id) := []]
      ensures forall k :: Lookup(k) == old(Lookup(k))
    {
      id := FreshId(files);
      SetWip(id, Some([]));
    }

    /** Appends to the body. A write that fails part-way appends what it got to, and says how much. */
    method Write(id: nat, p: seq<byte>, wrote: nat) returns (n: nat)
      requires Valid() && Wip(id) in files && wrote <= |p|
      modifies this`files
      ensures Valid() && n == wrote && files == old(files)[Wip(id) := old(files)[Wip(id)] + p[..n]]
      ensures forall k :: Lookup(k) == old(Lookup(k))
    {
      n := wrote;
      SetWip(id, Some(files[Wip(id)] + p[..n]));
    }

    method Abort(id: nat)
      requires Valid() && Wip(id) in files
      modifies this`files
      ensures Valid() && files == old(files) - {Wip(id)}
      ensures forall k :: Lookup(k) == old(Lookup(k))
    {
      SetWip(id, None);
    }

    /** Touching an in-progress file never touches a committed object. */
    method SetWip(id: nat, body: Option<seq<byte>>)
      requires Valid()
      modifies this`files
      ensures Valid() && files == if body == None then old(files) - {Wip(id)} else old(files)[Wip(id) := body.value]
      ensures forall k :: Lookup(k) == old(Lookup(k))
    {
      var fs := if body == None then files - {Wip(id)} else files[Wip(id) := body.value];
      forall j | 0 <= j < |shards|
        ensures ShardOk(shards[j], j, L(), fs)
      {
        OtherShardOk(shards[j], j, j + 1, L(), files, fs);
      }
      hide ShardOk, L;
      files := fs;
    }

    /** Commits a finished body. Whatever the outcome the temporary file is gone, every other key is
        served as before or has been evicted, and a stored object is served with its own metadata. */
    method Commit(meta: ObjectMeta, id: nat, renameOk: bool) returns (stored: bool, failed: bool)
      requires Valid() && Wip(id) in files
      modifies this`shards, this`files
      ensures Valid() && Wip(id) !in files
      ensures stored <==> |old(files)[Wip(id)]| <= shards[Home(meta.key)].maxBytes && renameOk
      ensures failed <==> |old(files)[Wip(id)]| <= shards[Home(meta.key)].maxBytes && !renameOk
      ensures stored ==> var body := old(files)[Wip(id)];
                         Lookup(meta.key) == Some(Object(meta.(size := |body|), body))
      ensures stored ==> var i, body := Home(meta.key), old(files)[Wip(id)];
                         shards[i] == InstallEntry(MadeRoom(old(shards)[i], meta.key, |body|), meta.(size := |body|))
      ensures failed ==> Lookup(meta.key) == None
      ensures !stored && !failed ==> shards == old(shards) && Lookup(meta.key) == old(Lookup(meta.key))
      ensures forall k :: k != meta.key ==> Lookup(k) == None || Lookup(k) == old(Lookup(k))
    {
      var i := Home(meta.key);
      ghost var s, fs0 := shards[i], files;
      assert ShardOk(s, i, L(), files);
      var r, fs;
      stored, failed, r, fs := CommitShard(shards[i], files, meta, id, renameOk);
      CommitFacts(s, fs0, meta, id, renameOk, stored, failed, r, fs);
      CommitStaysHome(s, i, L(), fs0, meta, id, renameOk, stored, failed, r, fs);
      hide ShardOk, BlobsKeptOutside, L, Commits;
      Store(i, r, fs);
    }
  
    /** A writer's whole life: create the temporary file, stream the body, commit. */
    method WriteObject(meta: ObjectMeta, body: seq<byte>, renameOk: bool) returns (stored: bool, failed: bool)
      requires Valid()
      modifies this`shards, this`files
      ensures Valid()
      ensures stored ==> Lookup(meta.key) == Some(Object(meta.(size := |body|), body))
      ensures failed ==> Lookup(meta.key) == None
      ensures !stored && !failed ==> Lookup(meta.key) == old(Lookup(meta.key))
      ensures forall k :: k != meta.key ==> Lookup(k) == None || Lookup(k) == old(Lookup(k))
    {
      hide Valid, Lookup;
      var id := Begin();
      var n := Write(id, body, |body|);
      assert files[Wip(id)] == [] + body[..n] == body;
      stored, failed := Commit(meta, id, renameOk);
    }

    /** A hit opens the blob under the shard lock, so metadata and body are of the same commit. A blob
        that cannot be opened drops its entry. */
    method Get(key: string, openOk: bool) returns (r: Option<Object>)
      requires Valid()
      modifies this`shards, this`files
      ensures Valid()
      ensures r == if openOk then old(Lookup(key)) else None
      ensures Lookup(key) == r
      ensures forall k :: k != key ==> Lookup(k) == old(Lookup(k))
      ensures var i := Home(key);
              var s := old(shards)[i];
              shards == old(shards)[i := if key !in s.items then s else if openOk then TouchEntry(s, key) else RemoveEntry(s, key)]
    {
      var i := Home(key);
      var s := shards[i];
      assert ShardOk(s, i, L(), files);
      if key !in s.items {
        return None;
      }
      assert Backed(s.items[key], files) && ValidEntry(key, s.items[key]);
      var touched := TouchEntry(s, key);
      if !openOk {
        TouchRemoved(touched, s, key);
        Delete(key);
        return None;
      }
      TouchOk(s, i, L(), files, key);
      hide BlobsKeptOutside, L, ShardOk, Backed;
      r := Some(Object(s.items[key], files[Blob(key)]));
      NoFileChange(files, L(), i);
      Store(i, touched, files);
    }

    /** Removes a key: entry, blob and accounting; every other object is served as before. */
    method Delete(key: string)
      requires Valid()
      modifies this`shards, this`files
      ensures Valid() && Lookup(key) == None
      ensures forall k :: k != key ==> Lookup(k) == old(Lookup(k))
      ensures shards == old(shards)[Home(key) := RemoveEntry(old(shards)[Home(key)], key)]
    {
      var i := Home(key);
      var s := shards[i];
      assert ShardOk(s, i, L(), files);
      if key in s.items {
        RemoveOk(s, i, L(), files, key);
        hide BlobsKeptOutside, L, ShardOk;
        Store(i, RemoveEntry(s, key), files - {Blob(key)});
      }
    }

    /** Builds the index of every shard, most recently used first, and clears the dirty flags. */
    method TakeSnapshot() returns (list: seq<ObjectMeta>, anyDirty: bool)
      requires Valid()
      modifies this`shards
      ensures Valid() && AllIndexed(old(shards)) && list == Snapshot(old(shards)) && DistinctKeys(list)
      ensures anyDirty <==> exists i :: 0 <= i < |old(shards)| && old(shards)[i].dirty
      ensures shards == Cleaned(old(shards))
      ensures forall k :: Lookup(k) == old(Lookup(k))
    {
      TierIndexed(shards, L(), files);
      assert shards[0..] == shards;
      SnapshotDistinct(shards, L(), files, 0);
      CleanedTier(shards, L(), files);
      hide TierOk, L, DistinctKeys, AllIndexed;
      list, anyDirty, shards := SnapshotAll(shards);
    }

    /** Writes the index through a temporary file and a rename: all of it or none. */
    method WriteIndex(list: seq<ObjectMeta>, ok: bool)
      requires Valid()
      modifies this`index
      ensures Valid() && index == if ok then Entries(list) else old(index)
      ensures forall k :: Lookup(k) == old(Lookup(k))
    {
      if ok {
        index := Entries(list);
      }
    }

    /** Shutdown persists the complete state whatever the dirty flags say. */
    method Close(ok: bool)
      requires Valid()
      modifies this`shards, this`index
      ensures Valid() && AllIndexed(old(shards)) && files == old(files)
      ensures ok ==> index == Entries(Snapshot(old(shards)))
      ensures !ok ==> index == old(index)
    {
      var list, anyDirty := TakeSnapshot();
      WriteIndex(list, ok);
    }

    /** The background flush: writes the whole index if any shard is dirty, and marks every shard
        dirty again when the write fails. */
    method FlushIfDirty(ok: bool)
      requires Valid()
      modifies this`shards, this`index
      ensures Valid() && AllIndexed(old(shards)) && files == old(files)
      ensures var anyDirty := exists i :: 0 <= i < |old(shards)| && old(shards)[i].dirty;
              if !anyDirty then shards == old(shards) && index == old(index)
              else if ok then shards == Cleaned(old(shards)) && index == Entries(Snapshot(old(shards)))
              else shards == Marked(old(shards)) && index == old(index)
    {
      ghost var was := shards;
      var list, anyDirty := TakeSnapshot();
      if anyDirty {
        WriteIndex(list, ok);
        if !ok {
          MarkedTier(shards, L(), files);
          hide TierOk, L;
          shards := Marked(shards);
          assert shards == Marked(was);
        }
      } else {
        assert Cleaned(was) == was;
      }
    }

    /** Sums the lock-free mirrors: with no lock held this is the bytes of the blobs indexed, and never more
        than a non-negative budget. */
    method Bytes() returns (n: int)
      requires Valid()
      ensures n == Shards.Sum(CurBytes(shards))
      ensures 0 <= n <= (if maxBytes > 0 then maxBytes else 0)
    {
      n := 0;
      for i := 0 to |shards|
        invariant n == Shards.Sum(CurBytes(shards)[..i])
      {
        assert CurBytes(shards)[..i + 1] == CurBytes(shards)[..i] + [shards[i].curBytes];
        Shards.SumAppend(CurBytes(shards)[..i], [shards[i].curBytes]);
        assert Shards.Sum([shards[i].curBytes]) == shards[i].curBytes;
        assert ShardOk(shards[i], i, L(), files);
        n := n + shards[i].atomicBytes;
      }
      assert CurBytes(shards)[..|shards|] == CurBytes(shards);
      WithinBudget();
    }

    /** Every reachable state keeps the tier within its budget: the shard caps sum to it. */
    lemma WithinBudget()
      requires Valid()
      ensures 0 <= Shards.Sum(CurBytes(shards)) <= (if maxBytes > 0 then maxBytes else 0)
    {
      hide Shards.Cap;
      forall i | 0 <= i < |shards|
        ensures 0 <= CurBytes(shards)[i]
        ensures CurBytes(shards)[i] <= Shards.Cap(maxBytes, |shards|, i) || CurBytes(shards)[i] == 0
      {
        assert ShardOk(shards[i], i, L(), files);
        ShardBytes(shards[i]);
      }
      Shards.SumWithinBudget(maxBytes, CurBytes(shards));
    }

    /** Drops every object of every shard and persists the emptied index. */
    method Reset(ok: bool)
      requires Valid()
      modifies this`shards, this`files, this`index
      ensures Valid() && forall k :: Lookup(k) == None
      ensures |shards| == |old(shards)| && forall i :: 0 <= i < |shards| ==> shards[i].items == map[]
      ensures var any := exists i :: 0 <= i < |old(shards)| && Touched(old(shards)[i]);
              && index == (if any && ok then Entries([]) else old(index))
              && forall i :: 0 <= i < |shards| ==> shards[i].dirty == (any && !ok)
    {
      hide *;
      ghost var was := shards;
      DropAll();
      ghost var emptied := shards;
      NothingListed();
      FlushIfDirty(ok);
      assert forall i :: 0 <= i < |was| ==> emptied[i].dirty == Touched(was[i]);
      AnyTouched(was, emptied);
      NothingServed();
    }

    lemma NothingListed()
      requires Valid() && forall i :: 0 <= i < |shards| ==> shards[i].items == map[]
      ensures AllIndexed(shards) && Snapshot(shards) == []
    {
      hide L;
      EmptySnapshot(shards, L(), files);
    }

    lemma NothingServed()
      requires Valid() && forall i :: 0 <= i < |shards| ==> shards[i].items == map[]
      ensures forall k :: Lookup(k) == None
    {
      hide L;
    }

    method DropAll()
      requires Valid()
      modifies this`shards, this`files
      ensures Valid() && |shards| == |old(shards)|
      ensures forall i :: 0 <= i < |shards| ==> shards[i].items == map[] && shards[i].dirty == Touched(old(shards)[i])
    {
      hide TierOk, L, Touched;
      for i := 0 to |shards|
        invariant Valid() && |shards| == |old(shards)|
        invariant forall j :: 0 <= j < i ==> shards[j].items == map[] && shards[j].dirty == Touched(old(shards)[j])
        invariant forall j :: i <= j < |shards| ==> shards[j] == old(shards)[j]
      {
        ResetShard(i);
      }
    }

    /** Removes the keys of one shard, one by one. */
    method ResetShard(i: int)
      requires Valid() && 0 <= i < |shards|
      modifies this`shards, this`files
      ensures Valid() && |shards| == |old(shards)| && shards[i].items == map[]
      ensures shards[i].dirty == Touched(old(shards)[i])
      ensures forall j :: 0 <= j < |shards| && j != i ==> shards[j] == old(shards)[j]
    {
      hide ShardOk, L;
      while shards[i].items != map[]
        invariant Valid() && |shards| == |old(shards)|
        invariant shards[i] == old(shards)[i] || (shards[i].dirty && old(shards)[i].items != map[])
        invariant forall j :: 0 <= j < |shards| && j != i ==> shards[j] == old(shards)[j]
        decreases |shards[i].items|
      {
        var k :| k in shards[i].items;
        ShardHome(shards[i], i, L(), files, k);
        ghost var before := shards[i];
        Delete(k);
        assert shards[i] == RemoveEntry(before, k);
      }
    }
  }

  function CurBytes(shards: seq<Shard>): (r: seq<int>)
    ensures |r| == |shards| && forall i :: 0 <= i < |r| ==> r[i] == shards[i].curBytes
  {
    seq(|shards|, i requires 0 <= i < |shards| => shards[i].curBytes)
  }

  lemma ShardBytes(s: Shard)
    requires DiskShard.Valid(s)
    ensures 0 <= s.curBytes && (s.curBytes <= s.maxBytes || s.curBytes == 0)
  {
    hide Total;
    AccountedBytes(s);
    forall i | 0 <= i < |s.lru|
      ensures MetasOf(s)[i].size >= 0
    {
      assert ValidEntry(s.lru[i], s.items[s.lru[i]]);
    }
    BytesNonNegative(MetasOf(s));
  }

  lemma AnyTouched(was: seq<Shard>, now: seq<Shard>)
    requires |was| == |now| && forall i :: 0 <= i < |was| ==> now[i].dirty == Touched(was[i])
    ensures (exists i :: 0 <= i < |now| && now[i].dirty) <==> exists i :: 0 <= i < |was| && Touched(was[i])
  {
    hide Touched;
  }

  /** Emptying the shard leaves it dirty. */
  predicate Touched(s: Shard) {
    s.dirty || s.items != map[]
  }

  function Cleaned(shards: seq<Shard>): (r: seq<Shard>)
    ensures |r| == |shards| && forall i :: 0 <= i < |shards| ==> r[i] == shards[i].(dirty := false)
  {
    seq(|shards|, i requires 0 <= i < |shards| => shards[i].(dirty := false))
  }

  function Marked(shards: seq<Shard>): (r: seq<Shard>)
    ensures |r| == |shards| && forall i :: 0 <= i < |shards| ==> r[i] == shards[i].(dirty := true)
  {
    seq(|shards|, i requires 0 <= i < |shards| => shards[i].(dirty := true))
  }

  lemma MarkedTier(shards: seq<Shard>, l: Layout, files: Files)
    requires TierOk(shards, l, files)
    ensures TierOk(Marked(shards), l, files)
  {
    hide Linked, Total;
    forall i | 0 <= i < |shards|
      ensures ShardOk(Marked(shards)[i], i, l, files)
    {
      assert ShardOk(shards[i], i, l, files);
    }
  }

  lemma ShardHome(s: Shard, i: int, l: Layout, files: Files, k: string)
    requires 0 <= i < |l.caps| && ShardOk(s, i, l, files) && k in s.items
    ensures l.home(k) == i
  {
  }

  lemma EmptyShard(s: Shard, i: int, l: Layout, files: Files)
    requires 0 <= i < |l.caps| && ShardOk(s, i, l, files) && s.items == map[]
    ensures s.lru == []
  {
  }

  lemma EmptySnapshot(shards: seq<Shard>, l: Layout, files: Files)
    requires TierOk(shards, l, files) && forall i :: 0 <= i < |shards| ==> shards[i].items == map[]
    ensures AllIndexed(shards) && Snapshot(shards) == []
  {
    forall i | 0 <= i < |shards|
      ensures shards[i].lru == []
    {
      EmptyShard(shards[i], i, l, files);
    }
    hide TierOk;
    EmptyLists(shards);
  }

  lemma {:induction false} EmptyLists(shards: seq<Shard>)
    requires forall i :: 0 <= i < |shards| ==> shards[i].lru == []
    ensures AllIndexed(shards) && Snapshot(shards) == []
  {
    if shards != [] {
      EmptyLists(shards[1..]);
    }
  }

  /** The snapshot loop: one shard after the other. */
  method SnapshotAll(shards: seq<Shard>) returns (list: seq<ObjectMeta>, anyDirty: bool, cleaned: seq<Shard>)
    requires AllIndexed(shards)
    ensures list == Snapshot(shards) && cleaned == Cleaned(shards)
    ensures anyDirty <==> exists i :: 0 <= i < |shards| && shards[i].dirty
  {
    list, anyDirty, cleaned := [], false, [];
    for i := 0 to |shards|
      invariant list == Snapshot(shards[..i])
      invariant |cleaned| == i && forall j :: 0 <= j < i ==> cleaned[j] == shards[j].(dirty := false)
      invariant anyDirty <==> exists j :: 0 <= j < i && shards[j].dirty
    {
      var s := shards[i];
      if s.dirty {
        anyDirty := true;
      }
      cleaned := cleaned + [s.(dirty := false)];
      var ms := SnapshotShard(s);
      assert shards[..i + 1] == shards[..i] + [s];
      SnapshotAppend(shards[..i], s);
      list := list + ms;
    }
    assert shards[..|shards|] == shards;
  }

  lemma CleanedTier(shards: seq<Shard>, l: Layout, files: Files)
    requires TierOk(shards, l, files)
    ensures TierOk(Cleaned(shards), l, files)
  {
    hide Linked, Total;
    forall i | 0 <= i < |shards|
      ensures ShardOk(Cleaned(shards)[i], i, l, files)
    {
      assert ShardOk(shards[i], i, l, files);
    }
  }

  /** Walks one recency list. */
  method SnapshotShard(s: Shard) returns (ms: seq<ObjectMeta>)
    requires Indexed(s.lru, s.items)
    ensures ms == PersistAll(Metas(s.lru, s.items))
  {
    ms := [];
    for n := 0 to |s.lru|
      invariant |ms| == n && forall x :: 0 <= x < n ==> ms[x] == Persisted(s.items[s.lru[x]])
    {
      ms := ms + [Persisted(s.items[s.lru[n]])];
    }
  }

  lemma TouchOk(s: Shard, i: int, l: Layout, files: Files, key: string)
    requires 0 <= i < |l.caps| && ShardOk(s, i, l, files) && key in s.items
    ensures ShardOk(TouchEntry(s, key), i, l, files)
  {
    hide Linked, Total, Backed;
    TouchAccounted(s, key);
  }

  lemma NoFileChange(files: Files, l: Layout, i: int)
    ensures BlobsKeptOutside(files, files, l, i)
  {
  }

  lemma RemoveOk(s: Shard, i: int, l: Layout, files: Files, key: string)
    requires 0 <= i < |l.caps| && ShardOk(s, i, l, files) && key in s.items
    ensures ShardOk(RemoveEntry(s, key), i, l, files - {Blob(key)})
    ensures BlobsKeptOutside(files, files - {Blob(key)}, l, i)
    ensures forall k :: k in s.items && k != key ==> Blob(k) in files
  {
    hide Accounted, Backed;
    RemoveAccounted(s, key);
    forall k | k in s.items && k != key
      ensures Blob(k) in files && Backed(s.items[k], files - {Blob(key)})
    {
      assert Backed(s.items[k], files);
      EntryKey(s, k);
      BackedBlob(s.items[k], files);
      NewlyBacked(s.items[k], files - {Blob(key)});
    }
  }

  /** Moving to the front first makes no difference to a removal. */
  lemma TouchRemoved(touched: Shard, s: Shard, key: string)
    requires touched == TouchEntry(s, key) && key in s.items
    ensures RemoveEntry(touched, key) == RemoveEntry(s, key)
  {
    Rings.WithoutTwice(s.lru, key);
  }
}
