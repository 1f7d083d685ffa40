/** The disk tier (internal/cache/disk.go): blob files, a sharded recency index over them, and the
    index file that survives a restart. Every method is one critical section of a shard's lock. */
module Disk {
  import opened Objects
  import opened Rings
  import opened DiskShard
  import Shards

  /** File names in the blob directory. A committed blob is named by the SHA-256 of its key, taken
      to be injective; an in-progress body carries the "wip-" prefix, which no hash can. */
  datatype Name = Blob(key: string) | Wip(id: nat)

  type Files = map<Name, seq<byte>>

  /** index.json: absent, not parseable, or a list of entries. */
  datatype IndexFile = Missing | Corrupt | Entries(list: seq<ObjectMeta>)

  /** The entry's blob is on disk with the recorded size. */
  predicate Backed(m: ObjectMeta, files: Files) {
    Blob(m.key) in files && |files[Blob(m.key)]| == m.size
  }

  lemma BackedBlob(m: ObjectMeta, files: Files)
    requires Backed(m, files)
    ensures Blob(m.key) in files && |files[Blob(m.key)]| == m.size
  {
  }

  /** Unlinks the blobs of `keys`. */
  function DropBlobs(files: Files, keys: set<string>): Files {
    map n | n in files && !(n.Blob? && n.key in keys) :: files[n]
  }

  ghost predicate AllBacked(s: Shard, files: Files) {
    forall k :: k in s.items ==> Backed(s.items[k], files)
  }

  lemma DropOneMore(files: Files, keys: set<string>, k: string)
    ensures DropBlobs(files, keys) - {Blob(k)} == DropBlobs(files, keys + {k})
  {
  }

  lemma EvictStep(s: Shard, room: int)
    requires Accounted(s) && s.lru != [] && s.curBytes > room
    ensures var k := s.lru[|s.lru| - 1];
            && k in s.items
            && Accounted(RemoveEntry(s, k))
            && RemoveEntry(s, k).items.Keys == s.items.Keys - {k}
            && |RemoveEntry(s, k).lru| < |s.lru|
            && EvictTo(s, room) == EvictTo(RemoveEntry(s, k), room)
  {
    hide Total;
    RemoveBack(s);
    RemoveAccounted(s, s.lru[|s.lru| - 1]);
  }

  /** The eviction loop, with the blob of every victim unlinked. */
  method EvictLoop(s: Shard, files: Files, room: int) returns (r: Shard, fs: Files)
    requires Accounted(s)
    ensures r == EvictTo(s, room)
    ensures fs == DropBlobs(files, s.items.Keys - r.items.Keys)
  {
    hide Accounted, RemoveEntry, DropBlobs;
    r, fs := s, files;
    DropNone(files, s);
    while r.lru != [] && r.curBytes > room
      invariant Accounted(r) && EvictTo(r, room) == EvictTo(s, room)
      invariant r.items.Keys <= s.items.Keys
      invariant fs == DropBlobs(files, s.items.Keys - r.items.Keys)
      decreases |r.lru|
    {
      var back := r.lru[|r.lru| - 1];
      EvictStep(r, room);
      ghost var gone := s.items.Keys - r.items.Keys;
      DropOneMore(files, gone, back);
      r, fs := RemoveEntry(r, back), fs - {Blob(back)};
      assert s.items.Keys - r.items.Keys == gone + {back};
    }
  }

  lemma DropNone(files: Files, s: Shard)
    ensures DropBlobs(files, s.items.Keys - s.items.Keys) == files
  {
  }

  // ----- Commit -----

  /** The shard once the old copy is out and there is room for `n` more bytes. */
  ghost function MadeRoom(s: Shard, key: string, n: int): Shard {
    EvictTo(RemoveEntry(s, key), s.maxBytes - n)
  }

  lemma MadeRoomOk(s: Shard, key: string, n: nat)
    requires Valid(s) && n <= s.maxBytes
    ensures var r := MadeRoom(s, key, n);
            && Accounted(r) && r.maxBytes == s.maxBytes && r.curBytes + n <= s.maxBytes
            && key !in r.items
            && (forall k :: k in r.items ==> k in s.items && r.items[k] == s.items[k])
  {
    hide Accounted, CutTo, EvictTo;
    RemoveAccounted(s, key);
    var t := RemoveEntry(s, key);
    AccountedBytes(t);
    EvictClosedForm(t, s.maxBytes - n);
    CutKeeps(t, EvictTo(t, s.maxBytes - n), Fit(MetasOf(t), s.maxBytes - n));
  }

  /** What a commit leaves on disk: the victims' blobs are gone, and so is the temporary file,
      renamed over the key's blob when the rename succeeded. */
  ghost function CommittedFiles(s: Shard, r: Shard, files: Files, key: string, id: nat, renamed: bool): Files
    requires Wip(id) in files
  {
    var kept := DropBlobs(files, s.items.Keys - r.items.Keys) - {Wip(id)};
    if renamed then kept[Blob(key) := files[Wip(id)]] else kept
  }

  lemma CommittedBacked(s: Shard, r: Shard, files: Files, key: string, id: nat, renamed: bool)
    requires Wip(id) in files && AllBacked(s, files) && Accounted(s)
    requires key !in r.items
    requires forall k :: k in r.items ==> k in s.items && r.items[k] == s.items[k]
    ensures AllBacked(r, CommittedFiles(s, r, files, key, id, renamed))
  {
    hide Linked, Total;
    forall k | k in r.items
      ensures Backed(r.items[k], CommittedFiles(s, r, files, key, id, renamed))
    {
      assert Backed(s.items[k], files);
      assert ValidEntry(k, s.items[k]);
    }
  }

  /** The outcomes of a commit: refused as too large, failed at the rename, or stored. */
  ghost predicate Commits(s: Shard, files: Files, meta: ObjectMeta, id: nat, renameOk: bool,
                          stored: bool, failed: bool, r: Shard, fs: Files)
    requires Wip(id) in files
  {
    var n := |files[Wip(id)]|;
    if n > s.maxBytes then
      !stored && !failed && r == s && fs == files - {Wip(id)}
    else if !renameOk then
      !stored && failed && r == MadeRoom(s, meta.key, n)
      && fs == CommittedFiles(s, r, files, meta.key, id, false)
    else
      stored && !failed && r == InstallEntry(MadeRoom(s, meta.key, n), meta.(size := n))
      && fs == CommittedFiles(s, MadeRoom(s, meta.key, n), files, meta.key, id, true)
  }

  /** What each outcome means for the key and for every other entry of the shard. */
  lemma CommitFacts(s: Shard, files: Files, meta: ObjectMeta, id: nat, renameOk: bool,
                    stored: bool, failed: bool, r: Shard, fs: Files)
    requires Valid(s) && AllBacked(s, files) && Wip(id) in files
    requires Commits(s, files, meta, id, renameOk, stored, failed, r, fs)
    ensures Wip(id) !in fs
    ensures stored ==> meta.key in r.items && r.items[meta.key] == meta.(size := |files[Wip(id)]|)
                       && Blob(meta.key) in fs && fs[Blob(meta.key)] == files[Wip(id)]
    ensures failed ==> meta.key !in r.items
    ensures forall k :: k in r.items && (k != meta.key || (!stored && !failed)) ==>
              k in s.items && r.items[k] == s.items[k]
              && Blob(k) in files && Blob(k) in fs && fs[Blob(k)] == files[Blob(k)]
  {
    hide EvictTo, Linked, Total;
    var n := |files[Wip(id)]|;
    if n <= s.maxBytes {
      MadeRoomOk(s, meta.key, n);
    }
    forall k | k in s.items
      ensures Blob(k) in files
    {
      assert Backed(s.items[k], files) && ValidEntry(k, s.items[k]);
    }
  }

  /** Moves a finished temporary file into place, evicting the shard's least recently used entries. */
  method CommitShard(s: Shard, files: Files, meta: ObjectMeta, id: nat, renameOk: bool)
    returns (stored: bool, failed: bool, r: Shard, fs: Files)
    requires Valid(s) && AllBacked(s, files) && Wip(id) in files
    ensures Valid(r) && AllBacked(r, fs) && r.maxBytes == s.maxBytes
    ensures Commits(s, files, meta, id, renameOk, stored, failed, r, fs)
  {
    hide Accounted, Backed, DropBlobs;
    var key, n := meta.key, |files[Wip(id)]|;
    var m := meta.(size := n);
    if n > s.maxBytes {
      SameBacked(s, files, id);
      return false, false, s, files - {Wip(id)};
    }
    RemoveAccounted(s, key);
    MadeRoomOk(s, key, n);
    fs := if key in s.items then files - {Blob(key)} else files;
    r, fs := EvictLoop(RemoveEntry(s, key), fs, s.maxBytes - n);
    DropTwice(s, key, r, files);
    CommittedBacked(s, r, files, key, id, renameOk);
    if !renameOk {
      return false, true, r, fs - {Wip(id)};
    }
    fs := (fs - {Wip(id)})[Blob(key) := files[Wip(id)]];
    NewlyBacked(m, fs);
    InstallBacked(r, m, fs);
    InstallAccounted(r, m);
    return true, false, InstallEntry(r, m), fs;
  }

  lemma SameBacked(s: Shard, files: Files, id: nat)
    requires AllBacked(s, files)
    ensures AllBacked(s, files - {Wip(id)})
  {
    forall k | k in s.items
      ensures Backed(s.items[k], files - {Wip(id)})
    {
      assert Backed(s.items[k], files);
    }
  }

  lemma NewlyBacked(m: ObjectMeta, files: Files)
    requires Blob(m.key) in files && |files[Blob(m.key)]| == m.size
    ensures Backed(m, files)
  {
  }

  lemma InstallBacked(s: Shard, m: ObjectMeta, files: Files)
    requires AllBacked(s, files) && Backed(m, files)
    ensures AllBacked(InstallEntry(s, m), files)
  {
    hide Backed;
  }

  /** Unlinking the replaced blob and then the victims' blobs is unlinking them all. */
  lemma DropTwice(s: Shard, key: string, r: Shard, files: Files)
    requires r.items.Keys <= s.items.Keys - {key}
    ensures var fs := if key in s.items then files - {Blob(key)} else files;
            DropBlobs(fs, RemoveEntry(s, key).items.Keys - r.items.Keys)
            == DropBlobs(files, s.items.Keys - r.items.Keys)
  {
    var fs := if key in s.items then files - {Blob(key)} else files;
    var a, b := RemoveEntry(s, key).items.Keys - r.items.Keys, s.items.Keys - r.items.Keys;
    assert key in s.items ==> b == a + {key};
    assert key !in s.items ==> a == b;
  }
}
