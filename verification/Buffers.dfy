/** Write buffers, their pool, and the byte slices handed to cache entries (internal/cache/ram.go).
    What is at stake is aliasing: an entry's bytes must never be written again, although small
    buffers are recycled and large ones become the entry's bytes without a copy. */
module Buffers {
  import opened Objects

  /** The largest object that is copied out, and the largest capacity worth pooling. */
  const POOL_MAX_OBJECT: nat := 0x1_0000

  /** A growable byte buffer: the first `len` bytes of its backing array. */
  class Buffer {
    var backing: array<byte>
    var len: nat

    constructor ()
      ensures len == 0 && fresh(backing) && backing.Length == 0
    {
      backing := new byte[0];
      len := 0;
    }

    ghost function Content(): seq<byte>
      requires len <= backing.Length
      reads this, backing
    {
      backing[..len]
    }
  }

  /** A fresh array holding exactly the buffer's bytes. */
  method CopyOut(b: Buffer) returns (copy: array<byte>)
    requires b.len <= b.backing.Length
    ensures fresh(copy) && copy.Length == b.len && copy[..] == b.Content()
  {
    var from, n := b.backing, b.len;
    copy := new byte[n];
    forall i | 0 <= i < n {
      copy[i] := from[i];
    }
    assert copy[..] == from[..n];
  }

  /** Writes `p` at offset `n`. */
  method Fill(data: array<byte>, n: nat, p: seq<byte>)
    requires n + |p| <= data.Length
    modifies data
    ensures data[..n + |p|] == old(data[..n]) + p
  {
    forall i | 0 <= i < |p| {
      data[n + i] := p[i];
    }
  }

  /** The slice a cache entry (and every reader over it) holds. */
  datatype Slice = Slice(arr: array<byte>, len: nat)

  /** Every array once published keeps its recorded contents in `now`. */
  ghost predicate Grows(was: map<array<byte>, seq<byte>>, now: map<array<byte>, seq<byte>>) {
    forall a :: a in was ==> a in now && now[a] == was[a]
  }

  class BufferPool {
    var pool: set<Buffer>
    var active: set<Buffer>
    var entries: map<string, Slice>
    /** Every array ever handed to an entry, with the contents it had then. It outlives the entry:
        a reader may still hold an evicted slice. */
    ghost var published: map<array<byte>, seq<byte>>

    ghost predicate Valid()
      reads this, pool, active, published.Keys
    {
      && pool !! active
      && (forall b :: b in pool + active ==> b.len <= b.backing.Length && b.backing !in published)
      && (forall b, c :: b in pool + active && c in pool + active && b != c ==> b.backing != c.backing)
      && (forall b :: b in pool ==> b.backing.Length <= POOL_MAX_OBJECT)
      && (forall a :: a in published ==> a[..] == published[a])
      && (forall k :: k in entries ==> entries[k].arr in published && entries[k].len <= entries[k].arr.Length)
    }

    /** The bytes a hit on `k` serves. */
    ghost function Served(k: string): seq<byte>
      requires Valid() && k in entries
      reads this, pool, active, published.Keys
    {
      entries[k].arr[..entries[k].len]
    }

    constructor ()
      ensures Valid() && fresh(pool + active) && entries == map[] && published == map[]
    {
      pool, active, entries, published := {}, {}, map[], map[];
    }

    /** Takes a recycled buffer if the pool offers one, else a new one; either way reset. */
    method Acquire() returns (b: Buffer)
      requires Valid()
      modifies this`pool, this`active, pool
      ensures Valid() && b in active && b.len == 0
      ensures active == old(active) + {b} && b !in old(active) && pool == old(pool) - {b}
      ensures b in old(pool) || (fresh(b) && fresh(b.backing))
      ensures forall c :: c in old(active) ==> c.len == old(c.len) && c.backing == old(c.backing)
    {
      if pool == {} {
        b := new Buffer();
      } else {
        b :| b in pool;
        pool := pool - {b};
        b.len := 0;
      }
      active := active + {b};
    }

    /** Moves an active buffer to a larger array. */
    method Grow(b: Buffer, capacity: nat)
      requires Valid() && b in active && b.len <= capacity
      modifies b
      ensures Valid() && b.backing.Length == capacity && fresh(b.backing)
      ensures b.len == old(b.len) && b.Content() == old(b.Content())
    {
      var from, n := b.backing, b.len;
      var to := new byte[capacity];
      forall i | 0 <= i < n {
        to[i] := from[i];
      }
      b.backing := to;
      assert to[..n] == from[..n];
    }

    /** Appends to an active buffer, in place when the capacity allows, else into a larger array. */
    method Append(b: Buffer, p: seq<byte>, slack: nat)
      requires Valid() && b in active
      modifies b, b.backing
      ensures Valid() && b.Content() == old(b.Content()) + p
      ensures b.backing == old(b.backing) || fresh(b.backing)
    {
      if b.len + |p| > b.backing.Length {
        Grow(b, b.len + |p| + slack);
      }
      Put(b, p);
    }

    /** Appends where there is room. */
    method Put(b: Buffer, p: seq<byte>)
      requires Valid() && b in active && b.len + |p| <= b.backing.Length
      modifies b`len, b.backing
      ensures Valid() && b.Content() == old(b.Content()) + p
    {
      Fill(b.backing, b.len, p);
      b.len := b.len + |p|;
    }

    /** Commit: a small body is copied out and its buffer recycled, a large body hands its backing
        array over. `install` is whether the shard accepted the object. */
    method Commit(b: Buffer, key: string, install: bool)
      requires Valid() && b in active
      modifies this
      ensures Valid() && Grows(old(published), published)
      ensures active == old(active) - {b}
      ensures install ==> key in entries && Served(key) == old(b.Content())
      ensures install ==> entries == old(entries)[key := entries[key]]
      ensures !install ==> entries == old(entries)
    {
      if b.len <= POOL_MAX_OBJECT {
        var copy := CopyOut(b);
        if install {
          Publish(key, copy, b.len);
        }
        Discard(b, true);
      } else {
        Discard(b, false);
        if install {
          Publish(key, b.backing, b.len);
        }
      }
    }

    /** Gives an array to a cache entry; from here on nobody may write it. */
    method Publish(key: string, arr: array<byte>, len: nat)
      requires Valid() && len <= arr.Length
      requires arr !in published && forall b :: b in pool + active ==> b.backing != arr
      modifies this`entries, this`published
      ensures Valid() && Grows(old(published), published)
      ensures entries == old(entries)[key := Slice(arr, len)]
      ensures published == old(published)[arr := arr[..]]
    {
      entries := entries[key := Slice(arr, len)];
      published := published[arr := arr[..]];
    }

    /** Abort recycles the buffer; an overflow (`recycle == false`) just drops it. */
    method Discard(b: Buffer, recycle: bool)
      requires Valid() && b in active
      modifies this`pool, this`active
      ensures Valid() && active == old(active) - {b}
      ensures pool == if recycle && b.backing.Length <= POOL_MAX_OBJECT then old(pool) + {b} else old(pool)
    {
      active := active - {b};
      if recycle && b.backing.Length <= POOL_MAX_OBJECT {
        pool := pool + {b};
      }
    }

    /** Eviction or deletion forgets the entry; readers of its slice are not disturbed. */
    method Remove(key: string)
      requires Valid()
      modifies this`entries
      ensures Valid() && entries == old(entries) - {key}
    {
      entries := entries - {key};
    }
  }
}
