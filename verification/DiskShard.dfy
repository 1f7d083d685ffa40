/** One shard of the disk tier's index (internal/cache/disk.go): entries, recency list, byte count
    and dirty flag, with the updates every tier operation is made of. */
module DiskShard {
  import opened Objects
  import opened Rings
  import Clock

  /** `lru` lists the keys, most recently used first. */
  datatype Shard = Shard(
    maxBytes: int,
    curBytes: int,
    atomicBytes: int,
    items: map<string, ObjectMeta>,
    lru: seq<string>,
    dirty: bool)

  ghost predicate Indexed(lru: seq<string>, items: map<string, ObjectMeta>) {
    forall i :: 0 <= i < |lru| ==> lru[i] in items
  }

  /** List and map hold the same keys, each once. */
  ghost predicate Linked(lru: seq<string>, items: map<string, ObjectMeta>) {
    Distinct(lru) && Indexed(lru, items) && forall k :: k in items ==> k in lru
  }

  /** The entries in recency order, as the index file lists them. */
  function Metas(lru: seq<string>, items: map<string, ObjectMeta>): (ms: seq<ObjectMeta>)
    requires Indexed(lru, items)
    ensures |ms| == |lru| && forall i :: 0 <= i < |ms| ==> ms[i] == items[lru[i]]
  {
    seq(|lru|, i requires 0 <= i < |lru| => items[lru[i]])
  }

  /** Total size of a list of entries. */
  function Bytes(ms: seq<ObjectMeta>): int {
    if ms == [] then 0 else ms[0].size + Bytes(ms[1..])
  }

  /** Total size of the entries listed in `lru`. */
  function Total(lru: seq<string>, items: map<string, ObjectMeta>): int {
    if lru == [] then 0
    else (if lru[0] in items then items[lru[0]].size else 0) + Total(lru[1..], items)
  }

  lemma {:induction false} TotalBytes(lru: seq<string>, items: map<string, ObjectMeta>)
    requires Indexed(lru, items)
    ensures Total(lru, items) == Bytes(Metas(lru, items))
  {
    if lru != [] {
      TotalBytes(lru[1..], items);
      assert Metas(lru, items)[1..] == Metas(lru[1..], items);
    }
  }

  ghost predicate ValidEntry(k: string, m: ObjectMeta) {
    m.key == k && m.size >= 0
  }

  /** The byte count is the sum of the entries' sizes. */
  ghost predicate Accounted(s: Shard) {
    && Linked(s.lru, s.items)
    && (forall k :: k in s.items ==> ValidEntry(k, s.items[k]))
    && s.curBytes == Total(s.lru, s.items)
    && s.atomicBytes == s.curBytes
  }

  /** What holds of a shard whenever its lock is free. */
  ghost predicate Valid(s: Shard) {
    Accounted(s) && (s.curBytes <= s.maxBytes || s.lru == [])
  }

  ghost function MetasOf(s: Shard): seq<ObjectMeta>
    requires Indexed(s.lru, s.items)
  {
    Metas(s.lru, s.items)
  }

  // ----- The updates -----

  /** Drops an entry and marks the shard dirty; an absent key changes nothing. */
  function RemoveEntry(s: Shard, k: string): Shard {
    if k in s.items then
      s.(curBytes := s.curBytes - s.items[k].size,
         atomicBytes := s.curBytes - s.items[k].size,
         lru := Without(s.lru, k),
         items := s.items - {k},
         dirty := true)
    else s
  }

  /** Links a new entry at the front and marks the shard dirty. */
  function InstallEntry(s: Shard, m: ObjectMeta): Shard {
    s.(curBytes := s.curBytes + m.size,
       atomicBytes := s.curBytes + m.size,
       lru := [m.key] + s.lru,
       items := s.items[m.key := m],
       dirty := true)
  }

  /** A hit moves the entry to the front; it does not mark the shard dirty. */
  function TouchEntry(s: Shard, k: string): Shard {
    s.(lru := [k] + Without(s.lru, k))
  }

  // ----- What the updates keep -----

  lemma {:induction false} BytesAppend(a: seq<ObjectMeta>, b: seq<ObjectMeta>)
    ensures Bytes(a + b) == Bytes(a) + Bytes(b)
  {
    if a == [] {
      assert a + b == b;
    } else {
      assert (a + b)[1..] == a[1..] + b;
      BytesAppend(a[1..], b);
    }
  }

  lemma {:induction false} BytesNonNegative(ms: seq<ObjectMeta>)
    requires forall i :: 0 <= i < |ms| ==> ms[i].size >= 0
    ensures Bytes(ms) >= 0
  {
    if ms != [] {
      BytesNonNegative(ms[1..]);
    }
  }

  /** Entries that are not listed do not matter. */
  lemma {:induction false} TotalFrame(lru: seq<string>, a: map<string, ObjectMeta>, b: map<string, ObjectMeta>)
    requires forall i :: 0 <= i < |lru| ==> lru[i] in a && lru[i] in b && a[lru[i]] == b[lru[i]]
    ensures Total(lru, a) == Total(lru, b)
  {
    if lru != [] {
      TotalFrame(lru[1..], a, b);
    }
  }

  lemma {:induction false} TotalWithout(lru: seq<string>, items: map<string, ObjectMeta>, k: string)
    requires Distinct(lru) && k in lru && k in items
    ensures Total(Without(lru, k), items) == Total(lru, items) - items[k].size
  {
    if lru[0] == k {
      assert k !in lru[1..];
    } else {
      TotalWithout(lru[1..], items, k);
      assert Without(lru, k)[1..] == Without(lru[1..], k);
    }
  }

  lemma RemoveLinked(lru: seq<string>, items: map<string, ObjectMeta>, k: string)
    requires Linked(lru, items)
    ensures Linked(Without(lru, k), items - {k})
  {
    WithoutDistinct(lru, k);
    hide Distinct;
  }

  /** Removing a key from list and map together. */
  lemma RemoveTotal(lru: seq<string>, items: map<string, ObjectMeta>, k: string)
    requires Linked(lru, items) && k in items
    ensures Total(Without(lru, k), items - {k}) == Total(lru, items) - items[k].size
    ensures lru != []
  {
    TotalWithout(lru, items, k);
    TotalFrame(Without(lru, k), items, items - {k});
  }

  lemma RemoveAccounted(s: Shard, k: string)
    requires Accounted(s)
    ensures Accounted(RemoveEntry(s, k)) && RemoveEntry(s, k).curBytes <= s.curBytes
    ensures Valid(s) ==> Valid(RemoveEntry(s, k))
  {
    hide Total, Linked, Without;
    if k in s.items {
      RemoveLinked(s.lru, s.items, k);
      RemoveTotal(s.lru, s.items, k);
      assert ValidEntry(k, s.items[k]);
    }
  }

  lemma InstallLinked(lru: seq<string>, items: map<string, ObjectMeta>, m: ObjectMeta)
    requires Linked(lru, items) && m.key !in items
    ensures Linked([m.key] + lru, items[m.key := m])
    ensures Total([m.key] + lru, items[m.key := m]) == m.size + Total(lru, items)
  {
    assert ([m.key] + lru)[1..] == lru;
    TotalFrame(lru, items, items[m.key := m]);
  }

  lemma InstallAccounted(s: Shard, m: ObjectMeta)
    requires Accounted(s) && m.key !in s.items && m.size >= 0
    ensures Accounted(InstallEntry(s, m))
  {
    hide Linked, Total;
    InstallLinked(s.lru, s.items, m);
  }

  lemma TouchAccounted(s: Shard, k: string)
    requires Accounted(s) && k in s.items
    ensures Accounted(TouchEntry(s, k))
    ensures Valid(s) ==> Valid(TouchEntry(s, k))
  {
    hide Linked, Total, Without;
    RemoveAccounted(s, k);
    InstallAccounted(RemoveEntry(s, k), s.items[k]);
    RemoveTotal(s.lru, s.items, k);
    var r := InstallEntry(RemoveEntry(s, k), s.items[k]);
    assert r.items == s.items;
    assert r == TouchEntry(s, k).(dirty := true);
    DirtyIrrelevant(r, s.dirty);
  }

  lemma DirtyIrrelevant(s: Shard, dirty: bool)
    requires Accounted(s)
    ensures Accounted(s.(dirty := dirty))
  {
  }

  // ----- Least-recently-used eviction -----

  /** Removes from the back until the survivors take at most `room` bytes. */
  function EvictTo(s: Shard, room: int): Shard
    decreases |s.lru|
  {
    if s.lru == [] || s.curBytes <= room || s.lru[|s.lru| - 1] !in s.items then s
    else EvictTo(RemoveEntry(s, s.lru[|s.lru| - 1]), room)
  }

  /** The number of leading entries that fit in `room` together. */
  function Fit(ms: seq<ObjectMeta>, room: int): (n: nat)
    ensures n <= |ms|
    ensures n > 0 ==> Bytes(ms[..n]) <= room
    ensures n < |ms| ==> Bytes(ms[..n + 1]) > room
  {
    if ms == [] then 0
    else if Bytes(ms) <= room then assert ms[..|ms|] == ms; |ms|
    else
      var front := ms[..|ms| - 1];
      var n := Fit(front, room);
      assert ms[..n] == front[..n];
      assert n + 1 == |ms| ==> ms[..n + 1] == ms;
      assert n + 1 < |ms| ==> ms[..n + 1] == front[..n + 1];
      n
  }

  /** The entries whose key is on the list. */
  function Listed(items: map<string, ObjectMeta>, ks: seq<string>): map<string, ObjectMeta> {
    map k | k in items && k in ks :: items[k]
  }

  /** The shard cut down to its `n` most recently used entries. */
  ghost predicate CutTo(s: Shard, r: Shard, n: nat) {
    && n <= |s.lru|
    && r.lru == s.lru[..n]
    && r.items == Listed(s.items, s.lru[..n])
    && r.maxBytes == s.maxBytes
    && r.dirty == (s.dirty || n < |s.lru|)
  }

  lemma RemoveBack(s: Shard)
    requires Accounted(s) && s.lru != []
    ensures var k := s.lru[|s.lru| - 1];
            k in s.items
            && RemoveEntry(s, k).lru == s.lru[..|s.lru| - 1]
            && RemoveEntry(s, k).items == s.items - {k}
            && Indexed(s.lru[..|s.lru| - 1], s.items - {k})
            && Metas(s.lru[..|s.lru| - 1], s.items - {k}) == MetasOf(s)[..|s.lru| - 1]
  {
    WithoutLast(s.lru);
  }

  /** Eviction keeps exactly the longest recency prefix that fits, and marks the shard dirty just
      when it drops something. */
  lemma {:induction false} EvictClosedForm(s: Shard, room: int)
    requires Accounted(s)
    ensures Accounted(EvictTo(s, room))
    ensures CutTo(s, EvictTo(s, room), Fit(MetasOf(s), room))
    ensures EvictTo(s, room).curBytes <= room || (EvictTo(s, room).lru == [] && EvictTo(s, room).curBytes == 0)
    decreases |s.lru|
  {
    AccountedBytes(s);
    hide Accounted, CutTo;
    if s.lru == [] || s.curBytes <= room {
      CutNothing(s);
    } else {
      var k := s.lru[|s.lru| - 1];
      var t := RemoveEntry(s, k);
      RemoveAccounted(s, k);
      RemoveBack(s);
      EvictClosedForm(t, room);
      CutMore(s, t, EvictTo(t, room), Fit(MetasOf(t), room));
    }
  }

  lemma AccountedBytes(s: Shard)
    requires Accounted(s)
    ensures Indexed(s.lru, s.items) && s.curBytes == Bytes(MetasOf(s))
    ensures s.lru == [] ==> s.curBytes == 0
  {
    TotalBytes(s.lru, s.items);
  }

  lemma CutNothing(s: Shard)
    requires Accounted(s)
    ensures CutTo(s, s, |s.lru|)
  {
    assert s.lru[..|s.lru|] == s.lru;
    assert Listed(s.items, s.lru) == s.items;
  }

  lemma CutMore(s: Shard, t: Shard, r: Shard, n: nat)
    requires Accounted(s) && s.lru != [] && t == RemoveEntry(s, s.lru[|s.lru| - 1])
    requires CutTo(t, r, n)
    ensures CutTo(s, r, n)
  {
    hide Accounted, RemoveEntry;
    RemoveBack(s);
    RemoveDirties(s, s.lru[|s.lru| - 1]);
    assert s.lru[..n] == t.lru[..n];
    BackIsLast(s, n);
  }

  lemma RemoveDirties(s: Shard, k: string)
    requires k in s.items
    ensures RemoveEntry(s, k).dirty && RemoveEntry(s, k).maxBytes == s.maxBytes
  {
  }

  lemma BackIsLast(s: Shard, n: nat)
    requires Accounted(s) && n < |s.lru|
    ensures Listed(s.items - {s.lru[|s.lru| - 1]}, s.lru[..n]) == Listed(s.items, s.lru[..n])
  {
    hide Total;
    assert s.lru[|s.lru| - 1] !in s.lru[..n];
  }

  /** An entry carries its own key and a size. */
  lemma EntryKey(s: Shard, k: string)
    requires Accounted(s) && k in s.items
    ensures s.items[k].key == k && s.items[k].size >= 0
  {
    hide Linked, Total;
    assert ValidEntry(k, s.items[k]);
  }

  lemma CutKeeps(s: Shard, r: Shard, n: nat)
    requires CutTo(s, r, n)
    ensures r.maxBytes == s.maxBytes
    ensures forall k :: k in r.items ==> k in s.items && r.items[k] == s.items[k]
  {
  }
}
