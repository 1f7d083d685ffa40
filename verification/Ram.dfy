/** The in-memory tier (internal/cache/ram.go): sharded, byte-bounded, second-chance eviction.
    Every method is one critical section of the owning shard's lock. */
module Ram {
  import opened Objects
  import opened Rings
  import opened Clock
  import Shards

  datatype Entry = Entry(meta: ObjectMeta, data: seq<byte>, ref: bool)

  /** One lock domain. `ring` lists the keys front first; `atomicBytes` mirrors `curBytes` for
      readers that take no lock. */
  datatype Shard = Shard(
    maxBytes: int,
    curBytes: int,
    atomicBytes: int,
    items: map<string, Entry>,
    ring: seq<string>)

  const EMPTY_ITEMS: map<string, Entry> := map[]

  function SlotOf(k: string, e: Entry): Slot {
    Slot(k, |e.data|, e.ref)
  }

  /** The ring with what the sweep looks at. */
  function View(ring: seq<string>, items: map<string, Entry>): (v: seq<Slot>)
    requires forall i :: 0 <= i < |ring| ==> ring[i] in items
    ensures |v| == |ring|
    ensures forall i :: 0 <= i < |ring| ==> v[i] == SlotOf(ring[i], items[ring[i]])
  {
    seq(|ring|, i requires 0 <= i < |ring| => SlotOf(ring[i], items[ring[i]]))
  }

  /** Ring and map hold the same keys, each once. */
  ghost predicate Linked(ring: seq<string>, items: map<string, Entry>) {
    && Distinct(ring)
    && (forall i :: 0 <= i < |ring| ==> ring[i] in items)
    && (forall k :: k in items ==> k in ring)
  }

  ghost predicate ValidEntry(k: string, e: Entry) {
    e.meta.key == k && e.meta.size == |e.data|
  }

  /** The byte count is the sum of the entries' sizes. */
  ghost predicate Accounted(s: Shard) {
    Linked(s.ring, s.items) && s.curBytes == Size(View(s.ring, s.items))
  }

  /** What holds of a shard whenever its lock is free. */
  ghost predicate ValidShard(s: Shard) {
    && Accounted(s)
    && (forall k :: k in s.items ==> ValidEntry(k, s.items[k]))
    && s.atomicBytes == s.curBytes
    && (s.curBytes <= s.maxBytes || s.ring == [])
  }

  /** Every entry of `a` is an entry of `b` with the same metadata and body. */
  ghost predicate KeepsBodies(a: map<string, Entry>, b: map<string, Entry>) {
    forall k :: k in a ==> k in b && a[k].meta == b[k].meta && a[k].data == b[k].data
  }

  // ----- List operations seen through the view -----

  lemma {:induction false} ViewWithout(ring: seq<string>, items: map<string, Entry>, k: string)
    requires Distinct(ring) && k in ring
    requires forall i :: 0 <= i < |ring| ==> ring[i] in items
    ensures forall i :: 0 <= i < |Without(ring, k)| ==> Without(ring, k)[i] in items - {k}
    ensures Size(View(Without(ring, k), items - {k})) == Size(View(ring, items)) - |items[k].data|
  {
    hide SlotOf, View;
    var rest, tail := Without(ring, k), ring[1..];
    assert View(ring, items)[1..] == View(tail, items);
    SlotSize(ring[0], items[ring[0]]);
    if ring[0] == k {
      assert k !in tail;
      assert rest == tail;
      assert View(rest, items - {k}) == View(tail, items);
    } else {
      ViewWithout(tail, items, k);
      var rest' := Without(tail, k);
      assert rest == [ring[0]] + rest' && rest[1..] == rest';
      assert View(rest, items - {k})[1..] == View(rest', items - {k});
    }
  }

  lemma SlotSize(k: string, e: Entry)
    ensures SlotOf(k, e) == Slot(k, |e.data|, e.ref)
  {
  }

  /** Pushing a new key to the front. */
  lemma ViewPush(ring: seq<string>, items: map<string, Entry>, k: string, e: Entry)
    requires Linked(ring, items) && k !in items
    ensures Linked([k] + ring, items[k := e])
    ensures View([k] + ring, items[k := e]) == [SlotOf(k, e)] + View(ring, items)
  {
  }

  /** Evicting the back. */
  lemma ViewEvict(ring: seq<string>, items: map<string, Entry>)
    requires Linked(ring, items) && ring != []
    ensures var k := ring[|ring| - 1];
            Linked(ring[..|ring| - 1], items - {k}) &&
            View(ring[..|ring| - 1], items - {k}) == View(ring, items)[..|ring| - 1]
  {
    var k, front := ring[|ring| - 1], ring[..|ring| - 1];
    assert ring == front + [k];
    assert k !in front;
  }

  /** Giving the back a second chance. */
  lemma ViewSecondChance(ring: seq<string>, items: map<string, Entry>)
    requires Linked(ring, items) && ring != []
    ensures var k := ring[|ring| - 1];
            var ring', items' := [k] + ring[..|ring| - 1], items[k := items[k].(ref := false)];
            Linked(ring', items') &&
            View(ring', items') == [View(ring, items)[|ring| - 1].(ref := false)] + View(ring, items)[..|ring| - 1]
  {
    hide View;
    var k, front := ring[|ring| - 1], ring[..|ring| - 1];
    var items' := items[k := items[k].(ref := false)];
    assert ring == front + [k];
    assert k !in front;
    assert View(front, items') == View(ring, items)[..|front|];
    ViewPush(front, items - {k}, k, items'[k]);
    assert items' == (items - {k})[k := items'[k]];
    assert View(front, items - {k}) == View(front, items');
  }

  /** The shard's ring as the sweep of a commit of `key` starts on it: without the old copy. */
  ghost function Others(s: Shard, key: string): seq<Slot>
    requires Linked(s.ring, s.items)
  {
    View(Without(s.ring, key), s.items - {key})
  }

  /** The ring after a commit: the new key in front of what the sweep keeps of the others. */
  ghost function AfterCommit(s: Shard, key: string, size: nat): seq<Slot>
    requires Linked(s.ring, s.items)
  {
    [Slot(key, size, false)] + Sweep(Others(s, key), s.maxBytes - size)
  }

  /** Unlinks a key if it is present; the mirror is left for the caller. */
  method Unlink(s: Shard, key: string) returns (r: Shard)
    requires Accounted(s)
    ensures Accounted(r) && r.maxBytes == s.maxBytes && r.atomicBytes == s.atomicBytes
    ensures r.items == s.items - {key} && r.ring == Without(s.ring, key)
    ensures r.curBytes <= s.curBytes
    ensures key !in s.items ==> r == s
  {
    if key in s.items {
      ViewWithout(s.ring, s.items, key);
      WithoutDistinct(s.ring, key);
      r := s.(curBytes := s.curBytes - |s.items[key].data|,
              ring := Without(s.ring, key),
              items := s.items - {key});
    } else {
      r := s;
    }
  }

  /** One look at the back of the ring. */
  method Consult(s: Shard) returns (r: Shard)
    requires Accounted(s) && s.ring != []
    ensures Accounted(r) && r.maxBytes == s.maxBytes
    ensures View(r.ring, r.items) == Step(View(s.ring, s.items))
    ensures KeepsBodies(r.items, s.items)
  {
    hide Distinct, Size, KeepsBodies;
    var back := s.ring[|s.ring| - 1];
    StepProgress(View(s.ring, s.items));
    KeepsTouched(s.items, back);
    if s.items[back].ref {
      ViewSecondChance(s.ring, s.items);
      r := s.(items := s.items[back := s.items[back].(ref := false)],
              ring := [back] + s.ring[..|s.ring| - 1]);
    } else {
      ViewEvict(s.ring, s.items);
      r := s.(curBytes := s.curBytes - |s.items[back].data|,
              items := s.items - {back},
              ring := s.ring[..|s.ring| - 1]);
    }
  }

  /** The second-chance loop: consult the back until the survivors take at most `room` bytes. */
  method Evict(s: Shard, room: nat) returns (r: Shard)
    requires Accounted(s)
    ensures Accounted(r) && r.maxBytes == s.maxBytes && r.curBytes <= room
    ensures View(r.ring, r.items) == Sweep(View(s.ring, s.items), room)
    ensures KeepsBodies(r.items, s.items)
  {
    r := s;
    ghost var v := View(s.ring, s.items);
    while r.curBytes > room
      invariant Accounted(r) && r.maxBytes == s.maxBytes && v == View(r.ring, r.items)
      invariant Sweep(v, room) == Sweep(View(s.ring, s.items), room)
      invariant KeepsBodies(r.items, s.items)
      decreases |v| + Refs(v)
    {
      StepProgress(v);
      r := Consult(r);
      v := Step(v);
    }
  }

  /** The three steps of a commit, put together. */
  lemma CommitSteps(s: Shard, cleared: Shard, swept: Shard, r: Shard, e: Entry)
    requires ValidShard(s) && Accounted(r) && e.meta.size == |e.data|
    requires cleared.items == s.items - {e.meta.key} && KeepsBodies(swept.items, cleared.items)
    requires swept.maxBytes == s.maxBytes && swept.curBytes <= s.maxBytes - |e.data|
    requires r.items == swept.items[e.meta.key := e]
    requires r.maxBytes == swept.maxBytes && r.curBytes == swept.curBytes + |e.data| == r.atomicBytes
    ensures ValidShard(r) && KeepsBodies(r.items - {e.meta.key}, s.items)
  {
    hide Accounted;
  }

  /** Installs an object into its shard: replace, sweep, push to the front. */
  method CommitShard(s: Shard, meta: ObjectMeta, data: seq<byte>) returns (stored: bool, r: Shard)
    requires ValidShard(s)
    ensures ValidShard(r) && r.maxBytes == s.maxBytes
    ensures stored <==> |data| <= s.maxBytes
    ensures !stored ==> r == s
    ensures stored ==> meta.key in r.items && r.items[meta.key] == Entry(meta.(size := |data|), data, false)
    ensures KeepsBodies(r.items - {meta.key}, s.items)
    ensures stored ==> View(r.ring, r.items) == AfterCommit(s, meta.key, |data|)
  {
    hide Sweep, Size, KeepsBodies, Distinct, SlotOf;
    var size := |data|;
    if size > s.maxBytes {
      KeepsSelf(s.items, meta.key);
      return false, s;
    }
    var key := meta.key;
    var cleared := Unlink(s, key);
    assert View(cleared.ring, cleared.items) == Others(s, key);
    var room := s.maxBytes - size;
    var swept := Evict(cleared, room);
    var e := Entry(meta.(size := size), data, false);
    KeepsKeys(swept.items, cleared.items);
    r := Push(swept, key, e);
    CommitSteps(s, cleared, swept, r, e);
    SlotSize(key, e);
    assert View(r.ring, r.items) == AfterCommit(s, key, size);
    stored := true;
  }

  lemma KeepsTouched(items: map<string, Entry>, k: string)
    requires k in items
    ensures KeepsBodies(items[k := items[k].(ref := false)], items) && KeepsBodies(items - {k}, items)
  {
  }

  lemma KeepsSelf(items: map<string, Entry>, k: string)
    ensures KeepsBodies(items - {k}, items)
  {
  }

  lemma KeepsKeys(a: map<string, Entry>, b: map<string, Entry>)
    requires KeepsBodies(a, b)
    ensures forall k :: k in a ==> k in b
  {
  }

  /** Links a new entry at the front and refreshes the mirror. */
  method Push(s: Shard, key: string, e: Entry) returns (r: Shard)
    requires Accounted(s) && key !in s.items
    ensures Accounted(r)
    ensures r == Shard(s.maxBytes, s.curBytes + |e.data|, s.curBytes + |e.data|, s.items[key := e], [key] + s.ring)
    ensures View(r.ring, r.items) == [SlotOf(key, e)] + View(s.ring, s.items)
  {
    ViewPush(s.ring, s.items, key, e);
    SizeAppend([SlotOf(key, e)], View(s.ring, s.items));
    Single(SlotOf(key, e));
    var curBytes := s.curBytes + |e.data|;
    r := Shard(s.maxBytes, curBytes, curBytes, s.items[key := e], [key] + s.ring);
  }

  method DeleteShard(s: Shard, key: string) returns (r: Shard)
    requires ValidShard(s)
    ensures ValidShard(r) && r.maxBytes == s.maxBytes
    ensures r.items == s.items - {key} && r.ring == Without(s.ring, key)
  {
    hide Distinct;
    r := Unlink(s, key);
    r := r.(atomicBytes := r.curBytes);
  }

  /** A hit: sets the entry's ref bit and nothing else, so the ring is untouched. */
  function Touched(s: Shard, key: string): (r: Shard)
    requires key in s.items
    ensures ValidShard(s) ==> ValidShard(r)
  {
    TouchView(s.ring, s.items, key);
    s.(items := s.items[key := s.items[key].(ref := true)])
  }

  lemma {:induction false} TouchView(ring: seq<string>, items: map<string, Entry>, key: string)
    requires key in items
    ensures (forall i :: 0 <= i < |ring| ==> ring[i] in items) ==>
      Size(View(ring, items[key := items[key].(ref := true)])) == Size(View(ring, items))
  {
    var items' := items[key := items[key].(ref := true)];
    if ring != [] && forall i :: 0 <= i < |ring| ==> ring[i] in items {
      TouchView(ring[1..], items, key);
      assert View(ring, items)[1..] == View(ring[1..], items);
      assert View(ring, items')[1..] == View(ring[1..], items');
    }
  }

  function CurBytes(shards: seq<Shard>): (r: seq<int>)
    ensures |r| == |shards| && forall i :: 0 <= i < |r| ==> r[i] == shards[i].curBytes
  {
    seq(|shards|, i requires 0 <= i < |shards| => shards[i].curBytes)
  }

  lemma ShardBytes(s: Shard)
    requires ValidShard(s)
    ensures 0 <= s.curBytes && (s.curBytes <= s.maxBytes || s.curBytes == 0)
  {
  }

  lemma EmptyShard(maxBytes: int)
    ensures ValidShard(Shard(maxBytes, 0, 0, EMPTY_ITEMS, []))
  {
  }

  class RamTier {
    const maxBytes: int
    /** The 32-bit FNV-1a hash that routes a key to its shard. */
    const hash: string -> nat
    var shards: seq<Shard>

    function Home(key: string): int {
      Shards.ShardIndex(hash(key), Shards.ShardCount(maxBytes))
    }

    ghost predicate Valid()
      reads this
    {
      && |shards| == Shards.ShardCount(maxBytes)
      && (forall i :: 0 <= i < |shards| ==> ValidShard(shards[i]))
      && (forall i :: 0 <= i < |shards| ==> shards[i].maxBytes == Shards.Cap(maxBytes, |shards|, i))
      && (forall i, k :: 0 <= i < |shards| && k in shards[i].items ==> Home(k) == i)
    }

    /** The object a hit on `key` would return. */
    ghost function Lookup(key: string): Option<Object>
      requires Valid()
      reads this
    {
      var items := shards[Home(key)].items;
      if key in items then Some(Object(items[key].meta, items[key].data)) else None
    }

    constructor (maxBytes: int, hash: string -> nat)
      ensures Valid() && this.maxBytes == maxBytes && this.hash == hash
      ensures forall k :: Lookup(k) == None
    {
      this.maxBytes := maxBytes;
      this.hash := hash;
      var n := Shards.ShardCount(maxBytes);
      var caps := Shards.ShardCaps(maxBytes, n);
      var all := caps[..];
      shards := seq(n, i requires 0 <= i < n => Shard(all[i], 0, 0, EMPTY_ITEMS, []));
    }

    /** Replaces shard `i`, which is all a critical section of its lock can change. */
    method Store(i: int, s: Shard)
      requires Valid() && 0 <= i < |shards|
      requires ValidShard(s) && s.maxBytes == shards[i].maxBytes
      requires forall k :: k in s.items ==> Home(k) == i
      modifies this`shards
      ensures Valid() && shards == old(shards)[i := s]
    {
      hide ValidShard;
      shards := shards[i := s];
    }

    method Get(key: string) returns (r: Option<Object>)
      requires Valid()
      modifies this`shards
      ensures Valid() && r == old(Lookup(key))
      ensures forall k :: Lookup(k) == old(Lookup(k))
      ensures shards == if r == None then old(shards) else old(shards[Home(key) := Touched(shards[Home(key)], key)])
    {
      hide ValidShard;
      var i := Home(key);
      var s := shards[i];
      if key !in s.items {
        return None;
      }
      r := Some(Object(s.items[key].meta, s.items[key].data));
      Store(i, Touched(s, key));
    }

    /** Installs an object into the shard owning its key. */
    method Commit(meta: ObjectMeta, data: seq<byte>) returns (stored: bool)
      requires Valid()
      modifies this`shards
      ensures Valid()
      ensures stored <==> |data| <= Shards.Cap(maxBytes, Shards.ShardCount(maxBytes), Home(meta.key))
      ensures !stored ==> shards == old(shards)
      ensures stored ==> Lookup(meta.key) == Some(Object(meta.(size := |data|), data))
      ensures forall k :: k != meta.key ==> Lookup(k) == None || Lookup(k) == old(Lookup(k))
      ensures stored ==>
                var i, was := Home(meta.key), old(shards);
                shards == was[i := shards[i]]
                && View(shards[i].ring, shards[i].items) == AfterCommit(was[i], meta.key, |data|)
    {
      hide ValidShard, AfterCommit, View;
      var i := Home(meta.key);
      var s;
      stored, s := CommitShard(shards[i], meta, data);
      Store(i, s);
    }

    method Delete(key: string)
      requires Valid()
      modifies this`shards
      ensures Valid() && Lookup(key) == None
      ensures forall k :: k != key ==> Lookup(k) == old(Lookup(k))
    {
      hide ValidShard;
      var i := Home(key);
      var s := DeleteShard(shards[i], key);
      Store(i, s);
    }

    /** Drops every committed object, shard by shard. */
    method Reset()
      requires Valid()
      modifies this`shards
      ensures Valid() && forall k :: Lookup(k) == None
    {
      hide ValidShard, Shards.Cap;
      ghost var n := |shards|;
      for i := 0 to |shards|
        invariant Valid() && |shards| == n
        invariant forall j :: 0 <= j < i ==> shards[j].items == EMPTY_ITEMS
      {
        EmptyShard(shards[i].maxBytes);
        Store(i, Shard(shards[i].maxBytes, 0, 0, EMPTY_ITEMS, []));
      }
    }

    /** Sums the lock-free mirrors: with no lock held this is the bytes really cached, and never
        more than a non-negative budget. */
    method Bytes() returns (n: int)
      requires Valid()
      ensures n == Shards.Sum(CurBytes(shards))
      ensures 0 <= n <= (if maxBytes > 0 then maxBytes else 0)
    {
      n := 0;
      for i := 0 to |shards|
        invariant n == Shards.Sum(CurBytes(shards)[..i])
      {
        assert CurBytes(shards)[..i + 1] == CurBytes(shards)[..i] + [shards[i].curBytes];
        Shards.SumAppend(CurBytes(shards)[..i], [shards[i].curBytes]);
        assert Shards.Sum([shards[i].curBytes]) == shards[i].curBytes;
        n := n + shards[i].atomicBytes;
      }
      assert CurBytes(shards)[..|shards|] == CurBytes(shards);
      WithinBudget();
    }

    /** Every reachable state keeps the tier within its budget: the shard caps sum to it. */
    lemma WithinBudget()
      requires Valid()
      ensures 0 <= Shards.Sum(CurBytes(shards)) <= (if maxBytes > 0 then maxBytes else 0)
    {
      hide Shards.Cap;
      forall i | 0 <= i < |shards|
        ensures 0 <= CurBytes(shards)[i]
        ensures CurBytes(shards)[i] <= Shards.Cap(maxBytes, |shards|, i) || CurBytes(shards)[i] == 0
      {
        ShardBytes(shards[i]);
      }
      Shards.SumWithinBudget(maxBytes, CurBytes(shards));
    }
  }
}
