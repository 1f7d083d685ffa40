/** An index file that lists a key twice (internal/cache/disk.go:276-314, 526-537). No snapshot does; read
    back all the same, it can keep the second pass of the load from ending. */
module DiskRepeats {
  import opened Objects
  import opened DiskShard
  import opened Disk
  import opened DiskIndex
  import DiskLoad

  /** Unlinks the front-most element of a key: the one its entry points to. */
  function Unlink(lru: seq<string>, k: string): seq<string> {
    if lru == [] then [] else if lru[0] == k then lru[1..] else [lru[0]] + Unlink(lru[1..], k)
  }

  /** One turn of the second pass: the key at the back is removed, if it still has an entry. */
  function Turn(s: Shard): Shard
    requires s.lru != []
  {
    var k := s.lru[|s.lru| - 1];
    if k in s.items then
      s.(curBytes := s.curBytes - s.items[k].size,
         atomicBytes := s.curBytes - s.items[k].size,
         lru := Unlink(s.lru, k),
         items := s.items - {k},
         dirty := true)
    else s
  }

  predicate Stops(s: Shard) {
    s.curBytes <= s.maxBytes || s.lru == []
  }

  function Turns(s: Shard, n: nat): Shard
    decreases n
  {
    if n == 0 || Stops(s) then s else Turns(Turn(s), n - 1)
  }

  ghost predicate Ends(s: Shard) {
    exists n: nat :: Stops(Turns(s, n))
  }

  // ----- Lists with repeats -----

  predicate Listed(ms: seq<ObjectMeta>, k: string) {
    exists i :: 0 <= i < |ms| && ms[i].key == k
  }

  /** Where the last entry stands whose key is listed before it; -1 if there is none. */
  function LastRepeat(ms: seq<ObjectMeta>): (i: int)
    ensures -1 <= i < |ms|
  {
    if ms == [] then -1
    else if Listed(ms[..|ms| - 1], ms[|ms| - 1].key) then |ms| - 1
    else LastRepeat(ms[..|ms| - 1])
  }

  /** Each entry has the size of its key's blob. */
  ghost predicate Sized(ms: seq<ObjectMeta>) {
    && (forall i :: 0 <= i < |ms| ==> ms[i].size >= 0)
    && (forall i, j :: 0 <= i < j < |ms| && ms[i].key == ms[j].key ==> ms[i].size == ms[j].size)
  }

  lemma {:induction false} NoRepeat(ms: seq<ObjectMeta>)
    ensures LastRepeat(ms) == -1 <==> DistinctKeys(ms)
  {
    if ms != [] {
      var n := |ms| - 1;
      NoRepeat(ms[..n]);
      assert forall i :: 0 <= i < n ==> ms[..n][i] == ms[i];
    }
  }

  // ----- What the first pass loads -----

  lemma {:induction false} Loaded(cap: int, ms: seq<ObjectMeta>)
    ensures var s := FromList(cap, ms);
            && s.curBytes == Bytes(ms) && s.atomicBytes == Bytes(ms)
            && (forall k :: k in s.items <==> Listed(ms, k))
            && (forall k :: k in s.items ==> exists i :: 0 <= i < |ms| && ms[i] == s.items[k] && ms[i].key == k)
  {
    if ms != [] {
      Loaded(cap, ms[1..]);
      var s, t := FromList(cap, ms), FromList(cap, ms[1..]);
      forall k
        ensures k in s.items <==> Listed(ms, k)
      {
        ListedFront(ms, k);
      }
      forall k | k in s.items
        ensures exists i :: 0 <= i < |ms| && ms[i] == s.items[k] && ms[i].key == k
      {
        if k == ms[0].key {
          assert ms[0] == s.items[k];
        } else {
          var i :| 0 <= i < |ms[1..]| && ms[1..][i] == t.items[k] && ms[1..][i].key == k;
          assert ms[i + 1] == s.items[k];
        }
      }
    }
  }

  lemma ListedFront(ms: seq<ObjectMeta>, k: string)
    requires ms != []
    ensures Listed(ms, k) <==> ms[0].key == k || Listed(ms[1..], k)
  {
    assert forall i :: 1 <= i < |ms| ==> ms[i] == ms[1..][i - 1];
    assert forall i :: 0 <= i < |ms[1..]| ==> ms[1..][i] == ms[i + 1];
  }

  /** The back of the list, if its key is listed once, is taken off whole. */
  lemma {:induction false} LoadedButLast(cap: int, ms: seq<ObjectMeta>)
    requires ms != [] && !Listed(ms[..|ms| - 1], ms[|ms| - 1].key)
    ensures var s, t, m := FromList(cap, ms), FromList(cap, ms[..|ms| - 1]), ms[|ms| - 1];
            && Unlink(s.lru, m.key) == t.lru && m.key in s.items && s.items[m.key] == m
            && s.items - {m.key} == t.items && Bytes(ms) == Bytes(ms[..|ms| - 1]) + m.size
  {
    var n := |ms| - 1;
    var m := ms[n];
    if n == 0 {
      assert ms[1..] == [] && ms[..0] == [];
      assert FromList(cap, ms).items - {m.key} == map[];
    } else {
      assert ms[1..][..n - 1] == ms[1..n] == ms[..n][1..] && ms[1..][n - 1] == m;
      ListedFront(ms[..n], m.key);
      LoadedButLast(cap, ms[1..]);
      assert ms[..n][0] == ms[0];
      var s, t := FromList(cap, ms[1..]), FromList(cap, ms[1..n]);
      assert s.items[ms[0].key := ms[0]] - {m.key} == t.items[ms[0].key := ms[0]];
    }
  }

  // ----- The turns -----

  lemma {:induction false} TurnsOnce(s: Shard, n: nat)
    requires !Stops(s)
    ensures Turns(s, n + 1) == Turns(Turn(s), n)
  {
  }

  lemma EndsStep(s: Shard)
    requires !Stops(s)
    ensures Ends(s) <==> Ends(Turn(s))
  {
    hide Turn;
    if Ends(s) {
      var n: nat :| Stops(Turns(s, n));
      assert n > 0;
      TurnsOnce(s, n - 1);
    }
    if Ends(Turn(s)) {
      var n: nat :| Stops(Turns(Turn(s), n));
      TurnsOnce(s, n);
    }
  }

  /** A key at the back without an entry stays there for ever. */
  lemma {:induction false} Stuck(s: Shard, n: nat)
    requires !Stops(s) && s.lru[|s.lru| - 1] !in s.items
    ensures Turns(s, n) == s
  {
    if n > 0 {
      Stuck(s, n - 1);
    }
  }

  lemma {:induction false} UnlinkFront(lru: seq<string>, k: string)
    requires lru != [] && lru[|lru| - 1] == k && k in lru[..|lru| - 1]
    ensures var u := Unlink(lru, k); u != [] && u[|u| - 1] == k
  {
    if lru[0] != k {
      assert lru[1..][..|lru| - 2] == lru[1..|lru| - 1];
      assert lru[..|lru| - 1] == [lru[0]] + lru[1..|lru| - 1];
      UnlinkFront(lru[1..], k);
    }
  }

  /** A repeated key at the back: its entry goes, one element of it stays. */
  lemma RepeatTurn(cap: int, ms: seq<ObjectMeta>, dirty: bool)
    requires Sized(ms) && ms != [] && Listed(ms[..|ms| - 1], ms[|ms| - 1].key)
    ensures var t, m := Turn(FromList(cap, ms).(dirty := dirty)), ms[|ms| - 1];
            && FromList(cap, ms).lru != []
            && t.lru != [] && t.lru[|t.lru| - 1] == m.key && m.key !in t.items
            && t.curBytes == Bytes(ms[..|ms| - 1]) && t.maxBytes == cap
  {
    hide FromList, Bytes, Listed, Sized;
    var n, s := |ms| - 1, FromList(cap, ms);
    var m := ms[n];
    FromListKeys(cap, ms);
    Loaded(cap, ms);
    RepeatEntry(cap, ms);
    UnlinkFront(s.lru, m.key);
    LastBytes(ms);
  }

  lemma RepeatEntry(cap: int, ms: seq<ObjectMeta>)
    requires Sized(ms) && ms != [] && Listed(ms[..|ms| - 1], ms[|ms| - 1].key)
    ensures var s, m := FromList(cap, ms), ms[|ms| - 1];
            && m.key in s.items && s.items[m.key].size == m.size
            && |s.lru| == |ms| && m.key in s.lru[..|ms| - 1]
  {
    hide FromList, Bytes;
    var n, s := |ms| - 1, FromList(cap, ms);
    var m := ms[n];
    FromListKeys(cap, ms);
    Loaded(cap, ms);
    assert Listed(ms, m.key);
    var i :| 0 <= i < |ms| && ms[i] == s.items[m.key] && ms[i].key == m.key;
    assert ms[i].size == m.size;
    var j :| 0 <= j < |ms[..n]| && ms[..n][j].key == m.key;
    assert s.lru[..n][j] == m.key;
  }

  lemma LastBytes(ms: seq<ObjectMeta>)
    requires ms != []
    ensures Bytes(ms) == Bytes(ms[..|ms| - 1]) + ms[|ms| - 1].size
  {
    var n := |ms| - 1;
    assert ms == ms[..n] + [ms[n]] && [ms[n]][1..] == [];
    BytesAppend(ms[..n], [ms[n]]);
  }

  lemma {:induction false} PrefixBytes(ms: seq<ObjectMeta>, i: nat)
    requires i <= |ms| && Sized(ms)
    ensures Bytes(ms[..i]) <= Bytes(ms)
  {
    assert ms == ms[..i] + ms[i..];
    BytesAppend(ms[..i], ms[i..]);
    BytesNonNegative(ms[i..]);
  }

  /** The second pass over one shard's entries ends exactly if no key is listed twice, or the entries in front
      of the last repeat fit the shard's cap. */
  lemma {:induction false} TrimEndsIff(cap: int, ms: seq<ObjectMeta>, dirty: bool)
    requires Sized(ms)
    ensures Ends(FromList(cap, ms).(dirty := dirty)) <==>
              DistinctKeys(ms) || (LastRepeat(ms) >= 0 && Bytes(ms[..LastRepeat(ms)]) <= cap)
    decreases |ms|
  {
    hide Turn, Ends, FromList, DistinctKeys, Bytes;
    NoRepeat(ms);
    var s := FromList(cap, ms).(dirty := dirty);
    FromListKeys(cap, ms);
    Loaded(cap, ms);
    if Stops(s) {
      EndsNow(s);
      if LastRepeat(ms) >= 0 {
        PrefixBytes(ms, LastRepeat(ms));
      }
    } else {
      var n := |ms| - 1;
      EndsStep(s);
      if LastRepeat(ms) == n {
        RepeatTurn(cap, ms, dirty);
        var t := Turn(s);
        if Stops(t) {
          EndsNow(t);
        } else {
          NeverEnds(t);
        }
      } else {
        PlainTurn(cap, ms, dirty);
        SizedButLast(ms);
        TrimEndsIff(cap, ms[..n], true);
        NoRepeat(ms[..n]);
        if LastRepeat(ms) >= 0 {
          assert ms[..n][..LastRepeat(ms)] == ms[..LastRepeat(ms)];
        }
      }
    }
  }

  lemma EndsNow(s: Shard)
    requires Stops(s)
    ensures Ends(s)
  {
    assert Stops(Turns(s, 0));
  }

  lemma NeverEnds(s: Shard)
    requires !Stops(s) && s.lru[|s.lru| - 1] !in s.items
    ensures !Ends(s)
  {
    hide Turns, Stops;
    forall n: nat
      ensures !Stops(Turns(s, n))
    {
      Stuck(s, n);
    }
  }

  lemma SizedButLast(ms: seq<ObjectMeta>)
    requires ms != [] && Sized(ms)
    ensures Sized(ms[..|ms| - 1])
  {
  }

  lemma PlainTurn(cap: int, ms: seq<ObjectMeta>, dirty: bool)
    requires ms != [] && !Listed(ms[..|ms| - 1], ms[|ms| - 1].key)
    ensures FromList(cap, ms).lru != []
    ensures Turn(FromList(cap, ms).(dirty := dirty)) == FromList(cap, ms[..|ms| - 1]).(dirty := true)
  {
    hide FromList, Bytes;
    var n := |ms| - 1;
    FromListKeys(cap, ms);
    FromListKeys(cap, ms[..n]);
    Loaded(cap, ms);
    Loaded(cap, ms[..n]);
    LoadedButLast(cap, ms);
  }

  lemma OneByOne(m: ObjectMeta)
    ensures Bytes([m]) == m.size
  {
    assert [m][1..] == [];
  }

  /** A blob of more than half its shard's cap, listed three times. */
  lemma ThriceLoaded(cap: int, m: ObjectMeta)
    requires 0 <= m.size <= cap < 2 * m.size
    ensures !Ends(FromList(cap, [m, m, m]))
  {
    hide Ends, FromList;
    var ms := [m, m, m];
    assert ms[..2][0].key == m.key;
    assert LastRepeat(ms) == 2;
    assert ms[..2] == [m] + [m];
    BytesAppend([m], [m]);
    OneByOne(m);
    assert !DistinctKeys(ms) by {
      assert ms[0].key == ms[1].key;
    }
    TrimEndsIff(cap, ms, false);
    FromListKeys(cap, ms);
  }

  // ----- From the index file -----

  /** Loading only unlinks, and what it loads the directory backed at first. */
  lemma {:induction false} PassLoads(entries: seq<ObjectMeta>, l: Layout, files: Files)
    requires ValidLayout(l)
    ensures var fs := DiskLoad.FirstPass(entries, l, files).0; forall n :: n in fs ==> n in files && fs[n] == files[n]
    ensures var ms := DiskLoad.FirstPass(entries, l, files).1; forall i :: 0 <= i < |ms| ==> Backed(ms[i], files)
  {
    if entries != [] {
      PassLoads(entries[1..], l, files);
    }
  }

  lemma {:induction false} ShardLoads(ms: seq<ObjectMeta>, l: Layout, j: int, files: Files)
    requires forall i :: 0 <= i < |ms| ==> Backed(ms[i], files)
    ensures forall i :: 0 <= i < |DiskLoad.OfShard(ms, l, j)| ==> Backed(DiskLoad.OfShard(ms, l, j)[i], files)
  {
    hide Backed;
    if ms != [] {
      ShardLoads(ms[1..], l, j, files);
    }
  }

  lemma BackedSized(ms: seq<ObjectMeta>, files: Files)
    requires forall i :: 0 <= i < |ms| ==> Backed(ms[i], files)
    ensures Sized(ms)
  {
  }

  /** The entries of an index file that shard `j` has loaded when the second pass begins. */
  ghost function LoadedBy(entries: seq<ObjectMeta>, l: Layout, files: Files, j: int): seq<ObjectMeta>
    requires ValidLayout(l)
  {
    DiskLoad.OfShard(DiskLoad.FirstPass(entries, l, files).1, l, j)
  }

  /** No key is loaded twice into the shard, or the entries in front of the last repeat fit. */
  ghost predicate RepeatsFit(cap: int, ms: seq<ObjectMeta>) {
    DistinctKeys(ms) || (LastRepeat(ms) >= 0 && Bytes(ms[..LastRepeat(ms)]) <= cap)
  }

  /** For every index file and directory: a tier opens, that is, the second pass ends in every shard, exactly if
      the repeats in what each shard has loaded fit. */
  lemma OpensIff(entries: seq<ObjectMeta>, l: Layout, files: Files, shards: seq<Shard>)
    requires ValidLayout(l) && DiskLoad.Holding(shards, DiskLoad.FirstPass(entries, l, files).1, l)
    ensures (forall j :: 0 <= j < |shards| ==> Ends(shards[j])) <==>
              forall j :: 0 <= j < |shards| ==> RepeatsFit(l.caps[j], LoadedBy(entries, l, files, j))
  {
    hide Ends, RepeatsFit, LoadedBy, FromList, DiskLoad.FirstPass, DiskLoad.OfShard;
    forall j | 0 <= j < |shards|
      ensures Ends(shards[j]) <==> RepeatsFit(l.caps[j], LoadedBy(entries, l, files, j))
    {
      ShardEndsIff(entries, l, files, j);
    }
  }

  lemma ShardEndsIff(entries: seq<ObjectMeta>, l: Layout, files: Files, j: int)
    requires ValidLayout(l) && 0 <= j < |l.caps|
    ensures var ms := DiskLoad.OfShard(DiskLoad.FirstPass(entries, l, files).1, l, j);
            && LoadedBy(entries, l, files, j) == ms
            && (Ends(FromList(l.caps[j], ms)) <==> RepeatsFit(l.caps[j], ms))
  {
    hide Ends, FromList, DiskLoad.FirstPass, DiskLoad.OfShard, Sized, LastRepeat;
    var all := DiskLoad.FirstPass(entries, l, files).1;
    var ms := LoadedBy(entries, l, files, j);
    PassLoads(entries, l, files);
    assert forall i :: 0 <= i < |all| ==> Backed(all[i], files);
    ShardLoads(all, l, j, files);
    BackedSized(ms, files);
    TrimEndsIff(l.caps[j], ms, false);
    FromListKeys(l.caps[j], ms);
  }

  lemma PassNone(l: Layout, files: Files)
    requires ValidLayout(l)
    ensures DiskLoad.FirstPass([], l, files).0 == files && DiskLoad.FirstPass([], l, files).1 == []
  {
  }

  lemma PassFront(entries: seq<ObjectMeta>, l: Layout, files: Files)
    requires ValidLayout(l) && entries != [] && Accepts(entries[0], l.caps[l.home(entries[0].key)], files)
    requires DiskLoad.FirstPass(entries[1..], l, files).0 == files
    ensures DiskLoad.FirstPass(entries, l, files).0 == files
    ensures DiskLoad.FirstPass(entries, l, files).1 == [entries[0]] + DiskLoad.FirstPass(entries[1..], l, files).1
  {
  }

  /** So an index file that lists such a blob three times keeps the tier from opening. */
  lemma ThriceListed(l: Layout, files: Files, m: ObjectMeta)
    requires ValidLayout(l) && Backed(m, files)
    requires var cap := l.caps[l.home(m.key)]; m.size <= cap < 2 * m.size
    ensures var j := l.home(m.key); !Ends(FromList(l.caps[j], LoadedBy([m, m, m], l, files, j)))
  {
    hide Ends, FromList;
    var j := l.home(m.key);
    assert [m, m, m][1..] == [m, m] && [m, m][1..] == [m] && [m][1..] == [];
    PassNone(l, files);
    PassFront([m], l, files);
    PassFront([m, m], l, files);
    PassFront([m, m, m], l, files);
    assert [m] + [] == [m] && [m] + [m] == [m, m] && [m] + [m, m] == [m, m, m];
    assert DiskLoad.OfShard([m], l, j) == [m] + [];
    assert DiskLoad.OfShard([m, m], l, j) == [m] + [m];
    assert DiskLoad.OfShard([m, m, m], l, j) == [m] + [m, m];
    ThriceLoaded(l.caps[j], m);
  }
}
