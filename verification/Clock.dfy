/** The CLOCK / second-chance sweep of the RAM tier as a function on ring slots, and the closed
    form it computes (internal/cache/ram.go, commit). */
module Clock {

  /** One ring node with what the sweep looks at; index 0 is the front of the ring. */
  datatype Slot = Slot(key: string, size: nat, ref: bool)

  function Size(r: seq<Slot>): nat {
    if r == [] then 0 else r[0].size + Size(r[1..])
  }

  /** How many ref bits are set. */
  function Refs(r: seq<Slot>): nat {
    if r == [] then 0 else (if r[0].ref then 1 else 0) + Refs(r[1..])
  }

  /** The keys on a ring, with multiplicity. */
  ghost function Bag(r: seq<Slot>): multiset<string> {
    if r == [] then multiset{} else multiset{r[0].key} + Bag(r[1..])
  }

  lemma {:induction false} SizeAppend(a: seq<Slot>, b: seq<Slot>)
    ensures Size(a + b) == Size(a) + Size(b)
    ensures Refs(a + b) == Refs(a) + Refs(b)
    ensures Bag(a + b) == Bag(a) + Bag(b)
  {
    if a == [] {
      assert a + b == b;
    } else {
      assert (a + b)[1..] == a[1..] + b;
      SizeAppend(a[1..], b);
    }
  }

  lemma Single(s: Slot)
    ensures Size([s]) == s.size && Refs([s]) == (if s.ref then 1 else 0) && Bag([s]) == multiset{s.key}
  {
    assert [s][1..] == [];
  }

  lemma SizeLast(r: seq<Slot>)
    requires r != []
    ensures Size(r) == Size(r[..|r| - 1]) + r[|r| - 1].size
    ensures Refs(r) == Refs(r[..|r| - 1]) + (if r[|r| - 1].ref then 1 else 0)
    ensures Bag(r) == Bag(r[..|r| - 1]) + multiset{r[|r| - 1].key}
  {
    var front, last := r[..|r| - 1], [r[|r| - 1]];
    assert r == front + last;
    SizeAppend(front, last);
    Single(last[0]);
  }

  /** One look at the back of the ring: a referenced node loses its bit and moves to the front, an
      unreferenced node is evicted. */
  function Step(r: seq<Slot>): seq<Slot>
    requires r != []
  {
    var b := r[|r| - 1];
    if b.ref then [b.(ref := false)] + r[..|r| - 1] else r[..|r| - 1]
  }

  lemma StepProgress(r: seq<Slot>)
    requires r != []
    ensures |Step(r)| + Refs(Step(r)) < |r| + Refs(r)
    ensures Size(Step(r)) == Size(r) - (if r[|r| - 1].ref then 0 else r[|r| - 1].size)
  {
    SizeLast(r);
    var b := r[|r| - 1];
    if b.ref {
      SizeAppend([b.(ref := false)], r[..|r| - 1]);
    }
  }

  /** The sweep: look at the back until the survivors take at most `room` bytes. */
  function Sweep(r: seq<Slot>, room: int): seq<Slot>
    decreases |r| + Refs(r)
  {
    if r == [] || Size(r) <= room then r
    else StepProgress(r); Sweep(Step(r), room)
  }

  // ----- The closed form -----

  function Referenced(r: seq<Slot>): seq<Slot> {
    if r == [] then []
    else if r[|r| - 1].ref then Referenced(r[..|r| - 1]) + [r[|r| - 1]]
    else Referenced(r[..|r| - 1])
  }

  function Unreferenced(r: seq<Slot>): seq<Slot> {
    if r == [] then []
    else if r[|r| - 1].ref then Unreferenced(r[..|r| - 1])
    else Unreferenced(r[..|r| - 1]) + [r[|r| - 1]]
  }

  /** Retention order: every referenced slot before every unreferenced one, ring order within each. */
  function Priority(r: seq<Slot>): seq<Slot> {
    Referenced(r) + Unreferenced(r)
  }

  /** The length of the longest prefix of `p` that fits in `room`, i.e. `p` loses the shortest
      suffix whose loss makes the rest fit. */
  function Fit(p: seq<Slot>, room: int): (k: nat)
    ensures k <= |p|
    ensures k > 0 ==> Size(p[..k]) <= room
    ensures k < |p| ==> Size(p[..k + 1]) > room
  {
    if p == [] then 0
    else if Size(p) <= room then assert p[..|p|] == p; |p|
    else
      var q := p[..|p| - 1];
      var k := Fit(q, room);
      assert p[..k] == q[..k];
      assert k + 1 == |p| ==> p[..k + 1] == p;
      assert k + 1 < |p| ==> p[..k + 1] == q[..k + 1];
      k
  }

  function Clear(r: seq<Slot>): (c: seq<Slot>)
    ensures |c| == |r| && forall i :: 0 <= i < |r| ==> c[i] == r[i].(ref := false)
  {
    seq(|r|, i requires 0 <= i < |r| => r[i].(ref := false))
  }

  lemma {:induction false} ClearSize(r: seq<Slot>)
    ensures Size(Clear(r)) == Size(r) && Refs(Clear(r)) == 0 && Bag(Clear(r)) == Bag(r)
  {
    if r != [] {
      assert Clear(r)[1..] == Clear(r[1..]);
      ClearSize(r[1..]);
    }
  }

  /** Splitting a ring by its ref bits loses nothing. */
  lemma {:induction false} Partition(r: seq<Slot>)
    ensures Size(Referenced(r)) + Size(Unreferenced(r)) == Size(r)
    ensures Bag(Referenced(r)) + Bag(Unreferenced(r)) == Bag(r)
  {
    if r != [] {
      var front, b := r[..|r| - 1], r[|r| - 1];
      Partition(front);
      SizeLast(r);
      Single(b);
      if b.ref {
        SizeAppend(Referenced(front), [b]);
      } else {
        SizeAppend(Unreferenced(front), [b]);
      }
    }
  }

  /** A ring of clear bits only loses its back. */
  lemma {:induction false} SweepClear(r: seq<Slot>, room: int)
    ensures Sweep(Clear(r), room) == Clear(r[..Fit(r, room)])
  {
    ClearSize(r);
    if r == [] || Size(r) <= room {
      assert r[..|r|] == r;
    } else {
      var front := r[..|r| - 1];
      assert Step(Clear(r)) == Clear(front);
      SweepClear(front, room);
      assert r[..Fit(r, room)] == front[..Fit(front, room)];
    }
  }

  /** The retention order of a sweep that has passed `again` (all referenced) but not `rest`. */
  function LapPriority(rest: seq<Slot>, again: seq<Slot>): seq<Slot> {
    Referenced(rest) + again + Unreferenced(rest)
  }

  lemma LapMeasures(rest: seq<Slot>, again: seq<Slot>)
    ensures Size(LapPriority(rest, again)) == Size(Clear(again) + rest)
    ensures Bag(LapPriority(rest, again)) == Bag(Clear(again) + rest)
  {
    SizeAppend(Clear(again), rest);
    ClearSize(again);
    Partition(rest);
    SizeAppend(Referenced(rest) + again, Unreferenced(rest));
    SizeAppend(Referenced(rest), again);
    SwapMiddle(Bag(Referenced(rest)), Bag(again), Bag(Unreferenced(rest)));
  }

  lemma SwapMiddle(a: multiset<string>, b: multiset<string>, c: multiset<string>)
    ensures a + b + c == b + (a + c)
  {
  }

  /** The survivors of a sweep, from any point of its first lap on. */
  lemma {:induction false} LapSurvivors(rest: seq<Slot>, again: seq<Slot>, room: int)
    ensures var p := LapPriority(rest, again);
            Bag(Sweep(Clear(again) + rest, room)) == Bag(p[..Fit(p, room)])
    decreases |rest|
  {
    var p := LapPriority(rest, again);
    var ring := Clear(again) + rest;
    LapMeasures(rest, again);
    if Size(ring) <= room || ring == [] {
      assert p[..|p|] == p;
    } else if rest == [] {
      assert ring == Clear(again) && p == again;
      SweepClear(again, room);
      ClearSize(again[..Fit(again, room)]);
    } else {
      var front, b := rest[..|rest| - 1], rest[|rest| - 1];
      LapStep(rest, again);
      LapPriorityStep(rest, again);
      if b.ref {
        LapSurvivors(front, [b] + again, room);
      } else {
        LapSurvivors(front, again, room);
        var q := LapPriority(front, again);
        assert p[..|p| - 1] == q;
        assert p[..Fit(p, room)] == q[..Fit(q, room)];
      }
    }
  }

  /** One look at the back, in terms of the lap. */
  lemma LapStep(rest: seq<Slot>, again: seq<Slot>)
    requires rest != []
    ensures var front, b := rest[..|rest| - 1], rest[|rest| - 1];
            Step(Clear(again) + rest) == if b.ref then Clear([b] + again) + front else Clear(again) + front
  {
    var front, b := rest[..|rest| - 1], rest[|rest| - 1];
    var ring := Clear(again) + rest;
    assert ring[|ring| - 1] == b;
    assert ring[..|ring| - 1] == Clear(again) + front;
    if b.ref {
      var c := [b.(ref := false)];
      assert Clear([b] + again) == c + Clear(again);
      assert c + (Clear(again) + front) == c + Clear(again) + front;
    }
  }

  lemma LapPriorityStep(rest: seq<Slot>, again: seq<Slot>)
    requires rest != []
    ensures var front, b := rest[..|rest| - 1], rest[|rest| - 1];
            LapPriority(rest, again) ==
            if b.ref then LapPriority(front, [b] + again) else LapPriority(front, again) + [b]
  {
    var front, b := rest[..|rest| - 1], rest[|rest| - 1];
    var f, u := Referenced(front), Unreferenced(front);
    if b.ref {
      assert f + [b] + again == f + ([b] + again);
    } else {
      assert f + again + (u + [b]) == f + again + u + [b];
    }
  }

  /** Where a sweep leaves the surviving nodes. */
  lemma {:induction false} LapShape(rest: seq<Slot>, again: seq<Slot>, room: int) returns (m: nat, k: nat)
    ensures SweptTo(rest, again, Sweep(Clear(again) + rest, room), m, k)
    decreases |rest|
  {
    var ring := Clear(again) + rest;
    if Size(ring) <= room || ring == [] {
      m, k := |rest|, |again|;
      NothingSwept(rest, again);
    } else if rest == [] {
      assert ring == Clear(again);
      SweepClear(again, room);
      m, k := 0, Fit(again, room);
      OnlySecondChances(again, k);
    } else {
      var front, b := rest[..|rest| - 1], rest[|rest| - 1];
      LapStep(rest, again);
      if b.ref {
        m, k := LapShape(front, [b] + again, room);
        LapExtendRef(rest, again, Sweep(ring, room), m, k);
      } else {
        m, k := LapShape(front, again, room);
        LapExtendUnref(rest, again, Sweep(ring, room), m, k);
      }
    }
  }

  /** The shape of the ring when a sweep stops: second-chance nodes at the front with their bits
      cleared and in ring order, then the nodes not reached, untouched. Only a sweep that reached
      every node (`m == 0`) shortens the second-chance part. */
  ghost predicate SweptTo(rest: seq<Slot>, again: seq<Slot>, out: seq<Slot>, m: nat, k: nat) {
    m <= |rest| &&
    var passed := Referenced(rest[m..]) + again;
    && k <= |passed|
    && (m > 0 ==> k == |passed|)
    && out == Clear(passed[..k]) + rest[..m]
  }

  lemma NothingSwept(rest: seq<Slot>, again: seq<Slot>)
    ensures SweptTo(rest, again, Clear(again) + rest, |rest|, |again|)
  {
    assert rest[|rest|..] == [] && rest[..|rest|] == rest;
    assert [] + again == again;
  }

  lemma OnlySecondChances(again: seq<Slot>, k: nat)
    requires k <= |again|
    ensures SweptTo([], again, Clear(again[..k]), 0, k)
  {
    var none: seq<Slot> := [];
    assert none[0..] == none && none[..0] == none;
    assert Referenced(none) + again == again;
    assert Clear(again[..k]) + none == Clear(again[..k]);
  }

  lemma ReferencedConcat(a: seq<Slot>, b: seq<Slot>)
    ensures Referenced(a + b) == Referenced(a) + Referenced(b)
    decreases |b|
  {
    if b == [] {
      assert a + b == a;
    } else {
      var front := b[..|b| - 1];
      assert (a + b)[..|a + b| - 1] == a + front;
      ReferencedConcat(a, front);
    }
  }

  lemma LapExtendRef(rest: seq<Slot>, again: seq<Slot>, out: seq<Slot>, m: nat, k: nat)
    requires rest != [] && rest[|rest| - 1].ref
    requires SweptTo(rest[..|rest| - 1], [rest[|rest| - 1]] + again, out, m, k)
    ensures SweptTo(rest, again, out, m, k)
  {
    var front, b := rest[..|rest| - 1], rest[|rest| - 1];
    assert rest[m..] == front[m..] + [b];
    assert Referenced([b]) == Referenced([]) + [b];
    ReferencedConcat(front[m..], [b]);
    assert Referenced(rest[m..]) + again == Referenced(front[m..]) + ([b] + again);
    assert rest[..m] == front[..m];
  }

  lemma LapExtendUnref(rest: seq<Slot>, again: seq<Slot>, out: seq<Slot>, m: nat, k: nat)
    requires rest != [] && !rest[|rest| - 1].ref
    requires SweptTo(rest[..|rest| - 1], again, out, m, k)
    ensures SweptTo(rest, again, out, m, k)
  {
    var front, b := rest[..|rest| - 1], rest[|rest| - 1];
    assert rest[m..] == front[m..] + [b];
    assert Referenced([b]) == Referenced([]);
    ReferencedConcat(front[m..], [b]);
    assert Referenced(rest[m..]) == Referenced(front[m..]);
    assert rest[..m] == front[..m];
  }

  /** The sweep keeps exactly the longest prefix of the retention order that fits, and leaves the
      ring in the shape described by `SweptTo`. */
  lemma SweepClosedForm(r: seq<Slot>, room: int)
    ensures Bag(Sweep(r, room)) == Bag(Priority(r)[..Fit(Priority(r), room)])
    ensures exists m, k :: SweptTo(r, [], Sweep(r, room), m, k)
  {
    assert Clear([]) + r == r;
    assert LapPriority(r, []) == Priority(r);
    LapSurvivors(r, [], room);
    var m, k := LapShape(r, [], room);
  }

  lemma {:induction false} InBag(r: seq<Slot>, k: string)
    ensures k in Bag(r) <==> exists i :: 0 <= i < |r| && r[i].key == k
  {
    if r != [] {
      InBag(r[1..], k);
      if i :| 0 <= i < |r| && r[i].key == k && i > 0 {
        assert r[1..][i - 1].key == k;
      }
    }
  }

  lemma {:induction false} ReferencedMembers(r: seq<Slot>, s: Slot)
    ensures s in Referenced(r) <==> s in r && s.ref
  {
    if r != [] {
      ReferencedMembers(r[..|r| - 1], s);
      assert r == r[..|r| - 1] + [r[|r| - 1]];
    }
  }

  /** A referenced entry is evicted only when every unreferenced one is. */
  lemma SecondChance(r: seq<Slot>, room: int, x: Slot, y: Slot)
    requires forall i, j :: 0 <= i < j < |r| ==> r[i].key != r[j].key
    requires x in r && x.ref && y in r && !y.ref
    requires x.key !in Bag(Sweep(r, room))
    ensures y.key !in Bag(Sweep(r, room))
  {
    var p, k := Priority(r), Fit(Priority(r), room);
    ReferencedMembers(r, x);
    var i :| 0 <= i < |Referenced(r)| && Referenced(r)[i] == x;
    assert i < k ==> p[..k][i].key == x.key;
    SweepClosedForm(r, room);
    InBag(p[..k], x.key);
    InBag(p[..k], y.key);
    forall j | 0 <= j < k
      ensures p[..k][j].key != y.key
    {
      assert p[j] == Referenced(r)[j];
      ReferencedMembers(r, p[j]);
    }
  }
}
