/** Recency lists: sequences of pairwise distinct keys, front first. */
module Rings {

  ghost predicate Distinct<T>(xs: seq<T>) {
    forall i, j :: 0 <= i < j < |xs| ==> xs[i] != xs[j]
  }

  /** The list without the node holding `k`. */
  function Without(ring: seq<string>, k: string): (r: seq<string>)
    ensures forall x :: x in r <==> x in ring && x != k
    ensures forall i :: 0 <= i < |r| ==> r[i] in ring && r[i] != k
    ensures |r| <= |ring|
    ensures k in ring ==> |r| < |ring|
    ensures k !in ring ==> r == ring
  {
    if ring == [] then []
    else if ring[0] == k then Without(ring[1..], k)
    else [ring[0]] + Without(ring[1..], k)
  }

  lemma {:induction false} WithoutDistinct(ring: seq<string>, k: string)
    requires Distinct(ring)
    ensures Distinct(Without(ring, k))
  {
    if ring != [] {
      WithoutDistinct(ring[1..], k);
      if ring[0] != k {
        assert ring[0] !in ring[1..];
        assert ring[0] !in Without(ring[1..], k);
      }
    }
  }

  /** Distinct keys: dropping the last node is removing its key. */
  lemma {:induction false} WithoutLast(ring: seq<string>)
    requires Distinct(ring) && ring != []
    ensures Without(ring, ring[|ring| - 1]) == ring[..|ring| - 1]
  {
    var n := |ring|;
    if n > 1 {
      assert ring[1..][n - 2] == ring[n - 1];
      WithoutLast(ring[1..]);
      assert ring[..n - 1] == [ring[0]] + ring[1..][..n - 2];
    }
  }

  lemma WithoutTwice(ring: seq<string>, k: string)
    ensures Without([k] + Without(ring, k), k) == Without(ring, k)
  {
    var r := Without(ring, k);
    assert ([k] + r)[1..] == r;
  }
}
