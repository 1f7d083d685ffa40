/** How a tier's byte budget is split over its independent shards (internal/cache/shard.go). */
module Shards {

  const DEFAULT_SHARDS: int := 64
  const MIN_SHARD_BYTES: int := 0x10_0000

  /** The sum of a list of byte counts. */
  ghost function Sum(xs: seq<int>): int {
    if xs == [] then 0 else xs[0] + Sum(xs[1..])
  }

  lemma {:induction false} SumAppend(xs: seq<int>, ys: seq<int>)
    ensures Sum(xs + ys) == Sum(xs) + Sum(ys)
  {
    if xs == [] {
      assert xs + ys == ys;
    } else {
      assert (xs + ys)[1..] == xs[1..] + ys;
      SumAppend(xs[1..], ys);
    }
  }

  lemma {:induction false} SumUpdate(xs: seq<int>, i: nat, v: int)
    requires i < |xs|
    ensures Sum(xs[i := v]) == Sum(xs) - xs[i] + v
  {
    if i > 0 {
      assert xs[i := v][1..] == xs[1..][i - 1 := v];
      SumUpdate(xs[1..], i - 1, v);
    } else {
      assert xs[i := v][1..] == xs[1..];
    }
  }

  lemma {:induction false} SumMonotone(xs: seq<int>, ys: seq<int>)
    requires |xs| == |ys|
    requires forall i :: 0 <= i < |xs| ==> xs[i] <= ys[i]
    ensures Sum(xs) <= Sum(ys)
  {
    if xs != [] {
      SumMonotone(xs[1..], ys[1..]);
    }
  }

  /** The number of shards of a tier with this budget: at most 64, and never so many that a shard
      falls below 1 MiB unless a single shard takes the whole budget. */
  function ShardCount(maxBytes: int): (n: int)
    ensures 1 <= n <= DEFAULT_SHARDS
    ensures n > 1 ==> n * MIN_SHARD_BYTES <= maxBytes
    ensures n < DEFAULT_SHARDS && maxBytes > 0 ==> maxBytes < (n + 1) * MIN_SHARD_BYTES
  {
    if maxBytes <= 0 then 1 else
    var n := maxBytes / MIN_SHARD_BYTES;
    if n < 1 then 1 else if n > DEFAULT_SHARDS then DEFAULT_SHARDS else n
  }

  /** The shard owning a key, given the key's 32-bit hash. */
  function ShardIndex(hash: nat, n: int): (i: int)
    requires n > 0
    ensures 0 <= i < n
  {
    hash % n
  }

  /** The cap of shard `i` of `n`. */
  function Cap(maxBytes: int, n: int, i: int): int
    requires n > 0
  {
    if maxBytes <= 0 then maxBytes
    else maxBytes / n + (if i < maxBytes % n then 1 else 0)
  }

  function Caps(maxBytes: int, n: int): (caps: seq<int>)
    requires n > 0
  {
    seq(n, i requires 0 <= i < n => Cap(maxBytes, n, i))
  }

  /** Fills the per-shard caps in a loop, as the source does. */
  method ShardCaps(maxBytes: int, n: int) returns (caps: array<int>)
    requires n > 0
    ensures fresh(caps) && caps[..] == Caps(maxBytes, n)
  {
    caps := new int[n];
    if maxBytes <= 0 {
      for i := 0 to n
        invariant forall j :: 0 <= j < i ==> caps[j] == maxBytes
      {
        caps[i] := maxBytes;
      }
    } else {
      var base := maxBytes / n;
      var rem := maxBytes % n;
      for i := 0 to n
        invariant forall j :: 0 <= j < i ==> caps[j] == Cap(maxBytes, n, j)
      {
        caps[i] := base;
        if i < rem {
          caps[i] := caps[i] + 1;
        }
      }
    }
    assert |Caps(maxBytes, n)| == n;
  }

  lemma {:induction false} CapsPrefixSum(maxBytes: int, n: int, k: int)
    requires maxBytes > 0 && 0 <= k <= n && n > 0
    ensures Sum(Caps(maxBytes, n)[..k]) == k * (maxBytes / n) + (if k < maxBytes % n then k else maxBytes % n)
  {
    var caps := Caps(maxBytes, n);
    if k == 0 {
      assert caps[..0] == [];
    } else {
      CapsPrefixSum(maxBytes, n, k - 1);
      assert caps[..k] == caps[..k - 1] + [caps[k - 1]];
      SumAppend(caps[..k - 1], [caps[k - 1]]);
      assert Sum([caps[k - 1]]) == caps[k - 1];
      var b := maxBytes / n;
      assert (k - 1) * b + b == k * b;
    }
  }

  /** The caps of a positive budget add up to exactly that budget, whatever the shard count. */
  lemma CapsSumExactly(maxBytes: int, n: int)
    requires maxBytes > 0 && n > 0
    ensures Sum(Caps(maxBytes, n)) == maxBytes
  {
    CapsPrefixSum(maxBytes, n, n);
    assert Caps(maxBytes, n)[..n] == Caps(maxBytes, n);
    assert n * (maxBytes / n) + maxBytes % n == maxBytes;
  }

  /** A budget of at least 1 MiB gives every shard at least 1 MiB, and caps differ by at most a byte. */
  lemma CapsAreMeaningful(maxBytes: int, i: int, j: int)
    requires maxBytes >= MIN_SHARD_BYTES
    requires 0 <= i < ShardCount(maxBytes) && 0 <= j < ShardCount(maxBytes)
    ensures Caps(maxBytes, ShardCount(maxBytes))[i] >= MIN_SHARD_BYTES
    ensures Caps(maxBytes, ShardCount(maxBytes))[i] <= Caps(maxBytes, ShardCount(maxBytes))[j] + 1
  {
    var n := ShardCount(maxBytes);
    assert n * MIN_SHARD_BYTES <= maxBytes;
    DivLower(maxBytes, n, MIN_SHARD_BYTES);
  }

  lemma DivLower(a: int, n: int, m: int)
    requires n > 0 && n * m <= a
    ensures m <= a / n
  {
    var q := a / n;
    assert a < n * q + n;
    assert m > q ==> n * m >= n * (q + 1) == n * q + n;
  }

  lemma {:induction false} ZeroSum(n: nat)
    ensures Sum(seq(n, i => 0)) == 0
  {
    if n > 0 {
      assert seq(n, i => 0)[1..] == seq(n - 1, i => 0);
      ZeroSum(n - 1);
    }
  }

  lemma CapPositive(maxBytes: int, n: int, i: int)
    requires maxBytes > 0 && n > 0
    ensures Cap(maxBytes, n, i) >= 0
  {
  }

  lemma NonPositiveCap(maxBytes: int, n: int)
    requires n > 0
    ensures maxBytes <= 0 ==> forall i :: Cap(maxBytes, n, i) <= 0
  {
  }

  /** Shards within their caps make a tier within its budget. */
  lemma SumWithinBudget(maxBytes: int, cur: seq<int>)
    requires cur != []
    requires forall i :: 0 <= i < |cur| ==> 0 <= cur[i] && (cur[i] <= Cap(maxBytes, |cur|, i) || cur[i] == 0)
    ensures 0 <= Sum(cur) <= (if maxBytes > 0 then maxBytes else 0)
  {
    hide Sum;
    var zero := seq(|cur|, i => 0);
    ZeroSum(|cur|);
    NonPositiveCap(maxBytes, |cur|);
    hide Cap;
    SumMonotone(zero, cur);
    if maxBytes > 0 {
      CapsSumExactly(maxBytes, |cur|);
      forall i | 0 <= i < |cur|
        ensures cur[i] <= Caps(maxBytes, |cur|)[i]
      {
        CapPositive(maxBytes, |cur|, i);
      }
      SumMonotone(cur, Caps(maxBytes, |cur|));
    } else {
      SumMonotone(cur, zero);
    }
  }
}
