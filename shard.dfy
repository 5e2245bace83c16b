/** The shard split of `run_eval` and `evaluate`: `chunk_size = n //
    num_gpus`, then one shard `xs[i:i+chunk_size]` for every `i` in
    `range(0, n, chunk_size)`. */
module Shard {
  import opened Outcome

  /** Python's floor division `a // b`. Dafny's `/` is Euclidean, which
      differs from flooring when the divisor is negative. */
  function FloorDiv(a: int, b: int): (q: int)
    requires b != 0
    ensures b > 0 ==> b * q <= a < b * q + b
    ensures b < 0 ==> b * q >= a > b * q + b
  {
    if b > 0 then a / b else (-a) / (-b)
  }

  function Min(a: int, b: int): int
  {
    if a <= b then a else b
  }

  /** The shards laid end to end. */
  function Flatten<T>(shards: seq<seq<T>>): seq<T>
  {
    if shards == [] then [] else Flatten(shards[..|shards| - 1]) + shards[|shards| - 1]
  }

  /** `shards` cuts `xs`, in order, into pieces of `c` rows, of which only
      the last may be shorter (but never empty). */
  ghost predicate IsSharding<T>(shards: seq<seq<T>>, xs: seq<T>, c: nat)
  {
    && Flatten(shards) == xs
    && (forall j :: 0 <= j < |shards| - 1 ==> |shards[j]| == c)
    && (|shards| > 0 ==> 1 <= |shards[|shards| - 1]| <= c)
  }

  /** The split of `xs` among `numGpus` workers. Fails as Python does when
      `numGpus` is zero, or when the chunk size is zero (a `range` step of
      zero); a negative chunk size gives an empty `range` and no shards. */
  method Split<T>(xs: seq<T>, numGpus: int) returns (r: Result<seq<seq<T>>>)
    ensures numGpus == 0 ==> r == Failure(ZeroDivisionError)
    ensures numGpus != 0 && FloorDiv(|xs|, numGpus) == 0 ==> r == Failure(ValueError)
    ensures numGpus != 0 && FloorDiv(|xs|, numGpus) < 0 ==> r == Success([])
    ensures numGpus != 0 && FloorDiv(|xs|, numGpus) > 0 ==>
      r.Success? && IsSharding(r.value, xs, FloorDiv(|xs|, numGpus))
  {
    if numGpus == 0 {
      return Failure(ZeroDivisionError);
    }
    var n := |xs|;
    var c := FloorDiv(n, numGpus);
    if c == 0 {
      return Failure(ValueError);
    }
    if c < 0 {
      return Success([]);
    }
    var shards: seq<seq<T>> := [];
    var i := 0;
    while i < n
      invariant 0 <= i
      invariant Flatten(shards) == xs[..Min(i, n)]
      invariant forall j :: 0 <= j < |shards| - 1 ==> |shards[j]| == c
      invariant |shards| > 0 ==> 1 <= |shards[|shards| - 1]| <= c
      invariant i < n && |shards| > 0 ==> |shards[|shards| - 1]| == c
      invariant i == 0 <==> shards == []
      decreases n - i
    {
      var shard := xs[i..Min(i + c, n)];
      assert (shards + [shard])[..|shards|] == shards;
      assert xs[..Min(i + c, n)] == xs[..i] + shard;
      shards := shards + [shard];
      i := i + c;
    }
    assert xs[..Min(i, n)] == xs;
    return Success(shards);
  }

  /** How many rows a sharding holds: all full shards and the last one. */
  lemma {:induction false} ShardingLength<T>(shards: seq<seq<T>>, xs: seq<T>, c: nat)
    requires IsSharding(shards, xs, c) && |shards| > 0
    ensures |xs| == (|shards| - 1) * c + |shards[|shards| - 1]|
  {
    var m := |shards|;
    var init := shards[..m - 1];
    assert xs == Flatten(init) + shards[m - 1];
    if m > 1 {
      assert IsSharding(init, Flatten(init), c);
      ShardingLength(init, Flatten(init), c);
      assert |Flatten(init)| == (m - 2) * c + c == (m - 1) * c;
    } else {
      assert Flatten(init) == [];
    }
  }

  /** There are `ceil(n / c)` shards: the least `m` with `m * c >= n`. */
  lemma ShardCount<T>(shards: seq<seq<T>>, xs: seq<T>, c: nat)
    requires IsSharding(shards, xs, c) && |xs| > 0
    ensures (|shards| - 1) * c < |xs| <= |shards| * c
  {
    ShardingLength(shards, xs, c);
  }

  /** Shard `j` is the slice `xs[j*c : j*c+c]` that the loop takes, clamped
      at the end of `xs`; so a sharding of `xs` is unique. */
  lemma {:induction false} ShardAt<T>(shards: seq<seq<T>>, xs: seq<T>, c: nat, j: nat)
    requires IsSharding(shards, xs, c) && j < |shards|
    ensures j * c + c <= |xs| || j == |shards| - 1
    ensures j * c <= |xs|
    ensures shards[j] == xs[j * c..Min(j * c + c, |xs|)]
  {
    var m := |shards|;
    var init := shards[..m - 1];
    var last := shards[m - 1];
    assert xs == Flatten(init) + last;
    if m > 1 {
      assert IsSharding(init, Flatten(init), c);
      ShardingLength(init, Flatten(init), c);
      assert |Flatten(init)| == (m - 1) * c;
    } else {
      assert Flatten(init) == [];
    }
    assert |Flatten(init)| == (m - 1) * c;
    if j < m - 1 {
      ShardAt(init, Flatten(init), c, j);
      assert j * c + c <= (m - 1) * c by {
        assert j + 1 <= m - 1;
        MulMono(j + 1, m - 1, c);
      }
      assert shards[j] == init[j];
    } else {
      assert |xs| == j * c + |last|;
    }
  }

  lemma MulMono(a: nat, b: nat, c: nat)
    requires a <= b
    ensures a * c <= b * c
  {
  }

  /** With `c = n // g > 0`, the loop makes at least `g` shards, and exactly
      `g` only when `g` divides `n`: otherwise the remainder rows form extra
      shards beyond the `g` workers. */
  lemma ShardCountVsGpus(n: nat, g: nat, m: nat)
    requires g > 0 && n / g > 0
    requires (m - 1) * (n / g) < n <= m * (n / g)
    ensures m >= g
    ensures m == g <==> n % g == 0
  {
    var c := n / g;
    var rem := n % g;
    assert n == c * g + rem && 0 <= rem < g;
    if m < g {
      MulMono(m, g - 1, c);
      assert false;
    }
    if rem == 0 {
      if m > g {
        MulMono(g, m - 1, c);
        assert false;
      }
    } else {
      assert g * c < n;
    }
  }

  /** Seven rows among three workers: a chunk of two rows and four shards. */
  lemma SevenRowsFourShards(xs: seq<int>, shards: seq<seq<int>>)
    requires |xs| == 7 && IsSharding(shards, xs, FloorDiv(7, 3))
    ensures |shards| == 4 && |shards[3]| == 1
  {
    ShardCount(shards, xs, 2);
    ShardingLength(shards, xs, 2);
  }
}
