/** The frame-time histogram: counts per interval, found by binary search. */
module Histogram {
  import opened Search

  /** The bucket type is a 64-bit unsigned integer. */
  const WRAP: nat := 0x1_0000_0000_0000_0000

  /** Bucket `k` of `n` takes the values above `k * width` up to `(k + 1) * width`; the first also takes
      zero and the last everything above. */
  predicate Falls(v: nat, k: nat, n: nat, width: nat) {
    && k < n
    && (k > 0 ==> v > k * width)
    && (k < n - 1 ==> v <= (k + 1) * width)
  }

  /** How many of `values` fall in bucket `k`. */
  function Tally(values: seq<nat>, k: nat, n: nat, width: nat): nat {
    if values == [] then 0
    else Tally(values[..|values| - 1], k, n, width) + if Falls(values[|values| - 1], k, n, width) then 1 else 0
  }

  function Sum(s: seq<nat>): nat {
    if s == [] then 0 else s[0] + Sum(s[1..])
  }

  function Tallies(values: seq<nat>, n: nat, width: nat): (r: seq<nat>)
    ensures |r| == n
  {
    seq(n, (k: nat) => Tally(values, k, n, width))
  }

  lemma {:induction false} EdgesIncrease(j: nat, k: nat, width: nat)
    requires j <= k
    ensures j * width <= k * width
    ensures j < k && width > 0 ==> j * width < k * width
  {
    assert k * width == j * width + (k - j) * width;
    if j < k { assert (k - j) * width == width + (k - j - 1) * width; }
  }

  /** No value falls in two buckets. */
  lemma OneBucket(v: nat, j: nat, k: nat, n: nat, width: nat)
    requires Falls(v, j, n, width) && Falls(v, k, n, width)
    ensures j == k
  {
    if j < k { EdgesIncrease(j + 1, k, width); }
    if k < j { EdgesIncrease(k + 1, j, width); }
  }

  /** The closed form of the search: which bucket a value falls in. */
  function Bucket(v: nat, n: nat, width: nat): (k: nat)
    requires n >= 1 && width > 0
    ensures k < n
  {
    var k := if v == 0 then 0 else (v - 1) / width;
    if k < n - 1 then k else n - 1
  }

  lemma BucketHolds(v: nat, n: nat, width: nat)
    requires n >= 1 && width > 0
    ensures Falls(v, Bucket(v, n, width), n, width)
  {
    if v > 0 {
      var q := (v - 1) / width;
      Divided(v - 1, width);
      if q >= n - 1 { EdgesIncrease(n - 1, q, width); }
    }
  }

  lemma Divided(v: nat, width: nat)
    requires width > 0
    ensures var q := v / width; q * width <= v < (q + 1) * width
  {
    var q, m := v / width, v % width;
    assert v == width * q + m;
    assert (q + 1) * width == q * width + width;
  }

  lemma {:induction false} SumUpdated(s: seq<nat>, k: nat, x: nat)
    requires k < |s|
    ensures Sum(s[k := x]) == Sum(s) - s[k] + x
  {
    if k == 0 {
      assert s[k := x][1..] == s[1..];
    } else {
      assert s[k := x][1..] == s[1..][k - 1 := x];
      SumUpdated(s[1..], k - 1, x);
    }
  }

  lemma {:induction false} SumOfZeros(s: seq<nat>)
    requires forall k | 0 <= k < |s| :: s[k] == 0
    ensures Sum(s) == 0
  {
    if s != [] { SumOfZeros(s[1..]); }
  }

  /** One more value raises the tally of its bucket alone. */
  lemma TalliesStep(values: seq<nat>, v: nat, k: nat, n: nat, width: nat)
    requires Falls(v, k, n, width)
    ensures var t := Tallies(values, n, width); Tallies(values + [v], n, width) == t[k := t[k] + 1]
  {
    assert (values + [v])[..|values|] == values;
    forall j | 0 <= j < n && j != k ensures !Falls(v, j, n, width) {
      if Falls(v, j, n, width) { OneBucket(v, j, k, n, width); }
    }
  }

  /** The buckets' counts add up to the number of values. */
  lemma {:induction false} CountsAddUp(values: seq<nat>, n: nat, width: nat)
    requires n >= 1 && width > 0
    ensures Sum(Tallies(values, n, width)) == |values|
  {
    if values == [] {
      SumOfZeros(Tallies(values, n, width));
    } else {
      var init, v := values[..|values| - 1], values[|values| - 1];
      var t, k := Tallies(init, n, width), Bucket(v, n, width);
      BucketHolds(v, n, width);
      TalliesStep(init, v, k, n, width);
      SumUpdated(t, k, t[k] + 1);
      CountsAddUp(init, n, width);
      assert init + [v] == values;
    }
  }

  class Histogram {
    const buckets: array<nat>
    const counts: array<nat>
    const width: nat
    /** All values added so far. */
    ghost var values: seq<nat>

    ghost predicate Valid()
      reads this, buckets, counts
    {
      && buckets != counts && width > 0 && counts.Length == buckets.Length >= 1
      && (forall k | 0 <= k < buckets.Length :: buckets[k] == (k + 1) * width)
      && counts[..] == Tallies(values, counts.Length, width)
    }

    /** The edges fit the bucket type even if one step beyond the last would wrap around. */
    constructor (n: nat, width: nat)
      requires n >= 1 && width > 0 && n * width < WRAP
      ensures Valid() && values == [] && buckets.Length == n && this.width == width
      ensures fresh(buckets) && fresh(counts) && counts.Length == n
      ensures forall k | 0 <= k < n :: buckets[k] == (k + 1) * width && counts[k] == 0
    {
      var edges := new nat[n];
      var bucketVal, k := width, 0;
      while k < n
        invariant 0 <= k <= n
        invariant bucketVal == (k + 1) * width % WRAP
        invariant forall j | 0 <= j < k :: edges[j] == (j + 1) * width
      {
        EdgeFits(k, n, width);
        edges[k] := bucketVal;
        bucketVal := (bucketVal + width) % WRAP;
        k := k + 1;
      }
      buckets := edges;
      counts := new nat[n](_ => 0);
      this.width := width;
      values := [];
    }

    /** The position of the value among the first edges, all but the last. */
    method Locate(v: nat) returns (k: nat)
      requires Valid()
      ensures Falls(v, k, buckets.Length, width) && k == Bucket(v, buckets.Length, width)
      ensures k < buckets.Length && (k > 0 ==> v > k * width) && (k + 1 < buckets.Length ==> v <= (k + 1) * width)
    {
      var edges := buckets[..buckets.Length - 1];
      forall i, j | 0 <= i < j < |edges| ensures edges[i] <= edges[j] { EdgesIncrease(i + 1, j + 1, width); }
      k := LowerBound(edges, v);
      if k > 0 { assert edges[k - 1] == k * width; }
      if k < |edges| { assert edges[k] == (k + 1) * width; }
      BucketHolds(v, buckets.Length, width);
      OneBucket(v, k, Bucket(v, buckets.Length, width), buckets.Length, width);
    }

    method AddValue(v: nat)
      requires Valid()
      modifies this`values, counts
      ensures Valid() && values == old(values) + [v]
      ensures exists k: nat :: k < counts.Length && counts[..] == old(counts[..])[k := old(counts[k]) + 1]
                && (k > 0 ==> v > k * width) && (k + 1 < counts.Length ==> v <= (k + 1) * width)
    {
      var k := Locate(v);
      TalliesStep(values, v, k, counts.Length, width);
      counts[k] := counts[k] + 1;
      values := values + [v];
    }
  }

  lemma EdgeFits(k: nat, n: nat, width: nat)
    requires k < n && width > 0 && n * width < WRAP
    ensures (k + 1) * width % WRAP == (k + 1) * width
    ensures ((k + 1) * width + width) % WRAP == (k + 2) * width % WRAP
  {
    EdgesIncrease(k + 1, n, width);
    Below((k + 1) * width);
    assert (k + 2) * width == (k + 1) * width + width;
  }

  lemma Below(x: nat)
    requires x < WRAP
    ensures x % WRAP == x
  {
  }
}
