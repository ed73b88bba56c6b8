/** The weighted median of one bootstrap replicate: two lookups in the cumulative weights of the sorted
    values, against the ordinary median of the list that repeats each value by its weight. */
module WeightedMedian {
  function Sum(weights: seq<nat>): nat {
    if |weights| == 0 then 0 else weights[0] + Sum(weights[1..])
  }

  predicate Sorted(values: seq<real>) {
    forall i, j :: 0 <= i < j < |values| ==> values[i] <= values[j]
  }

  function Repeat(value: real, n: nat): (r: seq<real>)
    ensures |r| == n && forall i :: 0 <= i < n ==> r[i] == value
  {
    if n == 0 then [] else [value] + Repeat(value, n - 1)
  }

  /** Each value repeated by its weight. */
  function Replicate(values: seq<real>, weights: seq<nat>): (r: seq<real>)
    requires |values| == |weights|
    ensures |r| == Sum(weights)
  {
    if |values| == 0 then [] else Repeat(values[0], weights[0]) + Replicate(values[1..], weights[1..])
  }

  function Median(sorted: seq<real>): real
    requires |sorted| > 0
  {
    (sorted[(|sorted| - 1) / 2] + sorted[|sorted| / 2]) / 2.0
  }

  /** The list the median is taken of is sorted, so it is an ordinary median. */
  lemma {:induction false} ReplicateSorted(values: seq<real>, weights: seq<nat>)
    requires |values| == |weights| && Sorted(values)
    ensures Sorted(Replicate(values, weights))
    ensures |values| > 0 ==>
              forall i :: 0 <= i < |Replicate(values, weights)| ==> values[0] <= Replicate(values, weights)[i]
  {
    if |values| > 0 {
      ReplicateSorted(values[1..], weights[1..]);
      var rest := Replicate(values[1..], weights[1..]);
      assert |values| > 1 ==> values[0] <= values[1];
    }
  }

  lemma {:induction false} SumPrefix(weights: seq<nat>, k: nat)
    requires k < |weights|
    ensures Sum(weights[..k + 1]) == Sum(weights[..k]) + weights[k]
  {
    if k > 0 {
      SumPrefix(weights[1..], k - 1);
      assert weights[..k + 1][1..] == weights[1..][..k];
      assert weights[..k][1..] == weights[1..][..k - 1];
    }
  }

  /** The value at rank `rank` (counting from 1) sits where the cumulative weight first reaches the rank. */
  lemma {:induction false} RankedValue(values: seq<real>, weights: seq<nat>, k: nat, rank: nat)
    requires |values| == |weights| && k < |weights|
    requires Sum(weights[..k]) < rank <= Sum(weights[..k + 1])
    ensures rank <= Sum(weights)
    ensures Replicate(values, weights)[rank - 1] == values[k]
  {
    if k == 0 {
      assert weights[..1] == [weights[0]];
    } else {
      assert weights[..k + 1][1..] == weights[1..][..k];
      assert weights[..k][1..] == weights[1..][..k - 1];
      RankedValue(values[1..], weights[1..], k - 1, rank - weights[0]);
    }
  }

  method CumulativeWeights(weights: seq<nat>) returns (cw: seq<nat>)
    ensures |cw| == |weights|
    ensures forall k :: 0 <= k < |cw| ==> cw[k] == Sum(weights[..k + 1])
  {
    cw := [];
    var total := 0;
    var k := 0;
    while k < |weights|
      invariant k <= |weights| && |cw| == k && total == Sum(weights[..k])
      invariant forall i :: 0 <= i < k ==> cw[i] == Sum(weights[..i + 1])
    {
      SumPrefix(weights, k);
      total := total + weights[k];
      cw := cw + [total];
      k := k + 1;
    }
  }

  lemma {:induction false} SumMonotone(weights: seq<nat>, i: nat, j: nat)
    requires i <= j <= |weights|
    ensures Sum(weights[..i]) <= Sum(weights[..j])
  {
    if i < j {
      SumMonotone(weights, i, j - 1);
      SumPrefix(weights, j - 1);
    }
  }

  /** The left insertion point of `target`: binary search in the ascending cumulative weights. */
  method SearchSorted(cw: seq<nat>, target: nat) returns (at: nat)
    requires forall i, j :: 0 <= i < j < |cw| ==> cw[i] <= cw[j]
    ensures at <= |cw|
    ensures forall i :: 0 <= i < at ==> cw[i] < target
    ensures forall i :: at <= i < |cw| ==> target <= cw[i]
  {
    var low, high := 0, |cw|;
    while low < high
      invariant low <= high <= |cw|
      invariant forall i :: 0 <= i < low ==> cw[i] < target
      invariant forall i :: high <= i < |cw| ==> target <= cw[i]
    {
      var mid := (low + high) / 2;
      if cw[mid] < target {
        low := mid + 1;
      } else {
        high := mid;
      }
    }
    at := low;
  }

  /** For every sorted value list and weights with a positive total, the two lookups average to the median
      of the replicated list. */
  method MedianOfReplicate(values: seq<real>, weights: seq<nat>) returns (median: real)
    requires |values| == |weights| && Sorted(values) && Sum(weights) > 0
    ensures Sorted(Replicate(values, weights))
    ensures median == Median(Replicate(values, weights))
  {
    ReplicateSorted(values, weights);
    var cw := CumulativeWeights(weights);
    CumulativeAscends(weights, cw);
    assert weights[..|weights|] == weights;
    var total := cw[|cw| - 1];
    var lo := SearchSorted(cw, (total + 1) / 2);
    var hi := SearchSorted(cw, (total + 2) / 2);
    LookupFindsRank(values, weights, cw, lo, (total + 1) / 2);
    LookupFindsRank(values, weights, cw, hi, (total + 2) / 2);
    median := (values[lo] + values[hi]) / 2.0;
  }

  lemma CumulativeAscends(weights: seq<nat>, cw: seq<nat>)
    requires |cw| == |weights| && forall k :: 0 <= k < |cw| ==> cw[k] == Sum(weights[..k + 1])
    ensures forall i, j :: 0 <= i < j < |cw| ==> cw[i] <= cw[j]
  {
    forall i, j | 0 <= i < j < |cw|
      ensures cw[i] <= cw[j]
    {
      SumMonotone(weights, i + 1, j + 1);
    }
  }

  lemma LookupFindsRank(values: seq<real>, weights: seq<nat>, cw: seq<nat>, at: nat, rank: nat)
    requires |values| == |weights| == |cw| && forall k :: 0 <= k < |cw| ==> cw[k] == Sum(weights[..k + 1])
    requires at <= |cw| && 1 <= rank <= Sum(weights)
    requires forall i :: 0 <= i < at ==> cw[i] < rank
    requires forall i :: at <= i < |cw| ==> rank <= cw[i]
    ensures at < |cw| && Replicate(values, weights)[rank - 1] == values[at]
  {
    assert weights[..|weights|] == weights;
    assert |cw| > 0 && cw[|cw| - 1] == Sum(weights);
    assert at < |cw|;
    assert cw[at] == Sum(weights[..at + 1]);
    if at > 0 {
      assert cw[at - 1] == Sum(weights[..(at - 1) + 1]);
    }
    RankedValue(values, weights, at, rank);
  }
}
