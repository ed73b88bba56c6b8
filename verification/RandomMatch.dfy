/** Random matching: walk the eligible candidates once and keep exactly the target number. */
module RandomMatch {
  import opened Common

  /** Whether the candidate after `seen` others is kept, given that `selected` were kept so far. */
  predicate RandomClaim(random: nat, selected: nat, target: nat, seen: nat, eligible: nat) {
    if selected >= target || seen >= eligible then false
    else if target - selected >= eligible - seen then true
    else random % (eligible - seen) < target - selected
  }

  /** Number of candidates kept among those not yet seen. */
  function Count(picks: seq<bool>): nat {
    if |picks| == 0 then 0 else (if picks[0] then 1 else 0) + Count(picks[1..])
  }

  /** The picks of a walk over one random value per remaining candidate. */
  function Walk(randoms: seq<nat>, selected: nat, target: nat, seen: nat, eligible: nat): (picks: seq<bool>)
    requires seen + |randoms| == eligible
    ensures |picks| == |randoms|
    decreases |randoms|
  {
    if |randoms| == 0 then []
    else
      var pick := RandomClaim(randoms[0], selected, target, seen, eligible);
      [pick] + Walk(randoms[1..], if pick then selected + 1 else selected, target, seen + 1, eligible)
  }

  lemma {:induction false} WalkCount(randoms: seq<nat>, selected: nat, target: nat, seen: nat, eligible: nat)
    requires seen + |randoms| == eligible && selected <= target
    ensures Count(Walk(randoms, selected, target, seen, eligible)) == Min(target - selected, |randoms|)
    decreases |randoms|
  {
    if |randoms| > 0 {
      var pick := RandomClaim(randoms[0], selected, target, seen, eligible);
      WalkCount(randoms[1..], if pick then selected + 1 else selected, target, seen + 1, eligible);
      var rest := Walk(randoms[1..], if pick then selected + 1 else selected, target, seen + 1, eligible);
      assert ([pick] + rest)[1..] == rest;
    }
  }

  lemma {:induction false} CountAppend(picks: seq<bool>, pick: bool)
    ensures Count(picks + [pick]) == Count(picks) + if pick then 1 else 0
  {
    if |picks| > 0 {
      CountAppend(picks[1..], pick);
      assert (picks + [pick])[1..] == picks[1..] + [pick];
    }
  }

  lemma {:induction false} WalkStep(randoms: seq<nat>, selected: nat, target: nat, seen: nat)
    requires seen < |randoms|
    ensures
      var pick := RandomClaim(randoms[seen], selected, target, seen, |randoms|);
      var walk := Walk(randoms[seen..], selected, target, seen, |randoms|);
      && walk[0] == pick
      && walk[1..] == Walk(randoms[seen + 1..], if pick then selected + 1 else selected, target, seen + 1, |randoms|)
  {
    assert randoms[seen..][1..] == randoms[seen + 1..];
  }

  method Select(randoms: seq<nat>, target: nat) returns (picks: seq<bool>, selected: nat)
    ensures picks == Walk(randoms, 0, target, 0, |randoms|)
    ensures selected == Min(target, |randoms|) == Count(picks)
  {
    ghost var all := Walk(randoms, 0, target, 0, |randoms|);
    picks, selected := [], 0;
    var seen := 0;
    while seen < |randoms|
      invariant seen <= |randoms| && |picks| == seen && picks == all[..seen] && selected == Count(picks)
      invariant Walk(randoms[seen..], selected, target, seen, |randoms|) == all[seen..]
    {
      var pick := RandomClaim(randoms[seen], selected, target, seen, |randoms|);
      WalkStep(randoms, selected, target, seen);
      assert all[seen..][0] == all[seen] && all[seen..][1..] == all[seen + 1..];
      CountAppend(picks, pick);
      picks := picks + [pick];
      if pick {
        selected := selected + 1;
      }
      seen := seen + 1;
    }
    WalkCount(randoms, 0, target, 0, |randoms|);
  }

  // ----- every matching set is equally likely -----

  function Factorial(n: nat): (f: nat)
    ensures f > 0
  {
    if n == 0 then 1 else n * Factorial(n - 1)
  }

  /** The number of remainder vectors, one remainder below the candidates left at each step, whose walk
      makes exactly `picks`. */
  function Producing(picks: seq<bool>, selected: nat, target: nat, seen: nat, eligible: nat): nat
    requires seen + |picks| == eligible
    decreases |picks|, 1, 0
  {
    if |picks| == 0 then 1 else ProducingFrom(picks, 0, selected, target, seen, eligible)
  }

  /** The same, with the first remainder at least `r`. */
  function ProducingFrom(picks: seq<bool>, r: nat, selected: nat, target: nat, seen: nat, eligible: nat): nat
    requires seen + |picks| == eligible && |picks| > 0 && r <= |picks|
    decreases |picks|, 0, |picks| - r
  {
    if r == |picks| then 0
    else
      (if RandomClaim(r, selected, target, seen, eligible) == picks[0]
       then Producing(picks[1..], if picks[0] then selected + 1 else selected, target, seen + 1, eligible) else 0)
      + ProducingFrom(picks, r + 1, selected, target, seen, eligible)
  }

  /** Of the remainders in r..n, those that make one step pick (below the need) or skip. */
  function Agreeing(pick: bool, r: nat, need: nat, n: nat): nat
    requires need <= n && r <= n
  {
    if pick then (if r < need then need - r else 0) else n - (if r < need then need else r)
  }

  /** A remainder below the divisor is itself, so a step picks exactly when it is below the need. */
  lemma StepPicks(r: nat, selected: nat, target: nat, seen: nat, eligible: nat)
    requires selected <= target && seen < eligible && r < eligible - seen
    ensures RandomClaim(r, selected, target, seen, eligible) <==> r < Min(target - selected, eligible - seen)
  {
    assert r % (eligible - seen) == r;
  }

  lemma Distribute(a: nat, b: nat, c: nat)
    ensures (a + b) * c == a * c + b * c
  {
  }

  lemma {:induction false} ProducingFromSplits(picks: seq<bool>, r: nat, selected: nat, target: nat, seen: nat,
                                               eligible: nat)
    requires seen + |picks| == eligible && |picks| > 0 && r <= |picks| && selected <= target
    ensures
      var rest := Producing(picks[1..], if picks[0] then selected + 1 else selected, target, seen + 1, eligible);
      ProducingFrom(picks, r, selected, target, seen, eligible) ==
      Agreeing(picks[0], r, Min(target - selected, |picks|), |picks|) * rest
    decreases |picks| - r
  {
    var need := Min(target - selected, |picks|);
    var rest := Producing(picks[1..], if picks[0] then selected + 1 else selected, target, seen + 1, eligible);
    if r < |picks| {
      ProducingFromSplits(picks, r + 1, selected, target, seen, eligible);
      StepPicks(r, selected, target, seen, eligible);
      var here := if RandomClaim(r, selected, target, seen, eligible) == picks[0] then 1 else 0;
      assert Agreeing(picks[0], r, need, |picks|) == here + Agreeing(picks[0], r + 1, need, |picks|);
      Distribute(here, Agreeing(picks[0], r + 1, need, |picks|), rest);
    }
  }

  lemma CountBound(picks: seq<bool>)
    ensures Count(picks) <= |picks|
  {
  }

  lemma Reassociate(k: nat, a: nat, b: nat)
    ensures k * (a * b) == (k * a) * b
    ensures k * (a * b) == a * (k * b)
  {
  }

  lemma {:induction false} ProducingIsFactorials(picks: seq<bool>, selected: nat, target: nat, seen: nat, eligible: nat)
    requires seen + |picks| == eligible && selected <= target
    requires Count(picks) == Min(target - selected, |picks|)
    ensures Count(picks) <= |picks|
    ensures Producing(picks, selected, target, seen, eligible) ==
            Factorial(Count(picks)) * Factorial(|picks| - Count(picks))
    decreases |picks|
  {
    if |picks| > 0 {
      var rest := picks[1..];
      CountBound(rest);
      ProducingFromSplits(picks, 0, selected, target, seen, eligible);
      var n, k := |picks|, Count(picks);
      if picks[0] {
        ProducingIsFactorials(rest, selected + 1, target, seen + 1, eligible);
        Reassociate(k, Factorial(k - 1), Factorial(n - k));
      } else {
        ProducingIsFactorials(rest, selected, target, seen + 1, eligible);
        Reassociate(n - k, Factorial(k), Factorial(n - 1 - k));
      }
    }
  }

  lemma ProductPositive(a: nat, b: nat)
    requires a > 0 && b > 0
    ensures a * b > 0
  {
  }

  /** Every selection of the target size arises, and any two arise from equally many remainder vectors. */
  lemma SelectionsEquallyLikely(picks: seq<bool>, picks': seq<bool>, target: nat)
    requires |picks| == |picks'| && Count(picks) == Count(picks') == Min(target, |picks|)
    ensures Producing(picks, 0, target, 0, |picks|) == Producing(picks', 0, target, 0, |picks|) > 0
  {
    CountBound(picks);
    ProducingIsFactorials(picks, 0, target, 0, |picks|);
    ProducingIsFactorials(picks', 0, target, 0, |picks|);
    ProductPositive(Factorial(Count(picks)), Factorial(|picks| - Count(picks)));
  }
}
