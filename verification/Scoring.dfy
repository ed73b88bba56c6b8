/** Fixed-point scoring: six binned features, a summed score, a tier delta and an effective tier.
    The pipeline is monotone, so a page that looks hotter in every feature is never treated colder. */
module Scoring {
  import opened Common
  import opened PageMetadata

  const TIER_SCALE: int := 256
  const MAX_TIER: int := 3
  const FEATURES: nat := 6
  const BINS: nat := 6
  const S64_MIN: int := -0x8000_0000_0000_0000
  const S32_MIN: int := -0x8000_0000

  const AGE_EDGES: seq<int> := [10, 100, 500, 2000, 10000]

  const BIN_EDGES: seq<seq<int>> := [
    AGE_EDGES, AGE_EDGES, AGE_EDGES, [0, 1, 2, 4, 8], AGE_EDGES, [8, 32, 96, 160, 224]]

  const WEIGHTS: seq<seq<int>> := [
    [64, 48, 24, 0, -32, -64],
    [32, 24, 12, 0, -12, -24],
    [32, 24, 12, 0, -12, -24],
    [24, 12, 0, -12, -24, -36],
    [16, 12, 8, 0, -8, -16],
    [-24, -12, 0, 12, 24, 36]]

  datatype Policy = Policy(
    cold: int, hot1: int, hot2: int, hot3: int, maxUpgrade: nat, maxDowngrade: nat, requireTwoCold: bool)

  predicate PolicyValid(p: Policy) {
    1 <= p.maxUpgrade <= 3 && p.maxDowngrade == 1 && p.cold < p.hot1 < p.hot2 < p.hot3
  }

  /** The bin of a value: how many edges lie strictly below it. */
  function BinOf(edges: seq<int>, value: int): (bin: nat)
    ensures bin <= |edges|
  {
    if |edges| == 0 || value <= edges[0] then 0 else 1 + BinOf(edges[1..], value)
  }

  function Values(f: Features): seq<int> {
    [f.accessAge, f.prevInterval, f.intervalEma, f.candidates, f.generationAge, f.accessEma]
  }

  function ScoreFrom(values: seq<int>, feature: nat): int
    requires |values| == FEATURES && feature <= FEATURES
    decreases FEATURES - feature
  {
    if feature == FEATURES then 0
    else WEIGHTS[feature][BinOf(BIN_EDGES[feature], values[feature])] + ScoreFrom(values, feature + 1)
  }

  function Score(f: Features): int {
    ScoreFrom(Values(f), 0)
  }

  lemma BinAdvances(edges: seq<int>, value: int, bin: nat)
    requires bin < |edges| && edges[bin] < value
    requires bin <= BinOf(edges, value)
    ensures bin + 1 <= BinOf(edges, value)
  {
    if bin > 0 {
      BinAdvances(edges[1..], value, bin - 1);
    }
  }

  lemma BinStops(edges: seq<int>, value: int, bin: nat)
    requires bin <= BinOf(edges, value)
    requires bin == |edges| || value <= edges[bin]
    ensures bin == BinOf(edges, value)
  {
    if bin > 0 {
      BinStops(edges[1..], value, bin - 1);
    }
  }

  /** The scoring loop: walk every table to the first edge not below the value and add its weight. Only the
      smallest 64-bit value, which stands for a missing feature, is refused; the sum always fits 32 bits. */
  method ScoreValues(values: seq<int>) returns (score: Option<int>)
    requires |values| == FEATURES
    ensures score == if S64_MIN in values then None else Some(ScoreFrom(values, 0))
  {
    var total := 0;
    var feature := 0;
    while feature < FEATURES
      invariant feature <= FEATURES
      invariant S64_MIN !in values[..feature]
      invariant total + ScoreFrom(values, feature) == ScoreFrom(values, 0)
    {
      if values[feature] == S64_MIN {
        return None;
      }
      var bin := 0;
      while bin < BINS - 1 && values[feature] > BIN_EDGES[feature][bin]
        invariant bin <= BinOf(BIN_EDGES[feature], values[feature]) <= BINS - 1
      {
        BinAdvances(BIN_EDGES[feature], values[feature], bin);
        bin := bin + 1;
      }
      BinStops(BIN_EDGES[feature], values[feature], bin);
      total := total + WEIGHTS[feature][bin];
      feature := feature + 1;
    }
    SumInRange(values);
    if total < S32_MIN || total > S32_MAX {
      return None;
    }
    assert values[..feature] == values;
    score := Some(total);
  }

  function ScoreToDelta(score: int, p: Policy): int {
    if !PolicyValid(p) then 0
    else if score <= p.cold then -TIER_SCALE
    else if score >= p.hot3 && p.maxUpgrade == 3 then 3 * TIER_SCALE
    else if score >= p.hot2 then Min(p.maxUpgrade, 2) * TIER_SCALE
    else if score >= p.hot1 then TIER_SCALE
    else 0
  }

  function Clamp(v: int, lo: int, hi: int): int {
    if v < lo then lo else if v > hi then hi else v
  }

  function EffectiveTier(nativeTier: int, delta: int): int {
    if nativeTier < 0 || nativeTier > MAX_TIER then 0
    else Clamp(nativeTier * TIER_SCALE + delta, 0, MAX_TIER * TIER_SCALE)
  }

  predicate EffectiveProtect(score: int, p: Policy, nativeTier: int, tierIdx: int) {
    EffectiveTier(nativeTier, ScoreToDelta(score, p)) > tierIdx * TIER_SCALE
  }

  // ----- what the pieces mean -----

  predicate Ascending(edges: seq<int>) {
    forall i, j :: 0 <= i < j < |edges| ==> edges[i] < edges[j]
  }

  /** A value falls between the edges around its bin: above every edge before it, at or below every later one. */
  lemma {:induction false} BinHolds(edges: seq<int>, value: int, i: nat)
    requires Ascending(edges) && i < |edges|
    ensures i < BinOf(edges, value) <==> edges[i] < value
  {
    if value > edges[0] && i > 0 {
      BinHolds(edges[1..], value, i - 1);
    } else if value <= edges[0] && i > 0 {
      assert edges[0] < edges[i];
    }
  }

  /** The weight a feature contributes, and every feature contributes once. */
  function Weight(feature: nat, value: int): int
    requires feature < FEATURES
  {
    WEIGHTS[feature][BinOf(BIN_EDGES[feature], value)]
  }

  lemma ScoreIsSum(f: Features)
    ensures Score(f) ==
            Weight(0, f.accessAge) + Weight(1, f.prevInterval) + Weight(2, f.intervalEma)
            + Weight(3, f.candidates) + Weight(4, f.generationAge) + Weight(5, f.accessEma)
  {
    var v := Values(f);
    assert ScoreFrom(v, 4) == Weight(4, v[4]) + Weight(5, v[5]);
    assert ScoreFrom(v, 2) == Weight(2, v[2]) + Weight(3, v[3]) + ScoreFrom(v, 4);
  }

  /** How many tiers a score wins: one for each hot threshold reached, up to what the policy allows; the third
      only when it allows all three. */
  predicate Wins(score: int, p: Policy, tiers: int) {
    match tiers
    case 1 => score >= p.hot1
    case 2 => score >= p.hot2 && p.maxUpgrade >= 2
    case 3 => score >= p.hot3 && p.maxUpgrade == 3
    case _ => tiers <= 0
  }

  /** The delta loses a tier exactly at the cold threshold or below, and otherwise is as many whole tiers as the
      score wins. */
  lemma DeltaMeans(score: int, p: Policy, tiers: int)
    requires PolicyValid(p)
    ensures ScoreToDelta(score, p) < 0 <==> score <= p.cold
    ensures ScoreToDelta(score, p) < 0 ==> ScoreToDelta(score, p) == -TIER_SCALE
    ensures 1 <= tiers ==> (ScoreToDelta(score, p) >= tiers * TIER_SCALE <==> Wins(score, p, tiers))
    ensures ScoreToDelta(score, p) % TIER_SCALE == 0
  {
  }

  /** The effective tier is the sum of tier and delta, stopped at the lowest and the highest tier. */
  lemma EffectiveTierMeans(nativeTier: int, delta: int)
    requires 0 <= nativeTier <= MAX_TIER
    ensures
      var effective, sum := EffectiveTier(nativeTier, delta), nativeTier * TIER_SCALE + delta;
      && 0 <= effective <= MAX_TIER * TIER_SCALE
      && (effective < sum ==> effective == MAX_TIER * TIER_SCALE)
      && (effective > sum ==> effective == 0)
  {
  }

  // ----- theorems -----

  /** `a` is at least as hot as `b` in every feature. */
  predicate Hotter(a: Features, b: Features) {
    && a.accessAge <= b.accessAge && a.prevInterval <= b.prevInterval && a.intervalEma <= b.intervalEma
    && a.candidates <= b.candidates && a.generationAge <= b.generationAge && a.accessEma >= b.accessEma
  }

  lemma BinMonotone(edges: seq<int>, v: int, w: int)
    requires v <= w
    ensures BinOf(edges, v) <= BinOf(edges, w)
  {
    if |edges| > 0 && v > edges[0] {
      BinMonotone(edges[1..], v, w);
    }
  }

  lemma WeightsOrdered(feature: nat, i: nat, j: nat)
    requires feature < FEATURES && i <= j < BINS
    ensures feature < 5 ==> WEIGHTS[feature][i] >= WEIGHTS[feature][j]
    ensures feature == 5 ==> WEIGHTS[feature][i] <= WEIGHTS[feature][j]
  {
    var w := WEIGHTS[feature];
    if feature < 5 {
      assert w[0] >= w[1] >= w[2] >= w[3] >= w[4] >= w[5];
    } else {
      assert w[0] <= w[1] <= w[2] <= w[3] <= w[4] <= w[5];
    }
  }

  lemma {:induction false} ScoreFromMonotone(a: seq<int>, b: seq<int>, feature: nat)
    requires |a| == |b| == FEATURES && feature <= FEATURES
    requires forall i :: 0 <= i < 5 ==> a[i] <= b[i]
    requires a[5] >= b[5]
    ensures ScoreFrom(a, feature) >= ScoreFrom(b, feature)
    decreases FEATURES - feature
  {
    if feature < FEATURES {
      ScoreFromMonotone(a, b, feature + 1);
      var edges := BIN_EDGES[feature];
      if feature < 5 {
        BinMonotone(edges, a[feature], b[feature]);
        WeightsOrdered(feature, BinOf(edges, a[feature]), BinOf(edges, b[feature]));
      } else {
        BinMonotone(edges, b[feature], a[feature]);
        WeightsOrdered(feature, BinOf(edges, b[feature]), BinOf(edges, a[feature]));
      }
    }
  }

  lemma DeltaMonotone(high: int, low: int, p: Policy)
    requires low <= high
    ensures ScoreToDelta(low, p) <= ScoreToDelta(high, p)
  {
  }

  /** The whole pipeline is monotone for every policy and every pair of tiers. */
  lemma PipelineMonotone(a: Features, b: Features, p: Policy, nativeTier: int, tierIdx: int)
    requires Hotter(a, b)
    ensures Score(a) >= Score(b)
    ensures ScoreToDelta(Score(a), p) >= ScoreToDelta(Score(b), p)
    ensures EffectiveTier(nativeTier, ScoreToDelta(Score(a), p)) >=
            EffectiveTier(nativeTier, ScoreToDelta(Score(b), p))
    ensures EffectiveProtect(Score(b), p, nativeTier, tierIdx) ==> EffectiveProtect(Score(a), p, nativeTier, tierIdx)
  {
    ScoreFromMonotone(Values(a), Values(b), 0);
    DeltaMonotone(Score(a), Score(b), p);
  }

  function LowestWeight(feature: nat): int
    requires feature < FEATURES
  {
    if feature < 5 then WEIGHTS[feature][BINS - 1] else WEIGHTS[feature][0]
  }

  function HighestWeight(feature: nat): int
    requires feature < FEATURES
  {
    if feature < 5 then WEIGHTS[feature][0] else WEIGHTS[feature][BINS - 1]
  }

  lemma TermInRange(feature: nat, value: int)
    requires feature < FEATURES
    ensures LowestWeight(feature) <= WEIGHTS[feature][BinOf(BIN_EDGES[feature], value)] <= HighestWeight(feature)
  {
    var bin := BinOf(BIN_EDGES[feature], value);
    WeightsOrdered(feature, 0, bin);
    WeightsOrdered(feature, bin, BINS - 1);
  }

  /** No input drives the sum out of -188..204. */
  lemma ScoreInRange(f: Features)
    ensures -188 <= Score(f) <= 204
  {
    SumInRange(Values(f));
  }

  lemma SumInRange(v: seq<int>)
    requires |v| == FEATURES
    ensures -188 <= ScoreFrom(v, 0) <= 204
  {
    TermInRange(0, v[0]);
    TermInRange(1, v[1]);
    TermInRange(2, v[2]);
    TermInRange(3, v[3]);
    TermInRange(4, v[4]);
    TermInRange(5, v[5]);
    assert ScoreFrom(v, 4) == WEIGHTS[4][BinOf(BIN_EDGES[4], v[4])] + WEIGHTS[5][BinOf(BIN_EDGES[5], v[5])];
    assert ScoreFrom(v, 3) == WEIGHTS[3][BinOf(BIN_EDGES[3], v[3])] + ScoreFrom(v, 4);
    assert ScoreFrom(v, 2) == WEIGHTS[2][BinOf(BIN_EDGES[2], v[2])] + ScoreFrom(v, 3);
  }
}
