/** All metrics of one query for one score, and what each of them means over the completions. */
module QueryMetrics {
  import opened Common
  import opened CensoredMetrics
  import opened ColdPrecision

  datatype Metrics = Metrics(
    pairs: Tally, victim: nat, victimTime: Option<real>, victimCensored: bool,
    discarded30: Option<bool>, discarded180: Option<bool>,
    cold1: Option<nat>, cold2: Option<nat>, cold3: Option<nat>,
    earliest2: Option<real>, earliest4: Option<real>)

  type Pair = (nat, nat)

  function IndexPairs(n: nat): set<Pair> {
    set i: nat, j: nat | i < n && j < n && i < j :: (i, j)
  }

  predicate Comparable(q: Query, p: Pair)
    requires Valid(q)
  {
    p.0 < p.1 < |q.candidates| && Direction(q, q.candidates[p.0], q.candidates[p.1]).Some?
  }

  predicate Scored(q: Query, score: map<nat, real>) {
    Keyed(q.candidates, score)
  }

  predicate Agrees(q: Query, score: map<nat, real>, p: Pair)
    requires Valid(q) && Scored(q, score)
  {
    && Comparable(q, p)
    && Direction(q, q.candidates[p.0], q.candidates[p.1]) ==
       Some(Sign(score[q.candidates[p.0]] - score[q.candidates[p.1]]))
  }

  predicate Tied(q: Query, score: map<nat, real>, p: Pair)
    requires Valid(q) && Scored(q, score)
  {
    Comparable(q, p) && score[q.candidates[p.0]] == score[q.candidates[p.1]]
  }

  /** Index pairs the double loop has visited when it stands at (i, j). */
  predicate Before(p: Pair, i: nat, j: nat) {
    p.0 < i || (p.0 == i && p.1 < j)
  }

  function Counted(q: Query, i: nat, j: nat, keep: Pair -> bool): set<Pair> {
    set p | p in IndexPairs(|q.candidates|) && Before(p, i, j) && keep(p)
  }

  lemma CountedStep(q: Query, i: nat, j: nat, keep: Pair -> bool)
    requires i < j < |q.candidates|
    ensures |Counted(q, i, j + 1, keep)| == |Counted(q, i, j, keep)| + (if keep((i, j)) then 1 else 0)
  {
    if keep((i, j)) {
      assert Counted(q, i, j + 1, keep) == Counted(q, i, j, keep) + {(i, j)};
    } else {
      assert Counted(q, i, j + 1, keep) == Counted(q, i, j, keep);
    }
  }

  lemma CountedNextRow(q: Query, i: nat, keep: Pair -> bool)
    ensures Counted(q, i + 1, i + 2, keep) == Counted(q, i, |q.candidates|, keep)
  {
  }

  function Kept(q: Query, keep: Pair -> bool): set<Pair> {
    set p | p in IndexPairs(|q.candidates|) && keep(p)
  }

  lemma CountedEnds(q: Query, keep: Pair -> bool)
    ensures Counted(q, 0, 1, keep) == {}
    ensures Counted(q, |q.candidates|, |q.candidates| + 1, keep) == Kept(q, keep)
  {
  }

  /** The count a double loop over the pairs below `n` has reached at (i, j). */
  function CountAt(i: nat, j: nat, n: nat, keep: Pair -> bool): nat
    decreases i, j
  {
    if j > i + 1 then CountAt(i, j - 1, n, keep) + (if keep((i, j - 1)) then 1 else 0)
    else if i == 0 then 0
    else CountAt(i - 1, n, n, keep)
  }

  /** The running count is the number of kept pairs visited before. */
  lemma {:induction false} CountAtIsCounted(q: Query, i: nat, j: nat, keep: Pair -> bool)
    requires i <= |q.candidates| && i < j && (j <= |q.candidates| || j == i + 1)
    ensures CountAt(i, j, |q.candidates|, keep) == |Counted(q, i, j, keep)|
    decreases i, j
  {
    if j > i + 1 {
      CountAtIsCounted(q, i, j - 1, keep);
      CountedStep(q, i, j - 1, keep);
    } else if i == 0 {
      CountedEnds(q, keep);
    } else {
      CountAtIsCounted(q, i - 1, |q.candidates|, keep);
      CountedNextRow(q, i - 1, keep);
    }
  }

  lemma CountAtEnds(q: Query, keep: Pair -> bool)
    ensures CountAt(|q.candidates|, |q.candidates| + 1, |q.candidates|, keep) == |Kept(q, keep)|
  {
    CountAtIsCounted(q, |q.candidates|, |q.candidates| + 1, keep);
    CountedEnds(q, keep);
  }

  function ComparableIn(q: Query): Pair -> bool
    requires Valid(q)
  {
    p => Comparable(q, p)
  }

  function AgreesIn(q: Query, score: map<nat, real>): Pair -> bool
    requires Valid(q) && Scored(q, score)
  {
    p => Agrees(q, score, p)
  }

  function TiedIn(q: Query, score: map<nat, real>): Pair -> bool
    requires Valid(q) && Scored(q, score)
  {
    p => Tied(q, score, p)
  }

  datatype Tally = Tally(comparable: nat, correct: nat, tied: nat)

  function TallyAt(q: Query, score: map<nat, real>, i: nat, j: nat): Tally
    requires Valid(q) && Scored(q, score)
  {
    var n := |q.candidates|;
    Tally(CountAt(i, j, n, ComparableIn(q)), CountAt(i, j, n, AgreesIn(q, score)), CountAt(i, j, n, TiedIn(q, score)))
  }

  /** The three counts over all pairs: proven, ordered by the score as proven, tied by the score. */
  function FullTally(q: Query, score: map<nat, real>): Tally
    requires Valid(q) && Scored(q, score)
  {
    Tally(|Kept(q, ComparableIn(q))|, |Kept(q, AgreesIn(q, score))|, |Kept(q, TiedIn(q, score))|)
  }

  lemma TallyEnds(q: Query, score: map<nat, real>)
    requires Valid(q) && Scored(q, score)
    ensures TallyAt(q, score, |q.candidates|, |q.candidates| + 1) == FullTally(q, score)
  {
    CountAtEnds(q, ComparableIn(q));
    CountAtEnds(q, AgreesIn(q, score));
    CountAtEnds(q, TiedIn(q, score));
  }

  function WithPair(q: Query, score: map<nat, real>, t: Tally, p: Pair): Tally
    requires Valid(q) && Scored(q, score)
  {
    Tally(t.comparable + (if Comparable(q, p) then 1 else 0), t.correct + (if Agrees(q, score, p) then 1 else 0),
          t.tied + (if Tied(q, score, p) then 1 else 0))
  }

  lemma TallyStep(q: Query, score: map<nat, real>, i: nat, j: nat)
    requires Valid(q) && Scored(q, score) && i < j
    ensures TallyAt(q, score, i, j + 1) == WithPair(q, score, TallyAt(q, score, i, j), (i, j))
  {
  }

  method CountRow(q: Query, score: map<nat, real>, start: Tally, i: nat) returns (tally: Tally)
    requires Valid(q) && Scored(q, score) && i < |q.candidates| && start == TallyAt(q, score, i, i + 1)
    ensures tally == TallyAt(q, score, i, |q.candidates|)
  {
    tally := start;
    var j := i + 1;
    while j < |q.candidates|
      invariant i + 1 <= j <= |q.candidates| && tally == TallyAt(q, score, i, j)
    {
      tally := CountPair(q, score, tally, i, j);
      j := j + 1;
    }
  }

  method CountPair(q: Query, score: map<nat, real>, start: Tally, i: nat, j: nat) returns (tally: Tally)
    requires Valid(q) && Scored(q, score) && i < j < |q.candidates| && start == TallyAt(q, score, i, j)
    ensures tally == TallyAt(q, score, i, j + 1)
  {
    TallyStep(q, score, i, j);
    tally := start;
    var d := Direction(q, q.candidates[i], q.candidates[j]);
    if d.Some? {
      var difference := score[q.candidates[i]] - score[q.candidates[j]];
      tally := Tally(tally.comparable + 1, tally.correct + (if Sign(difference) == d.value then 1 else 0),
                     tally.tied + (if difference == 0.0 then 1 else 0));
    }
    assert tally == WithPair(q, score, start, (i, j));
  }

  /** Pairwise-order accuracy: the double loop over candidate pairs. */
  method CountPairs(q: Query, score: map<nat, real>) returns (tally: Tally)
    requires Valid(q) && Scored(q, score)
    ensures tally == FullTally(q, score)
  {
    tally := Tally(0, 0, 0);
    var i := 0;
    while i < |q.candidates|
      invariant i <= |q.candidates| && tally == TallyAt(q, score, i, i + 1)
    {
      tally := CountRow(q, score, tally, i);
      i := i + 1;
    }
    TallyEnds(q, score);
  }

  /** The pairs counted at all are exactly those that every completion orders the same way; the tied ones among
      them are those the score leaves level. */
  lemma ComparableMeansProven(q: Query, score: map<nat, real>, p: Pair)
    requires Valid(q) && Scored(q, score) && p.0 < p.1 < |q.candidates|
    ensures Comparable(q, p) <==> exists d :: OrderProven(q, q.candidates[p.0], q.candidates[p.1], d)
    ensures Tied(q, score, p) <==>
            Comparable(q, p) && !(score[q.candidates[p.0]] < score[q.candidates[p.1]])
            && !(score[q.candidates[p.0]] > score[q.candidates[p.1]])
  {
    var a, b := q.candidates[p.0], q.candidates[p.1];
    forall d: int
      ensures Direction(q, a, b) == Some(d) <==> OrderProven(q, a, b, d)
    {
      DirectionIffProven(q, a, b, d);
    }
    if Comparable(q, p) {
      assert OrderProven(q, a, b, Direction(q, a, b).value);
    }
  }

  /** The pairs counted correct are exactly those the score orders as every completion does. */
  lemma CorrectMeansProven(q: Query, score: map<nat, real>, p: Pair)
    requires Valid(q) && Scored(q, score) && p.0 < p.1 < |q.candidates|
    ensures
      var a, b := q.candidates[p.0], q.candidates[p.1];
      Agrees(q, score, p) <==> OrderProven(q, a, b, Sign(score[a] - score[b]))
  {
    DirectionIffProven(q, q.candidates[p.0], q.candidates[p.1],
                       Sign(score[q.candidates[p.0]] - score[q.candidates[p.1]]));
  }

  function EarliestOf(q: Query, ranked: seq<nat>, k: nat): Option<real>
    requires Valid(q) && forall c :: c in ranked ==> c in q.candidates
  {
    if |ranked| >= k then Earliest(q, ranked[..k]) else None
  }

  function HitsOf(q: Query, ranked: seq<nat>, k: nat): Option<nat>
    requires Valid(q)
  {
    if |ranked| > k then Hits(q, ranked, k) else None
  }

  // ----- what the reported values mean -----

  ghost predicate TimeIs(q: Query, c: nat, v: real)
    requires Valid(q) && c in q.candidates
  {
    forall t :: Completes(q, t) ==> t[c] == v
  }

  ghost predicate ReturnsWithin(q: Query, c: nat, w: real, b: bool)
    requires Valid(q) && c in q.candidates
  {
    forall t :: Completes(q, t) ==> (t[c] < w) == b
  }

  ghost predicate EarliestIs(q: Query, selected: seq<nat>, v: real)
    requires Valid(q) && |selected| > 0 && forall c :: c in selected ==> c in q.candidates
  {
    forall t :: Completes(q, t) ==> MinTime(t, selected) == v
  }

  function TimeOf(q: Query, victim: nat): Option<real>
    requires Valid(q) && victim in q.candidates
  {
    if victim in q.censored then None else Some(q.remaining[victim])
  }

  lemma TimeMeans(q: Query, victim: nat)
    requires Valid(q) && victim in q.candidates
    ensures forall v :: TimeOf(q, victim) == Some(v) <==> TimeIs(q, victim, v)
  {
    var soon, late := q.observed + 1.0, q.observed + 2.0;
    CompletionCompletes(q, soon);
    CompletionCompletes(q, late);
    assert victim in q.censored ==> Completion(q, soon)[victim] == soon && Completion(q, late)[victim] == late;
    assert victim !in q.censored ==> Completion(q, soon)[victim] == q.remaining[victim];
  }

  lemma DiscardedMeans(q: Query, victim: nat, w: real)
    requires Valid(q) && victim in q.candidates
    ensures forall b :: DiscardedWithin(q, victim, w) == Some(b) <==> ReturnsWithin(q, victim, w, b)
  {
    forall b
      ensures DiscardedWithin(q, victim, w) == Some(b) <==> ReturnsWithin(q, victim, w, b)
    {
      DiscardedIffDetermined(q, victim, w, b);
    }
  }

  lemma EarliestMeans(q: Query, selected: seq<nat>)
    requires Valid(q) && |selected| > 0 && forall c :: c in selected ==> c in q.candidates
    ensures forall v :: Earliest(q, selected) == Some(v) <==> EarliestIs(q, selected, v)
  {
    forall v
      ensures Earliest(q, selected) == Some(v) <==> EarliestIs(q, selected, v)
    {
      EarliestIffDetermined(q, selected, v);
    }
  }

  /** The ranking: all candidates, once each, the highest score first and the lower number first in a tie. */
  ghost predicate Ranks(q: Query, score: map<nat, real>, ranked: seq<nat>)
    requires Scored(q, score)
  {
    && |ranked| == |q.candidates| && Distinct(ranked) && Elements(ranked) == Elements(q.candidates)
    && (forall c :: c in ranked ==> c in q.candidates)
    && forall i, j :: 0 <= i < j < |ranked| ==>
         score[ranked[i]] > score[ranked[j]] || (score[ranked[i]] == score[ranked[j]] && ranked[i] < ranked[j])
  }

  /** The victim's own values are reported exactly when every completion gives the same one. */
  ghost predicate VictimMeans(q: Query, m: Metrics)
    requires Valid(q)
  {
    && m.victim in q.candidates
    && (m.victimCensored <==> m.victim in q.censored)
    && (forall v :: m.victimTime == Some(v) <==> TimeIs(q, m.victim, v))
    && (forall b :: m.discarded30 == Some(b) <==> ReturnsWithin(q, m.victim, 30.0, b))
    && (forall b :: m.discarded180 == Some(b) <==> ReturnsWithin(q, m.victim, 180.0, b))
  }

  /** The earliest return among the first `k` is reported exactly when every completion gives the same one. */
  ghost predicate EarliestReported(q: Query, ranked: seq<nat>, k: nat, reported: Option<real>)
    requires Valid(q) && 1 <= k && forall c :: c in ranked ==> c in q.candidates
  {
    if |ranked| < k then reported.None?
    else forall v :: reported == Some(v) <==> EarliestIs(q, ranked[..k], v)
  }

  /** A reported number of hits is the one every completion gives; one that every completion gives is withheld
      exactly when more than `k` candidates are censored and none of the first `k` is. */
  ghost predicate HitsReported(q: Query, ranked: seq<nat>, k: nat, reported: Option<nat>)
    requires Valid(q) && 1 <= k
  {
    if |ranked| <= k then reported.None?
    else
      var picked := Elements(ranked[..k]);
      && (reported.Some? ==> HitsDetermined(q, picked, k, reported.value))
      && ((exists v :: HitsDetermined(q, picked, k, v)) <==>
            reported.Some? || (|Censored(q)| > k && picked !! Censored(q)))
  }

  lemma HitsMeans(q: Query, score: map<nat, real>, ranked: seq<nat>, k: nat)
    requires Valid(q) && Scored(q, score) && InWindow(q) && 1 <= k && Ranks(q, score, ranked)
    ensures HitsReported(q, ranked, k, HitsOf(q, ranked, k))
  {
    if |ranked| > k {
      ReportedVersusDetermined(q, ranked, k);
    }
  }

  lemma EarliestOfMeans(q: Query, ranked: seq<nat>, k: nat)
    requires Valid(q) && 1 <= k && forall c :: c in ranked ==> c in q.candidates
    ensures EarliestReported(q, ranked, k, EarliestOf(q, ranked, k))
  {
    if |ranked| >= k {
      EarliestMeans(q, ranked[..k]);
    }
  }

  lemma SortRanks(q: Query, score: map<nat, real>)
    requires Valid(q) && Scored(q, score)
    ensures Ranks(q, score, SortDescending(q.candidates, score))
  {
    SortIsDescending(q.candidates, score);
    var ranked := SortDescending(q.candidates, score);
    DistinctCount(q.candidates);
    assert Elements(ranked) == Elements(q.candidates);
    CountMeansDistinct(ranked);
  }

  /** All metrics of one score, with the ranking they refer to. */
  method ScoreQuery(q: Query, score: map<nat, real>) returns (m: Metrics, ranked: seq<nat>)
    requires Valid(q) && Scored(q, score) && |q.candidates| > 0
    ensures m.pairs == FullTally(q, score)
    ensures Ranks(q, score, ranked) && m.victim == ranked[0] && VictimMeans(q, m)
    ensures EarliestReported(q, ranked, 2, m.earliest2) && EarliestReported(q, ranked, 4, m.earliest4)
    ensures InWindow(q) ==>
              && HitsReported(q, ranked, 1, m.cold1) && HitsReported(q, ranked, 2, m.cold2)
              && HitsReported(q, ranked, 3, m.cold3)
  {
    var pairs := CountPairs(q, score);
    ranked := SortDescending(q.candidates, score);
    SortRanks(q, score);
    var victim := ranked[0];
    m := Metrics(pairs, victim, TimeOf(q, victim), victim in q.censored,
                 DiscardedWithin(q, victim, 30.0), DiscardedWithin(q, victim, 180.0),
                 HitsOf(q, ranked, 1), HitsOf(q, ranked, 2), HitsOf(q, ranked, 3),
                 EarliestOf(q, ranked, 2), EarliestOf(q, ranked, 4));
    TimeMeans(q, victim);
    DiscardedMeans(q, victim, 30.0);
    DiscardedMeans(q, victim, 180.0);
    EarliestOfMeans(q, ranked, 2);
    EarliestOfMeans(q, ranked, 4);
    if InWindow(q) {
      HitsMeans(q, score, ranked, 1);
      HitsMeans(q, score, ranked, 2);
      HitsMeans(q, score, ranked, 3);
    }
  }
}
