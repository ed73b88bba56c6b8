/** Cold precision at K: how many of the K candidates ranked coldest are among the K that really return
    last. With censored times the set of the K latest may or may not be known. */
module ColdPrecision {
  import opened Common
  import opened CensoredMetrics

  function Elements(s: seq<nat>): set<nat> {
    set c | c in s
  }

  lemma {:induction false} DistinctCount(s: seq<nat>)
    requires Distinct(s)
    ensures |Elements(s)| == |s|
  {
    if |s| > 0 {
      var init := s[..|s| - 1];
      DistinctCount(init);
      assert Elements(s) == Elements(init) + {s[|s| - 1]};
    }
  }

  lemma SubsetSmaller(a: set<nat>, b: set<nat>)
    requires a <= b
    ensures |a| <= |b|
    ensures |a| == |b| ==> a == b
  {
    assert b == a + (b - a);
  }

  // ----- sorting by descending key, then ascending id -----

  predicate Keyed(s: seq<nat>, key: map<nat, real>) {
    forall c :: c in s ==> c in key
  }

  predicate Descending(s: seq<nat>, key: map<nat, real>)
    requires Keyed(s, key)
  {
    forall i, j :: 0 <= i < j < |s| ==> key[s[i]] > key[s[j]] || (key[s[i]] == key[s[j]] && s[i] <= s[j])
  }

  function Insert(c: nat, s: seq<nat>, key: map<nat, real>): (r: seq<nat>)
    requires c in key && Keyed(s, key)
    ensures |r| == |s| + 1 && Keyed(r, key)
    ensures forall x :: x in r <==> x == c || x in s
  {
    if |s| == 0 then [c]
    else if key[c] > key[s[0]] || (key[c] == key[s[0]] && c <= s[0]) then [c] + s
    else [s[0]] + Insert(c, s[1..], key)
  }

  lemma ConsDescending(c: nat, s: seq<nat>, key: map<nat, real>)
    requires c in key && Keyed(s, key) && Descending(s, key)
    requires forall x :: x in s ==> key[c] > key[x] || (key[c] == key[x] && c <= x)
    ensures Descending([c] + s, key)
  {
  }

  lemma {:induction false} InsertDescending(c: nat, s: seq<nat>, key: map<nat, real>)
    requires c in key && Keyed(s, key) && Descending(s, key)
    ensures Descending(Insert(c, s, key), key)
  {
    if |s| == 0 {
    } else if key[c] > key[s[0]] || (key[c] == key[s[0]] && c <= s[0]) {
      ConsDescending(c, s, key);
    } else {
      InsertDescending(c, s[1..], key);
      ConsDescending(s[0], Insert(c, s[1..], key), key);
    }
  }

  function SortDescending(s: seq<nat>, key: map<nat, real>): (r: seq<nat>)
    requires Keyed(s, key)
    ensures |r| == |s| && Keyed(r, key)
    ensures forall x :: x in r <==> x in s
  {
    if |s| == 0 then [] else Insert(s[0], SortDescending(s[1..], key), key)
  }

  lemma {:induction false} SortIsDescending(s: seq<nat>, key: map<nat, real>)
    requires Keyed(s, key)
    ensures Descending(SortDescending(s, key), key)
  {
    if |s| > 0 {
      SortIsDescending(s[1..], key);
      InsertDescending(s[0], SortDescending(s[1..], key), key);
    }
  }

  lemma CountMeansDistinct(s: seq<nat>)
    requires |Elements(s)| == |s|
    ensures Distinct(s)
  {
    if |s| > 0 {
      var init := s[..|s| - 1];
      assert Elements(s) == Elements(init) + {s[|s| - 1]};
      ElementsAtMost(init);
      CountMeansDistinct(init);
      assert s[|s| - 1] in init ==> Elements(s) == Elements(init);
    }
  }

  lemma ElementsAtMost(s: seq<nat>)
    ensures |Elements(s)| <= |s|
  {
    if |s| > 0 {
      var init := s[..|s| - 1];
      ElementsAtMost(init);
      assert Elements(s) == Elements(init) + {s[|s| - 1]};
    }
  }

  // ----- the reported set -----

  function Censored(q: Query): set<nat> {
    set c | c in q.candidates && c in q.censored
  }

  function Unknown(q: Query, cs: seq<nat>): (r: seq<nat>)
    ensures forall c :: c in r <==> c in cs && c in q.censored
    ensures |r| <= |cs|
  {
    if |cs| == 0 then []
    else if cs[0] in q.censored then [cs[0]] + Unknown(q, cs[1..])
    else Unknown(q, cs[1..])
  }

  /** Censored candidates first, then the observed ones from the latest to the earliest return. */
  function Actual(q: Query): (r: seq<nat>)
    requires Valid(q)
    ensures forall c :: c in r <==> c in q.candidates
  {
    Unknown(q, q.candidates) + SortDescending(Known(q, q.candidates), q.remaining)
  }

  lemma {:induction false} PartsCount(q: Query, cs: seq<nat>)
    ensures |Unknown(q, cs)| + |Known(q, cs)| == |cs|
    ensures Distinct(cs) ==> Distinct(Unknown(q, cs))
  {
    if |cs| > 0 {
      PartsCount(q, cs[1..]);
    }
  }

  lemma ActualDistinct(q: Query)
    requires Valid(q)
    ensures |Actual(q)| == |q.candidates| && Distinct(Actual(q))
    ensures |Unknown(q, q.candidates)| == |Censored(q)| <= |q.candidates|
  {
    PartsCount(q, q.candidates);
    DistinctCount(q.candidates);
    assert Elements(Actual(q)) == Elements(q.candidates);
    CountMeansDistinct(Actual(q));
    DistinctCount(Unknown(q, q.candidates));
    assert Elements(Unknown(q, q.candidates)) == Censored(q);
  }

  lemma ActualShape(q: Query)
    requires Valid(q)
    ensures |Actual(q)| == |q.candidates| && Distinct(Actual(q)) && |Censored(q)| <= |q.candidates|
    ensures forall i :: 0 <= i < |Actual(q)| ==> Actual(q)[i] in q.candidates
    ensures forall i :: 0 <= i < |Actual(q)| ==> (Actual(q)[i] in q.censored <==> i < |Censored(q)|)
    ensures forall i, j :: |Censored(q)| <= i <= j < |Actual(q)| ==>
              q.remaining[Actual(q)[i]] >= q.remaining[Actual(q)[j]]
  {
    ActualDistinct(q);
    SortIsDescending(Known(q, q.candidates), q.remaining);
    ConcatShape(q, Unknown(q, q.candidates), SortDescending(Known(q, q.candidates), q.remaining));
  }

  lemma ConcatShape(q: Query, unknown: seq<nat>, known: seq<nat>)
    requires Keyed(known, q.remaining) && Descending(known, q.remaining)
    requires forall c :: c in unknown ==> c in q.censored
    requires forall c :: c in known ==> c !in q.censored
    ensures forall i :: 0 <= i < |unknown + known| ==> ((unknown + known)[i] in q.censored <==> i < |unknown|)
    ensures forall i :: |unknown| <= i < |unknown + known| ==> (unknown + known)[i] in q.remaining
    ensures forall i, j :: |unknown| <= i <= j < |unknown + known| ==>
              q.remaining[(unknown + known)[i]] >= q.remaining[(unknown + known)[j]]
  {
    var all := unknown + known;
    assert forall i :: 0 <= i < |unknown| ==> all[i] == unknown[i];
    assert forall i :: |unknown| <= i < |all| ==> all[i] == known[i - |unknown|];
  }

  /** The branch of the code that yields a value. */
  predicate Reported(q: Query, k: nat)
    requires Valid(q)
  {
    ActualShape(q);
    && 1 <= k < |q.candidates| && |Censored(q)| <= k
    && (k == |Censored(q)| || q.remaining[Actual(q)[k - 1]] != q.remaining[Actual(q)[k]])
  }

  /** Hits among the `k` candidates ranked coldest; the metric divides them by `k`. */
  function Hits(q: Query, ranked: seq<nat>, k: nat): Option<nat>
    requires Valid(q) && k <= |ranked|
  {
    if Reported(q, k) then
      ActualShape(q);
      Some(|Elements(ranked[..k]) * Elements(Actual(q)[..k])|)
    else None
  }

  // ----- what the data determine -----

  /** `top` is the set of the `k` latest returns under `t`, with nobody tied across its edge. */
  ghost predicate StrictTop(q: Query, t: map<nat, real>, top: set<nat>, k: nat)
    requires Valid(q) && Completes(q, t)
  {
    && |top| == k && top <= Elements(q.candidates)
    && forall x, y :: x in top && y in q.candidates && y !in top ==> t[x] > t[y]
  }

  ghost predicate TopIn(q: Query, t: map<nat, real>, top: set<nat>, k: nat)
    requires Valid(q)
  {
    Completes(q, t) && StrictTop(q, t, top, k)
  }

  lemma LaterInActual(q: Query, t: map<nat, real>, i: nat, j: nat, k: nat)
    requires Valid(q) && InWindow(q) && Reported(q, k) && Completes(q, t)
    requires i < k <= j < |Actual(q)|
    ensures Actual(q)[i] in t && Actual(q)[j] in t && t[Actual(q)[i]] > t[Actual(q)[j]]
  {
    ActualShape(q);
    var actual := Actual(q);
    if i >= |Censored(q)| {
      assert q.remaining[actual[i]] >= q.remaining[actual[k - 1]] >= q.remaining[actual[k]] >= q.remaining[actual[j]];
    }
  }

  lemma ReportedTopHolds(q: Query, k: nat, t: map<nat, real>)
    requires Valid(q) && InWindow(q) && Reported(q, k) && Completes(q, t)
    ensures k <= |Actual(q)| && StrictTop(q, t, Elements(Actual(q)[..k]), k)
  {
    ActualShape(q);
    var actual := Actual(q);
    var first := actual[..k];
    DistinctCount(first);
    assert forall j :: 0 <= j < k ==> actual[j] == first[j] && first[j] in first;
    forall x, y | x in Elements(first) && y in q.candidates && y !in Elements(first)
      ensures t[x] > t[y]
    {
      var i :| 0 <= i < k && first[i] == x;
      assert y in actual;
      var j :| 0 <= j < |actual| && actual[j] == y;
      LaterInActual(q, t, i, j, k);
    }
  }

  lemma TopUnique(q: Query, t: map<nat, real>, top: set<nat>, top': set<nat>, k: nat)
    requires Valid(q) && TopIn(q, t, top, k) && TopIn(q, t, top', k)
    ensures top == top'
  {
    if top <= top' {
      SubsetSmaller(top, top');
    } else if top' <= top {
      SubsetSmaller(top', top);
    } else {
      assert false;
    }
  }

  /** A tie across the edge leaves no strict top set. */
  lemma TieHasNoTop(q: Query, t: map<nat, real>, top: set<nat>, k: nat)
    requires Valid(q) && InWindow(q) && Completes(q, t) && 1 <= k < |q.candidates| && |Censored(q)| < k
    requires !Reported(q, k)
    ensures !StrictTop(q, t, top, k)
  {
    ActualShape(q);
    if StrictTop(q, t, top, k) {
      if Actual(q)[k - 1] in top {
        TiedInside(q, t, top, k);
        assert false;
      } else {
        TiedOutside(q, t, top, k);
        assert false;
      }
    }
  }

  /** With the last place in, everyone tied with it is in too: one candidate too many. */
  lemma TiedInside(q: Query, t: map<nat, real>, top: set<nat>, k: nat)
    requires Valid(q) && InWindow(q) && Completes(q, t) && 1 <= k < |q.candidates| && |Censored(q)| < k
    requires !Reported(q, k) && |Actual(q)| == |q.candidates| && Actual(q)[k - 1] in top
    ensures !StrictTop(q, t, top, k)
  {
    ActualShape(q);
    var actual := Actual(q);
    var v := q.remaining[actual[k]];
    assert q.remaining[actual[k - 1]] == v;
    if StrictTop(q, t, top, k) {
      DistinctCount(actual[..k + 1]);
      forall c | c in actual[..k + 1]
        ensures c in top
      {
        assert t[c] >= v;
      }
      SubsetSmaller(Elements(actual[..k + 1]), top);
    }
  }

  /** With the last place out, only those before it can be in: one candidate too few. */
  lemma TiedOutside(q: Query, t: map<nat, real>, top: set<nat>, k: nat)
    requires Valid(q) && InWindow(q) && Completes(q, t) && 1 <= k < |q.candidates| && |Censored(q)| < k
    requires |Actual(q)| == |q.candidates| && Actual(q)[k - 1] !in top
    ensures !StrictTop(q, t, top, k)
  {
    ActualShape(q);
    var actual := Actual(q);
    var v := q.remaining[actual[k - 1]];
    if StrictTop(q, t, top, k) {
      DistinctCount(actual[..k - 1]);
      forall c | c in top
        ensures c in actual[..k - 1]
      {
        assert c in actual;
        var j :| 0 <= j < |actual| && actual[j] == c;
        assert t[c] > v;
        assert j < k - 1;
        assert actual[..k - 1][j] == c;
      }
      SubsetSmaller(top, Elements(actual[..k - 1]));
    }
  }

  /** With more censored candidates than places, a strict top set holds censored candidates only. */
  lemma CrowdedTop(q: Query, t: map<nat, real>, top: set<nat>, k: nat)
    requires Valid(q) && InWindow(q) && TopIn(q, t, top, k) && |Censored(q)| > k
    ensures top <= Censored(q)
    ensures exists y :: y in Censored(q) && y !in top
  {
    if Censored(q) <= top {
      SubsetSmaller(Censored(q), top);
    }
    var y :| y in Censored(q) && y !in top;
    assert y in q.candidates && t[y] > q.observed;
  }

  lemma CrowdedEdge(q: Query, t: map<nat, real>, top: set<nat>, k: nat) returns (x: nat, y: nat)
    requires Valid(q) && InWindow(q) && TopIn(q, t, top, k) && |Censored(q)| > k >= 1
    ensures x in Censored(q) && y in Censored(q) && x in t && y in t && t[x] > t[y]
  {
    CrowdedTop(q, t, top, k);
    y :| y in Censored(q) && y !in top;
    x :| x in top;
    assert y in q.candidates;
  }

  /** Put the chosen censored candidates after the other censored ones. */
  function Chosen(q: Query, top: set<nat>): map<nat, real>
    requires Valid(q)
  {
    map c | c in q.candidates ::
      if c in q.censored then (if c in top then q.observed + 2.0 else q.observed + 1.0) else q.remaining[c]
  }

  lemma ChosenTop(q: Query, top: set<nat>, k: nat)
    requires Valid(q) && InWindow(q) && |top| == k && top <= Censored(q)
    ensures TopIn(q, Chosen(q, top), top, k)
  {
  }

  ghost predicate CommonTop(q: Query, top: set<nat>, k: nat)
    requires Valid(q)
  {
    forall t :: Completes(q, t) ==> StrictTop(q, t, top, k)
  }

  /** A value is reported exactly when the set of the K latest returns is the same, without ties, in every
      completion of the censored times. */
  lemma ReportedIffTopKnown(q: Query, k: nat)
    requires Valid(q) && InWindow(q) && 1 <= k < |q.candidates|
    ensures Reported(q, k) <==> exists top :: CommonTop(q, top, k)
  {
    if Reported(q, k) {
      ActualShape(q);
      forall t | Completes(q, t)
        ensures StrictTop(q, t, Elements(Actual(q)[..k]), k)
      {
        ReportedTopHolds(q, k, t);
      }
      assert CommonTop(q, Elements(Actual(q)[..k]), k);
    } else {
      forall top: set<nat>
        ensures !CommonTop(q, top, k)
      {
        NoCommonTop(q, top, k);
      }
    }
  }

  lemma NoCommonTop(q: Query, top: set<nat>, k: nat)
    requires Valid(q) && InWindow(q) && 1 <= k < |q.candidates| && !Reported(q, k)
    ensures !CommonTop(q, top, k)
  {
    var late := q.observed + 1.0;
    var t := Completion(q, late);
    CompletionCompletes(q, late);
    assert forall c :: c in Censored(q) ==> t[c] == late;
    if |Censored(q)| == k {
      ActualShape(q);
    } else if |Censored(q)| < k {
      TieHasNoTop(q, t, top, k);
    } else if StrictTop(q, t, top, k) {
      var x, y := CrowdedEdge(q, t, top, k);
      assert false;
    }
  }

  /** Every completion that has a strict top set gives `v` hits, and some completion has one. */
  ghost predicate HitsDetermined(q: Query, picked: set<nat>, k: nat, v: nat)
    requires Valid(q)
  {
    && (exists t, top :: TopIn(q, t, top, k))
    && (forall t, top :: TopIn(q, t, top, k) ==> |picked * top| == v)
  }

  lemma SubsetBetween(small: set<nat>, big: set<nat>, k: nat) returns (s: set<nat>)
    requires small <= big && |small| <= k <= |big|
    ensures small <= s <= big && |s| == k
    decreases k - |small|
  {
    if |small| == k {
      s := small;
    } else {
      if big <= small {
        SubsetSmaller(big, small);
      }
      var x :| x in big && x !in small;
      s := SubsetBetween(small + {x}, big, k);
    }
  }

  /** A reported value is always determined. The converse fails exactly when more candidates are censored
      than there are places and none of the ranked K is censored: the value is then 0 in every completion,
      yet nothing is reported. */
  lemma ReportedVersusDetermined(q: Query, ranked: seq<nat>, k: nat)
    requires Valid(q) && InWindow(q) && 1 <= k < |q.candidates|
    requires Distinct(ranked) && Elements(ranked) == Elements(q.candidates) && |ranked| == |q.candidates|
    ensures Reported(q, k) ==> HitsDetermined(q, Elements(ranked[..k]), k, Hits(q, ranked, k).value)
    ensures
      (exists v :: HitsDetermined(q, Elements(ranked[..k]), k, v)) <==>
      Reported(q, k) || (|Censored(q)| > k && Elements(ranked[..k]) !! Censored(q))
  {
    var picked := Elements(ranked[..k]);
    DistinctCount(ranked[..k]);
    if Reported(q, k) {
      ReportedDetermined(q, ranked, k);
    } else if |Censored(q)| <= k {
      if |Censored(q)| == k {
        ActualShape(q);
      }
      forall t, top
        ensures !TopIn(q, t, top, k)
      {
        if Completes(q, t) {
          TieHasNoTop(q, t, top, k);
        }
      }
    } else if picked !! Censored(q) {
      CrowdedMiss(q, picked, k);
    } else {
      CrowdedVaries(q, picked, k);
    }
  }

  lemma ReportedDetermined(q: Query, ranked: seq<nat>, k: nat)
    requires Valid(q) && InWindow(q) && k <= |ranked| && Reported(q, k)
    ensures HitsDetermined(q, Elements(ranked[..k]), k, Hits(q, ranked, k).value)
  {
    ActualShape(q);
    var top := Elements(Actual(q)[..k]);
    CompletionCompletes(q, q.observed + 1.0);
    ReportedTopHolds(q, k, Completion(q, q.observed + 1.0));
    assert TopIn(q, Completion(q, q.observed + 1.0), top, k);
    forall t, top' | TopIn(q, t, top', k)
      ensures top' == top
    {
      ReportedTopHolds(q, k, t);
      TopUnique(q, t, top, top', k);
    }
  }

  lemma CrowdedMiss(q: Query, picked: set<nat>, k: nat)
    requires Valid(q) && InWindow(q) && |Censored(q)| > k && picked !! Censored(q)
    ensures HitsDetermined(q, picked, k, 0)
  {
    var top := SubsetBetween({}, Censored(q), k);
    ChosenTop(q, top, k);
    forall t, top' | TopIn(q, t, top', k)
      ensures |picked * top'| == 0
    {
      CrowdedTop(q, t, top', k);
      assert picked * top' == {};
    }
  }

  lemma CrowdedVaries(q: Query, picked: set<nat>, k: nat)
    requires Valid(q) && InWindow(q) && |Censored(q)| > k >= 1 && |picked| == k
    requires !(picked !! Censored(q))
    ensures forall v :: !HitsDetermined(q, picked, k, v)
  {
    var x :| x in picked && x in Censored(q);
    if Censored(q) <= picked {
      SubsetSmaller(Censored(q), picked);
    }
    var y :| y in Censored(q) && y !in picked;
    assert |Censored(q) - {y}| == |Censored(q)| - 1;
    var top := SubsetBetween({x}, Censored(q) - {y}, k);
    SwapTop(picked, top, x, y);
    ChosenTop(q, top, k);
    ChosenTop(q, top - {x} + {y}, k);
  }

  lemma SwapTop(picked: set<nat>, top: set<nat>, x: nat, y: nat)
    requires x in picked && x in top && y !in picked && y !in top
    ensures |top - {x} + {y}| == |top|
    ensures |picked * (top - {x} + {y})| + 1 == |picked * top|
  {
    assert picked * top == picked * (top - {x} + {y}) + {x};
  }
}
