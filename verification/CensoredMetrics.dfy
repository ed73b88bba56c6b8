/** Ranking metrics over right-censored return times. A censored time is only known to lie beyond the
    observation window; a completion fixes every such time. A metric may be reported only when all
    completions agree on it. */
module CensoredMetrics {
  import opened Common

  datatype Query = Query(candidates: seq<nat>, remaining: map<nat, real>, censored: set<nat>, observed: real)

  predicate Distinct(s: seq<nat>) {
    forall i, j :: 0 <= i < j < |s| ==> s[i] != s[j]
  }

  predicate Valid(q: Query) {
    Distinct(q.candidates) && forall c :: c in q.candidates ==> c in q.censored || c in q.remaining
  }

  /** Observed returns lie inside the observation window. */
  predicate InWindow(q: Query)
    requires Valid(q)
  {
    forall c :: c in q.candidates && c !in q.censored ==> q.remaining[c] <= q.observed
  }

  ghost predicate Completes(q: Query, t: map<nat, real>)
    requires Valid(q)
  {
    forall c :: c in q.candidates ==>
      && c in t
      && (if c in q.censored then t[c] > q.observed else t[c] == q.remaining[c])
  }

  /** The completion in which every censored time is `late`. */
  function Completion(q: Query, late: real): map<nat, real>
    requires Valid(q)
  {
    map c | c in q.candidates :: if c in q.censored then late else q.remaining[c]
  }

  function Sign(x: real): int {
    if x > 0.0 then 1 else if x < 0.0 then -1 else 0
  }

  // ----- pairwise direction -----

  function Direction(q: Query, a: nat, b: nat): Option<int>
    requires Valid(q) && a in q.candidates && b in q.candidates
  {
    var ca, cb := a in q.censored, b in q.censored;
    if !ca && !cb then
      var d := q.remaining[a] - q.remaining[b];
      if d != 0.0 then Some(Sign(d)) else None
    else if ca && !cb && q.remaining[b] <= q.observed then Some(1)
    else if cb && !ca && q.remaining[a] <= q.observed then Some(-1)
    else None
  }

  ghost predicate OrderProven(q: Query, a: nat, b: nat, d: int)
    requires Valid(q) && a in q.candidates && b in q.candidates
  {
    d != 0 && forall t :: Completes(q, t) ==> Sign(t[a] - t[b]) == d
  }

  lemma CompletionCompletes(q: Query, late: real)
    requires Valid(q) && late > q.observed
    ensures Completes(q, Completion(q, late))
  {
  }

  /** A direction is returned exactly when every completion orders the pair that way. */
  lemma DirectionIffProven(q: Query, a: nat, b: nat, d: int)
    requires Valid(q) && a in q.candidates && b in q.candidates
    ensures Direction(q, a, b) == Some(d) <==> OrderProven(q, a, b, d)
  {
    var base := q.observed + 1.0;
    var t := Completion(q, base);
    CompletionCompletes(q, base);
    if a in q.censored && b !in q.censored && q.remaining[b] > q.observed {
      assert Completes(q, t[a := q.remaining[b]]);
    } else if b in q.censored && a !in q.censored && q.remaining[a] > q.observed {
      assert Completes(q, t[b := q.remaining[a]]);
    } else {
      assert t[a] == if a in q.censored then base else q.remaining[a];
      assert t[b] == if b in q.censored then base else q.remaining[b];
    }
  }

  // ----- earliest return of a selection -----

  function MinTime(t: map<nat, real>, selected: seq<nat>): real
    requires |selected| > 0 && forall c :: c in selected ==> c in t
  {
    var first := t[selected[0]];
    if |selected| == 1 then first
    else
      var rest := MinTime(t, selected[1..]);
      if first <= rest then first else rest
  }

  function Known(q: Query, selected: seq<nat>): (known: seq<nat>)
    ensures forall c :: c in known <==> c in selected && c !in q.censored
  {
    if |selected| == 0 then []
    else if selected[0] in q.censored then Known(q, selected[1..])
    else [selected[0]] + Known(q, selected[1..])
  }

  function Earliest(q: Query, selected: seq<nat>): Option<real>
    requires Valid(q) && forall c :: c in selected ==> c in q.candidates
  {
    var known := Known(q, selected);
    if |known| == 0 then None
    else
      var value := MinTime(q.remaining, known);
      if (forall c :: c in selected ==> c !in q.censored) || value <= q.observed then Some(value) else None
  }

  lemma MinTimeIsLeast(t: map<nat, real>, selected: seq<nat>)
    requires |selected| > 0 && forall c :: c in selected ==> c in t
    ensures forall c :: c in selected ==> MinTime(t, selected) <= t[c]
    ensures exists c :: c in selected && MinTime(t, selected) == t[c]
  {
    if |selected| == 1 {
      assert selected[0] in selected;
    } else {
      MinTimeIsLeast(t, selected[1..]);
      var c :| c in selected[1..] && MinTime(t, selected[1..]) == t[c];
      var least := if t[selected[0]] <= t[c] then selected[0] else c;
      assert least in selected && MinTime(t, selected) == t[least];
    }
  }

  /** The earliest return of a nonempty selection is reported exactly when all completions agree on it. */
  lemma EarliestIffDetermined(q: Query, selected: seq<nat>, v: real)
    requires Valid(q) && |selected| > 0 && forall c :: c in selected ==> c in q.candidates
    ensures Earliest(q, selected) == Some(v) <==>
            forall t :: Completes(q, t) ==> MinTime(t, selected) == v
  {
    var known := Known(q, selected);
    forall t | Completes(q, t) && Earliest(q, selected) == Some(v)
      ensures MinTime(t, selected) == v
    {
      MinTimeIsLeast(t, selected);
      MinTimeIsLeast(q.remaining, known);
    }
    if (forall t :: Completes(q, t) ==> MinTime(t, selected) == v) && Earliest(q, selected) != Some(v) {
      var near, far := q.observed + 1.0, q.observed + 2.0;
      if |known| > 0 {
        MinTimeIsLeast(q.remaining, known);
        var least := MinTime(q.remaining, known);
        near := if least > q.observed then (q.observed + least) / 2.0 else near;
        far := if least > q.observed then least else far;
      }
      CompletionCompletes(q, near);
      CompletionCompletes(q, far);
      MinTimeIsLeast(Completion(q, near), selected);
      MinTimeIsLeast(Completion(q, far), selected);
      assert MinTime(Completion(q, near), selected) == v == MinTime(Completion(q, far), selected);
      EarliestWitness(q, selected, near, far, v);
    }
  }

  lemma EarliestWitness(q: Query, selected: seq<nat>, near: real, far: real, v: real)
    requires Valid(q) && |selected| > 0 && forall c :: c in selected ==> c in q.candidates
    requires q.observed < near < far
    requires |Known(q, selected)| > 0 && MinTime(q.remaining, Known(q, selected)) > q.observed ==>
               far == MinTime(q.remaining, Known(q, selected))
    requires MinTime(Completion(q, near), selected) == v == MinTime(Completion(q, far), selected)
    ensures Earliest(q, selected) == Some(v)
  {
    if c :| c in selected && c in q.censored {
      CensoredWitness(q, selected, c, near, far, v);
    } else {
      ObservedWitness(q, selected, near, v);
    }
  }

  lemma ObservedWitness(q: Query, selected: seq<nat>, near: real, v: real)
    requires Valid(q) && |selected| > 0 && forall c :: c in selected ==> c in q.candidates && c !in q.censored
    requires MinTime(Completion(q, near), selected) == v
    ensures Earliest(q, selected) == Some(v)
  {
    MinTimeIsLeast(Completion(q, near), selected);
    var d :| d in selected && Completion(q, near)[d] == v;
    CompletionAt(q, near, d);
    assert d in Known(q, selected);
    LeastIsObserved(q, selected, d, near, v);
  }

  lemma CensoredWitness(q: Query, selected: seq<nat>, c: nat, near: real, far: real, v: real)
    requires Valid(q) && |selected| > 0 && forall c :: c in selected ==> c in q.candidates
    requires c in selected && c in q.censored && q.observed < near < far
    requires |Known(q, selected)| > 0 && MinTime(q.remaining, Known(q, selected)) > q.observed ==>
               far == MinTime(q.remaining, Known(q, selected))
    requires MinTime(Completion(q, near), selected) == v == MinTime(Completion(q, far), selected)
    ensures Earliest(q, selected) == Some(v)
  {
    var d := EarliestObserved(q, selected, c, near, far, v);
    LeastIsObserved(q, selected, d, near, v);
  }

  lemma LeastIsObserved(q: Query, selected: seq<nat>, d: nat, near: real, v: real)
    requires Valid(q) && |selected| > 0 && forall c :: c in selected ==> c in q.candidates
    requires d in Known(q, selected) && q.remaining[d] == v == MinTime(Completion(q, near), selected)
    ensures |Known(q, selected)| > 0 && MinTime(q.remaining, Known(q, selected)) == v
  {
    MinTimeIsLeast(Completion(q, near), selected);
    MinTimeIsLeast(q.remaining, Known(q, selected));
    var e :| e in Known(q, selected) && q.remaining[e] == MinTime(q.remaining, Known(q, selected));
    assert v <= Completion(q, near)[e];
  }

  /** The minimum of a completion whose censored times are later than it belongs to an observed candidate. */
  lemma EarliestObserved(q: Query, selected: seq<nat>, c: nat, near: real, far: real, v: real) returns (d: nat)
    requires Valid(q) && |selected| > 0 && forall c :: c in selected ==> c in q.candidates
    requires c in selected && c in q.censored && near < far
    requires MinTime(Completion(q, near), selected) == v == MinTime(Completion(q, far), selected)
    ensures d in Known(q, selected) && d in q.remaining && q.remaining[d] == v <= near
  {
    MinTimeIsLeast(Completion(q, near), selected);
    assert v <= Completion(q, near)[c] == near;
    MinTimeIsLeast(Completion(q, far), selected);
    d :| d in selected && Completion(q, far)[d] == v;
    CompletionAt(q, far, d);
  }

  lemma CompletionAt(q: Query, late: real, c: nat)
    requires Valid(q) && c in q.candidates
    ensures Completion(q, late)[c] == if c in q.censored then late else q.remaining[c]
  {
  }

  // ----- discarding the victim within w -----

  function DiscardedWithin(q: Query, victim: nat, w: real): Option<bool>
    requires Valid(q) && victim in q.candidates
  {
    if victim !in q.censored || q.observed >= w
    then Some(victim !in q.censored && q.remaining[victim] < w)
    else None
  }

  /** The victim's return within `w` is reported exactly when all completions agree on it. */
  lemma DiscardedIffDetermined(q: Query, victim: nat, w: real, b: bool)
    requires Valid(q) && victim in q.candidates
    ensures DiscardedWithin(q, victim, w) == Some(b) <==>
            forall t :: Completes(q, t) ==> (t[victim] < w) == b
  {
    CompletionCompletes(q, q.observed + 1.0);
    var t0 := Completion(q, q.observed + 1.0);
    assert victim !in q.censored ==> t0[victim] == q.remaining[victim];
    if victim in q.censored && q.observed < w {
      var soon, late := Completion(q, (q.observed + w) / 2.0), Completion(q, w);
      CompletionCompletes(q, (q.observed + w) / 2.0);
      CompletionCompletes(q, w);
      assert soon[victim] < w && !(late[victim] < w);
    }
  }

  // ----- class labels -----

  /** How many bin edges are at or below `x`; the edges ascend. */
  function ClassOf(bins: seq<real>, x: real): (c: nat)
    ensures c <= |bins|
  {
    if |bins| == 0 || x < bins[0] then 0 else 1 + ClassOf(bins[1..], x)
  }

  predicate Ascending(bins: seq<real>) {
    forall i, j :: 0 <= i < j < |bins| ==> bins[i] <= bins[j]
  }

  /** A value belongs to the class above every edge that it reaches. */
  lemma {:induction false} ClassHolds(bins: seq<real>, x: real, i: nat)
    requires Ascending(bins) && i < |bins|
    ensures i < ClassOf(bins, x) <==> bins[i] <= x
  {
    if x < bins[0] {
      assert i > 0 ==> bins[0] <= bins[i];
    } else if i > 0 {
      ClassHolds(bins[1..], x, i - 1);
    }
  }

  datatype Label = Label(remaining: Option<real>, class_: int, censored: bool, valid: bool)

  function LabelOf(query: real, nextEntry: Option<real>, observed: real, bins: seq<real>): Label
    requires |bins| > 0
  {
    if nextEntry.Some? && query < nextEntry.value <= observed then
      var remaining := nextEntry.value - query;
      Label(Some(remaining), ClassOf(bins, remaining), false, true)
    else
      var beyond := observed - query >= bins[|bins| - 1];
      Label(None, if beyond then |bins| else -1, true, beyond)
  }

  /** The remaining times the observation leaves possible. */
  predicate Possible(query: real, nextEntry: Option<real>, observed: real, x: real) {
    if nextEntry.Some? && query < nextEntry.value <= observed then x == nextEntry.value - query
    else x > observed - query
  }

  ghost predicate OneClass(query: real, nextEntry: Option<real>, observed: real, bins: seq<real>, c: int) {
    forall x :: Possible(query, nextEntry, observed, x) ==> ClassOf(bins, x) == c
  }

  /** A remaining time is given exactly when it is the only possible one; without it the label is censored, and
      an undetermined class is -1. */
  lemma LabelTells(query: real, nextEntry: Option<real>, observed: real, bins: seq<real>, v: real)
    requires |bins| > 0
    ensures
      var l := LabelOf(query, nextEntry, observed, bins);
      && (l.remaining == Some(v) <==> OnlyPossible(query, nextEntry, observed, v))
      && (l.censored <==> l.remaining.None?)
      && (l.remaining.Some? ==> l.valid && l.class_ == ClassOf(bins, l.remaining.value))
      && (!l.valid ==> l.class_ == -1)
  {
    var later := observed - query + 1.0;
    assert later + 1.0 != later;
    if !(nextEntry.Some? && query < nextEntry.value <= observed) {
      assert Possible(query, nextEntry, observed, later) && Possible(query, nextEntry, observed, later + 1.0);
    } else {
      assert Possible(query, nextEntry, observed, nextEntry.value - query);
    }
  }

  ghost predicate OnlyPossible(query: real, nextEntry: Option<real>, observed: real, v: real) {
    forall x :: Possible(query, nextEntry, observed, x) <==> x == v
  }

  lemma ClassFull(bins: seq<real>, x: real)
    requires |bins| > 0 && Ascending(bins)
    ensures ClassOf(bins, x) == |bins| <==> x >= bins[|bins| - 1]
  {
    if |bins| > 1 {
      assert bins[0] <= bins[|bins| - 1];
      assert bins[1..][|bins| - 2] == bins[|bins| - 1];
      ClassFull(bins[1..], x);
    }
  }

  /** A label is marked valid exactly when every possible remaining time falls in one class, which is then
      the class it carries. */
  lemma LabelValidIffDetermined(query: real, nextEntry: Option<real>, observed: real, bins: seq<real>)
    requires |bins| > 0 && Ascending(bins)
    ensures
      var l := LabelOf(query, nextEntry, observed, bins);
      && (l.valid <==> exists c :: OneClass(query, nextEntry, observed, bins, c))
      && (l.valid ==> OneClass(query, nextEntry, observed, bins, l.class_))
  {
    var l := LabelOf(query, nextEntry, observed, bins);
    var last := bins[|bins| - 1];
    if l.valid {
      forall x | Possible(query, nextEntry, observed, x)
        ensures ClassOf(bins, x) == l.class_
      {
        ClassFull(bins, x);
      }
      assert OneClass(query, nextEntry, observed, bins, l.class_);
    } else {
      var soon := (observed - query + last) / 2.0;
      assert Possible(query, nextEntry, observed, soon) && Possible(query, nextEntry, observed, last);
      ClassFull(bins, soon);
      ClassFull(bins, last);
      assert ClassOf(bins, soon) != ClassOf(bins, last);
    }
  }
}
