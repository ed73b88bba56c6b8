/** Every field of a page's metadata is determined by the log of events the page has seen.
    The functions below read the log only; the theorems equate them, field by field and then all
    together, with the fold of the write sections over the log. */
module PageHistory {
  import opened Common
  import opened PackedWords
  import opened PageMetadata

  datatype Event =
    | Alloc
    | Touch(now: nat, run: nat, again: nat)                                // real access
    | Untrusted                                                            // any other access mark
    | Move(generation: nat, now: nat)
    | Evaluate(lruGen: int)                                                // candidate evaluation
    | Claim(dir: Direction, tag: nat, expected: int, run: nat)
    | Release(dir: Direction, tag: nat, run: nat)
    | Action(action: nat)

  predicate WellFormed(e: Event) {
    match e
    case Touch(now, run, _) => now < WORD_LIMIT && run < 256
    case Move(generation, now) => generation < 4 && now < WORD_LIMIT
    case Claim(_, tag, _, _) => 1 <= tag < 4096
    case Release(_, tag, _) => 1 <= tag < 4096
    case Action(action) => action < 8
    case _ => true
  }

  predicate WellFormedLog(log: seq<Event>) {
    forall i :: 0 <= i < |log| ==> WellFormed(log[i])
  }

  function Apply(p: Page, e: Event): (p': Page)
    requires p.Valid() && WellFormed(e)
    ensures p'.Valid()
  {
    match e
    case Alloc => Allocated(p)
    case Touch(now, run, again) => RealAccess(p, now, run, again)
    case Untrusted => UntrustedAccess(p)
    case Move(generation, now) => Moved(p, generation, now)
    case Evaluate(lruGen) => Evaluated(p, lruGen)
    case Claim(dir, tag, expected, run) => AfterClaim(p, dir, tag, expected, run)
    case Release(dir, tag, run) => AfterRelease(p, dir, tag, run)
    case Action(action) => WithAction(p, action)
  }

  function Fold(log: seq<Event>): (p: Page)
    requires WellFormedLog(log)
    ensures p.Valid()
  {
    if |log| == 0 then FRESH else Apply(Fold(log[..|log| - 1]), log[|log| - 1])
  }

  // ----- what the log says -----

  datatype Stamp = Never | At(now: nat, run: nat)

  function LastTouch(log: seq<Event>): Stamp {
    if |log| == 0 then Never
    else
      match log[|log| - 1]
      case Alloc => Never
      case Touch(now, run, _) => At(now, run)
      case _ => LastTouch(log[..|log| - 1])
  }

  function RunOf(log: seq<Event>): nat {
    match LastTouch(log)
    case Never => 0
    case At(_, run) => run
  }

  /** Evaluations after the last real access (or allocation). */
  function Evaluations(log: seq<Event>): nat {
    if |log| == 0 then 0
    else
      match log[|log| - 1]
      case Alloc => 0
      case Touch(_, _, _) => 0
      case Evaluate(_) => Evaluations(log[..|log| - 1]) + 1
      case _ => Evaluations(log[..|log| - 1])
  }

  /** Sections completed since allocation. */
  function Sections(log: seq<Event>): nat {
    if |log| == 0 || log[|log| - 1].Alloc? then 0 else Sections(log[..|log| - 1]) + 1
  }

  /** A real access at `now` follows another one of the activation it sees, in time to measure the gap. */
  predicate Unbroken(before: seq<Event>, now: nat, again: nat) {
    LastTouch(before).At? && RunOf(before) == again && ElapsedValid(now, LastTouch(before).now)
  }

  /** Saturated gaps between consecutive real accesses of one activation, since the last break. */
  function Intervals(log: seq<Event>): (intervals: seq<nat>)
    ensures forall i :: 0 <= i < |intervals| ==> intervals[i] <= U16_MAX
  {
    if |log| == 0 then []
    else
      var before := log[..|log| - 1];
      match log[|log| - 1]
      case Alloc => []
      case Touch(now, _, again) =>
        if Unbroken(before, now, again) then Intervals(before) + [Sat16(Elapsed(now, LastTouch(before).now))] else []
      case _ => Intervals(before)
  }

  /** The access average: raised by unbroken accesses, restarted by others, lowered by evaluations. */
  function AccessAverage(log: seq<Event>): (average: nat)
    ensures average < 256
  {
    if |log| == 0 then 0
    else
      var before := log[..|log| - 1];
      match log[|log| - 1]
      case Alloc => 0
      case Touch(now, _, again) => AccessEmaOnAccess(if Unbroken(before, now, again) then AccessAverage(before) else 0)
      case Evaluate(_) => AccessEmaOnCandidate(AccessAverage(before))
      case _ => AccessAverage(before)
  }

  /** When the page came to its generation; 0 when it never moved. */
  function EnteredAt(log: seq<Event>): nat {
    if |log| == 0 then 0
    else
      var before := log[..|log| - 1];
      match log[|log| - 1]
      case Alloc => 0
      case Move(generation, now) =>
        if EnteredAt(before) == 0 || GenerationOf(before) != generation then now else EnteredAt(before)
      case _ => EnteredAt(before)
  }

  /** The last action stored, unless an allocation or an access in another activation came after. */
  function PendingAction(log: seq<Event>): nat {
    if |log| == 0 then 0
    else
      var before := log[..|log| - 1];
      match log[|log| - 1]
      case Alloc => 0
      case Touch(_, run, _) => if run == RunOf(before) then PendingAction(before) else 0
      case Action(action) => action
      case _ => PendingAction(before)
  }

  function Allocations(log: seq<Event>): nat {
    if |log| == 0 then 0 else Allocations(log[..|log| - 1]) + if log[|log| - 1].Alloc? then 1 else 0
  }

  /** Lifetimes count allocations in 1..2^32-1 and never return to 0. */
  function LifetimeOf(allocations: nat): nat {
    if allocations == 0 then 0 else 1 + (allocations - 1) % (WORD_LIMIT - 1)
  }

  function GenerationOf(log: seq<Event>): nat {
    if |log| == 0 then 0
    else
      match log[|log| - 1]
      case Alloc => 0
      case Move(generation, _) => generation
      case _ => GenerationOf(log[..|log| - 1])
  }

  /** Evidence became doubtful after the last real access. */
  predicate Doubtful(log: seq<Event>) {
    if |log| == 0 then false
    else
      var before := log[..|log| - 1];
      match log[|log| - 1]
      case Alloc => false
      case Touch(_, _, _) => false
      case Untrusted => LastTouch(before).At? || Doubtful(before)
      case Evaluate(lruGen) => Doubtful(before) || lruGen != GenerationOf(before)
      case _ => Doubtful(before)
  }

  predicate ClaimSucceeds(log: seq<Event>, dir: Direction, tag: nat, expected: int, run: nat)
    decreases |log|, 1
  {
    && (expected >= 0 ==> expected == 2 * Sections(log) % 2048)
    && run == RunOf(log)
    && tag != HeldTag(log, dir)
  }

  /** The tag claimed for a direction and not given back since; 0 when there is none. */
  function HeldTag(log: seq<Event>, dir: Direction): nat
    decreases |log|, 0
  {
    if |log| == 0 then 0
    else
      var before := log[..|log| - 1];
      match log[|log| - 1]
      case Alloc => 0
      case Touch(_, run, _) => if run == RunOf(before) then HeldTag(before, dir) else 0
      case Claim(dir', tag, expected, run) =>
        if dir' == dir && ClaimSucceeds(before, dir, tag, expected, run) then tag else HeldTag(before, dir)
      case Release(dir', tag, run) =>
        if dir' == dir && run == RunOf(before) && HeldTag(before, dir) == tag then 0 else HeldTag(before, dir)
      case _ => HeldTag(before, dir)
  }

  function EmaOf(intervals: seq<nat>): (ema: nat)
    requires forall i :: 0 <= i < |intervals| ==> intervals[i] <= U16_MAX
    ensures ema <= U16_MAX
  {
    if |intervals| == 0 then 0
    else IntervalEma(EmaOf(intervals[..|intervals| - 1]), intervals[|intervals| - 1])
  }

  // ----- the fold is what the log says -----

  lemma EvenStep(n: nat)
    ensures (2 * n % 2048 + 2) % 2048 == 2 * (n + 1) % 2048
    ensures 2 * n % 2048 % 2 == 0
  {
    var q, r := n / 1024, n % 1024;
    assert 2 * n == 2048 * q + 2 * r;
    assert 2 * n % 2048 == 2 * r;
    if r == 1023 {
      assert 2 * (n + 1) == 2048 * (q + 1);
    } else {
      assert 2 * (n + 1) == 2048 * q + (2 * r + 2);
    }
  }

  lemma SectionBumps(p: Page, e: Event)
    requires p.Valid() && WellFormed(e) && !e.Alloc? && !Refused(p)
    ensures Apply(p, e).state.sequence == (p.state.sequence + 2) % 2048
  {
  }

  /** The sequence counts sections, so it is even whenever no section is open. */
  lemma {:induction false} SequenceCountsSections(log: seq<Event>)
    requires WellFormedLog(log)
    ensures Fold(log).state.sequence == 2 * Sections(log) % 2048
  {
    if |log| > 0 {
      var before := log[..|log| - 1];
      SequenceCountsSections(before);
      if !log[|log| - 1].Alloc? {
        EvenStep(Sections(before));
        SectionBumps(Fold(before), log[|log| - 1]);
      }
    }
  }

  lemma {:induction false} NeverRefused(log: seq<Event>)
    requires WellFormedLog(log)
    ensures !Refused(Fold(log))
  {
    SequenceCountsSections(log);
    EvenStep(Sections(log));
  }

  lemma AccessApply(p: Page, e: Event)
    requires p.Valid() && WellFormed(e) && !Refused(p)
    ensures
      var p' := Apply(p, e);
      match e
      case Alloc => !p'.state.initialized && p'.lastAccess == p'.epochs.run == 0
      case Touch(now, run, _) => p'.state.initialized && p'.lastAccess == now && p'.epochs.run == run
      case _ =>
        p'.state.initialized == p.state.initialized && p'.lastAccess == p.lastAccess && p'.epochs.run == p.epochs.run
  {
  }

  lemma {:induction false} AccessFieldsFollowLog(log: seq<Event>)
    requires WellFormedLog(log)
    ensures Fold(log).state.initialized <==> LastTouch(log).At?
    ensures Fold(log).lastAccess == (match LastTouch(log) case Never => 0 case At(now, _) => now)
    ensures Fold(log).epochs.run == RunOf(log)
  {
    if |log| > 0 {
      var before := log[..|log| - 1];
      AccessFieldsFollowLog(before);
      NeverRefused(before);
      AccessApply(Fold(before), log[|log| - 1]);
    }
  }

  lemma CandidateApply(p: Page, e: Event)
    requires p.Valid() && WellFormed(e) && !Refused(p)
    ensures
      var candidates := Apply(p, e).state.candidates;
      match e
      case Alloc => candidates == 0
      case Touch(_, _, _) => candidates == 0
      case Evaluate(_) => candidates == Min(p.state.candidates + 1, 63)
      case _ => candidates == p.state.candidates
  {
  }

  lemma {:induction false} CandidateCountFollowsLog(log: seq<Event>)
    requires WellFormedLog(log)
    ensures Fold(log).state.candidates == Min(63, Evaluations(log))
  {
    if |log| > 0 {
      var before := log[..|log| - 1];
      CandidateCountFollowsLog(before);
      NeverRefused(before);
      CandidateApply(Fold(before), log[|log| - 1]);
    }
  }

  lemma GenerationApply(p: Page, e: Event)
    requires p.Valid() && WellFormed(e) && !Refused(p)
    ensures
      var state := Apply(p, e).state;
      match e
      case Alloc => state.generation == 0 && !state.uncertain
      case Touch(_, _, _) => state.generation == p.state.generation && !state.uncertain
      case Untrusted =>
        state.generation == p.state.generation && (state.uncertain <==> p.state.uncertain || p.state.initialized)
      case Move(generation, _) => state.generation == generation && state.uncertain == p.state.uncertain
      case Evaluate(lruGen) =>
        state.generation == p.state.generation
        && (state.uncertain <==> p.state.uncertain || p.state.generation != lruGen)
      case _ => state.generation == p.state.generation && state.uncertain == p.state.uncertain
  {
  }

  lemma {:induction false} DoubtFollowsLog(log: seq<Event>)
    requires WellFormedLog(log)
    ensures Fold(log).state.generation == GenerationOf(log)
    ensures Fold(log).state.uncertain == Doubtful(log)
  {
    if |log| > 0 {
      var before := log[..|log| - 1];
      DoubtFollowsLog(before);
      NeverRefused(before);
      AccessFieldsFollowLog(before);
      GenerationApply(Fold(before), log[|log| - 1]);
    }
  }

  lemma TagApply(p: Page, e: Event, dir: Direction)
    requires p.Valid() && WellFormed(e) && !Refused(p)
    ensures
      var held, held' := TagOf(p.epochs, dir), TagOf(Apply(p, e).epochs, dir);
      match e
      case Alloc => held' == 0
      case Touch(_, run, _) => held' == if run == p.epochs.run then held else 0
      case Claim(dir', tag, expected, run) =>
        held' == if dir' == dir && ClaimOutcome(p, dir, tag, expected, run).Claimed? then tag else held
      case Release(dir', tag, run) => held' == if dir' == dir && run == p.epochs.run && held == tag then 0 else held
      case _ => held' == held
  {
  }

  lemma {:induction false} TagsFollowLog(log: seq<Event>, dir: Direction)
    requires WellFormedLog(log)
    ensures TagOf(Fold(log).epochs, dir) == HeldTag(log, dir)
  {
    if |log| > 0 {
      var before := log[..|log| - 1];
      TagsFollowLog(before, dir);
      SequenceCountsSections(before);
      NeverRefused(before);
      AccessFieldsFollowLog(before);
      TagApply(Fold(before), log[|log| - 1], dir);
    }
  }

  lemma EmaAppend(intervals: seq<nat>, sample: nat)
    requires sample <= U16_MAX && forall i :: 0 <= i < |intervals| ==> intervals[i] <= U16_MAX
    ensures EmaOf(intervals + [sample]) == IntervalEma(EmaOf(intervals), sample)
  {
    assert (intervals + [sample])[..|intervals|] == intervals;
  }

  /** A real access continues the page's intervals exactly when the log says it is unbroken. */
  lemma ContinuesIffUnbroken(log: seq<Event>, now: nat, again: nat)
    requires WellFormedLog(log)
    ensures Continues(Fold(log), now, again) <==> Unbroken(log, now, again)
  {
    AccessFieldsFollowLog(log);
  }

  lemma IntervalApply(p: Page, e: Event)
    requires p.Valid() && WellFormed(e) && !Refused(p)
    ensures
      var p' := Apply(p, e);
      match e
      case Alloc => p'.prevInterval == p'.intervalEma == 0
      case Touch(now, _, again) =>
        if Continues(p, now, again) then
          && p'.prevInterval == Sat16(Elapsed(now, p.lastAccess))
          && p'.intervalEma == IntervalEma(p.intervalEma, Sat16(Elapsed(now, p.lastAccess)))
        else p'.prevInterval == p'.intervalEma == 0
      case _ => p'.prevInterval == p.prevInterval && p'.intervalEma == p.intervalEma
  {
  }

  lemma {:induction false} IntervalFieldsFollowLog(log: seq<Event>)
    requires WellFormedLog(log)
    ensures Fold(log).prevInterval == if |Intervals(log)| == 0 then 0 else Intervals(log)[|Intervals(log)| - 1]
    ensures Fold(log).intervalEma == EmaOf(Intervals(log))
  {
    if |log| > 0 {
      var before, e := log[..|log| - 1], log[|log| - 1];
      IntervalFieldsFollowLog(before);
      NeverRefused(before);
      IntervalApply(Fold(before), e);
      if e.Touch? {
        AccessFieldsFollowLog(before);
        ContinuesIffUnbroken(before, e.now, e.again);
        if Unbroken(before, e.now, e.again) {
          EmaAppend(Intervals(before), Sat16(Elapsed(e.now, LastTouch(before).now)));
        }
      }
    }
  }

  lemma AverageApply(p: Page, e: Event)
    requires p.Valid() && WellFormed(e) && !Refused(p)
    ensures
      var average := Apply(p, e).state.access;
      match e
      case Alloc => average == 0
      case Touch(now, _, again) => average == AccessEmaOnAccess(if Continues(p, now, again) then p.state.access else 0)
      case Evaluate(_) => average == AccessEmaOnCandidate(p.state.access)
      case _ => average == p.state.access
  {
  }

  lemma {:induction false} AverageFollowsLog(log: seq<Event>)
    requires WellFormedLog(log)
    ensures Fold(log).state.access == AccessAverage(log)
  {
    if |log| > 0 {
      var before, e := log[..|log| - 1], log[|log| - 1];
      AverageFollowsLog(before);
      NeverRefused(before);
      AverageApply(Fold(before), e);
      if e.Touch? {
        ContinuesIffUnbroken(before, e.now, e.again);
      }
    }
  }

  lemma EntryApply(p: Page, e: Event)
    requires p.Valid() && WellFormed(e) && !Refused(p)
    ensures
      var entered := Apply(p, e).genEnter;
      match e
      case Alloc => entered == 0
      case Move(generation, now) =>
        entered == if p.genEnter == 0 || p.state.generation != generation then now else p.genEnter
      case _ => entered == p.genEnter
  {
  }

  lemma {:induction false} EntryFollowsLog(log: seq<Event>)
    requires WellFormedLog(log)
    ensures Fold(log).genEnter == EnteredAt(log)
  {
    if |log| > 0 {
      var before := log[..|log| - 1];
      EntryFollowsLog(before);
      NeverRefused(before);
      DoubtFollowsLog(before);
      EntryApply(Fold(before), log[|log| - 1]);
    }
  }

  lemma ActionApply(p: Page, e: Event)
    requires p.Valid() && WellFormed(e) && !Refused(p)
    ensures
      var action := Apply(p, e).state.action;
      match e
      case Alloc => action == 0
      case Touch(_, run, _) => action == if run == p.epochs.run then p.state.action else 0
      case Action(stored) => action == stored
      case _ => action == p.state.action
  {
  }

  lemma {:induction false} ActionFollowsLog(log: seq<Event>)
    requires WellFormedLog(log)
    ensures Fold(log).state.action == PendingAction(log)
  {
    if |log| > 0 {
      var before := log[..|log| - 1];
      ActionFollowsLog(before);
      NeverRefused(before);
      AccessFieldsFollowLog(before);
      ActionApply(Fold(before), log[|log| - 1]);
    }
  }

  lemma LifetimeStep(n: nat)
    ensures LifetimeOf(n + 1) == if LifetimeOf(n) + 1 == WORD_LIMIT then 1 else LifetimeOf(n) + 1
  {
    if n > 0 {
      var cycle := WORD_LIMIT - 1;
      var q, r := (n - 1) / cycle, (n - 1) % cycle;
      assert n - 1 == q * cycle + r;
      if r == cycle - 1 {
        assert n == (q + 1) * cycle;
      } else {
        assert n == q * cycle + (r + 1);
      }
    }
  }

  lemma {:induction false} LifetimeFollowsLog(log: seq<Event>)
    requires WellFormedLog(log)
    ensures Fold(log).lifetime == LifetimeOf(Allocations(log))
  {
    if |log| > 0 {
      var before := log[..|log| - 1];
      LifetimeFollowsLog(before);
      LifetimeStep(Allocations(before));
    }
  }

  /** The page the log describes. */
  function PageOf(log: seq<Event>): Page {
    var intervals := Intervals(log);
    Page(
      match LastTouch(log) case Never => 0 case At(now, _) => now,
      if |intervals| == 0 then 0 else intervals[|intervals| - 1],
      EmaOf(intervals), EnteredAt(log), LifetimeOf(Allocations(log)),
      StateWord(AccessAverage(log), Min(63, Evaluations(log)), GenerationOf(log), PendingAction(log),
                LastTouch(log).At?, Doubtful(log), 2 * Sections(log) % 2048),
      EpochWord(HeldTag(log, Upgrade), HeldTag(log, Downgrade), RunOf(log)))
  }

  /** The whole page, every field of it, is what the log says. */
  lemma PageFollowsLog(log: seq<Event>)
    requires WellFormedLog(log)
    ensures Fold(log) == PageOf(log)
  {
    SequenceCountsSections(log);
    AccessFieldsFollowLog(log);
    CandidateCountFollowsLog(log);
    DoubtFollowsLog(log);
    TagsFollowLog(log, Upgrade);
    TagsFollowLog(log, Downgrade);
    IntervalFieldsFollowLog(log);
    AverageFollowsLog(log);
    EntryFollowsLog(log);
    ActionFollowsLog(log);
    LifetimeFollowsLog(log);
  }

  /** The smoothed interval never leaves the range of the intervals folded into it. */
  lemma {:induction false} EmaWithinIntervals(intervals: seq<nat>)
    requires |intervals| > 0
    requires forall i :: 0 <= i < |intervals| ==> intervals[i] <= U16_MAX
    ensures exists lo, hi :: 0 <= lo < |intervals| && 0 <= hi < |intervals|
                             && intervals[lo] <= EmaOf(intervals) <= intervals[hi]
  {
    var last := |intervals| - 1;
    var sample := intervals[last];
    var before := intervals[..last];
    if last == 0 {
      assert intervals[0] <= EmaOf(intervals) <= intervals[0];
    } else {
      EmaWithinIntervals(before);
      var lo, hi :| 0 <= lo < last && 0 <= hi < last && before[lo] <= EmaOf(before) <= before[hi];
      var lo' := if EmaOf(before) <= sample then lo else last;
      var hi' := if EmaOf(before) >= sample then hi else last;
      assert intervals[lo'] <= EmaOf(intervals) <= intervals[hi'];
    }
  }

  lemma AccessEmaSteps(a: nat)
    requires a == 0 || 3 <= a <= 255
    ensures 3 <= AccessEmaOnAccess(a) <= 255
    ensures if a == 0 then AccessEmaOnCandidate(a) == 0 else 3 <= AccessEmaOnCandidate(a) <= 255
  {
  }

  lemma {:induction false} AverageRange(log: seq<Event>)
    ensures if LastTouch(log).At? then 3 <= AccessAverage(log) <= 255 else AccessAverage(log) == 0
  {
    if |log| > 0 {
      var before := log[..|log| - 1];
      AverageRange(before);
      AccessEmaSteps(AccessAverage(before));
      AccessEmaSteps(0);
    }
  }

  /** Once a page has been accessed its access average stays in 3..255; before that it is 0. */
  lemma AccessEmaRange(log: seq<Event>)
    requires WellFormedLog(log)
    ensures
      var state := Fold(log).state;
      if state.initialized then 3 <= state.access <= 255 else state.access == 0
  {
    AverageRange(log);
    AverageFollowsLog(log);
    AccessFieldsFollowLog(log);
  }

  // ----- what an evaluation hands out -----

  /** The features of an evaluation at `now`, read off the log. */
  function FeaturesOf(log: seq<Event>, now: nat): Features {
    var intervals := Intervals(log);
    var touched := match LastTouch(log) case Never => 0 case At(then_, _) => then_;
    var evaluations := Evaluations(log) + 1;
    var average := AccessAverage(log);
    Features((now - touched) % 0x1_0000_0000,
             if |intervals| == 0 then 0 else intervals[|intervals| - 1],
             EmaOf(intervals),
             if evaluations <= 63 then evaluations else 63,
             (now - EnteredAt(log)) % 0x1_0000_0000,
             average - average / 4)
  }

  /** The evidence counts: accessed and moved, at clock times other than 0 and at most half the clock's range
      ago, in activation `run`, with nothing in doubt and the list's generation. */
  predicate EvidenceOk(log: seq<Event>, now: nat, lruGen: int, run: nat) {
    && LastTouch(log).At? && LastTouch(log).now != 0 && EnteredAt(log) != 0
    && (now - LastTouch(log).now) % 0x1_0000_0000 < 0x8000_0000
    && (now - EnteredAt(log)) % 0x1_0000_0000 < 0x8000_0000
    && LastTouch(log).run == run && !Doubtful(log) && GenerationOf(log) == lruGen
  }

  /** An evaluation hands out what the log says: the six features, whether they count, whether they are in
      doubt, and the sequence its own section leaves. */
  lemma {:induction false} EvaluationFollowsLog(log: seq<Event>, now: nat, lruGen: int, run: nat)
    requires WellFormedLog(log)
    ensures
      var ev := EvaluationOf(Fold(log), now, lruGen, run);
      && ev.values == FeaturesOf(log, now)
      && (ev.valid <==> EvidenceOk(log, now, lruGen, run))
      && (ev.uncertain <==> Doubtful(log) || GenerationOf(log) != lruGen)
      && ev.sequence == 2 * (Sections(log) + 1) % 2048
  {
    NeverRefused(log);
    EvaluatedFeatures(log, now, lruGen, run);
    EvaluatedEvidence(log, now, lruGen, run);
    EvaluatedSequence(log, now, lruGen, run);
  }

  lemma {:induction false} EvaluatedSequence(log: seq<Event>, now: nat, lruGen: int, run: nat)
    requires WellFormedLog(log) && !Refused(Fold(log))
    ensures EvaluationOf(Fold(log), now, lruGen, run).sequence == 2 * (Sections(log) + 1) % 2048
  {
    EvaluationSequence(Fold(log), now, lruGen, run);
    SequenceCountsSections(log);
    NextSequence(Fold(log).state.sequence, Sections(log));
  }

  lemma NextSequence(sequence: nat, sections: nat)
    requires sequence == 2 * sections % 2048
    ensures (sequence + 2) % 2048 == 2 * (sections + 1) % 2048
  {
    EvenStep(sections);
  }

  lemma {:induction false} EvaluatedFeatures(log: seq<Event>, now: nat, lruGen: int, run: nat)
    requires WellFormedLog(log) && !Refused(Fold(log))
    ensures EvaluationOf(Fold(log), now, lruGen, run).values == FeaturesOf(log, now)
  {
    EvaluatedAges(log, now, lruGen, run);
    EvaluatedIntervals(log, now, lruGen, run);
    EvaluatedCounts(log, now, lruGen, run);
  }

  lemma {:induction false} EvaluatedAges(log: seq<Event>, now: nat, lruGen: int, run: nat)
    requires WellFormedLog(log) && !Refused(Fold(log))
    ensures
      var values := EvaluationOf(Fold(log), now, lruGen, run).values;
      && values.accessAge == FeaturesOf(log, now).accessAge
      && values.generationAge == FeaturesOf(log, now).generationAge
  {
    AccessFieldsFollowLog(log);
    EntryFollowsLog(log);
    AgesSince(Fold(log), now, lruGen, run, match LastTouch(log) case Never => 0 case At(then_, _) => then_,
              EnteredAt(log));
  }

  lemma AgesSince(p: Page, now: nat, lruGen: int, run: nat, touched: nat, entered: nat)
    requires !Refused(p) && p.lastAccess == touched && p.genEnter == entered
    ensures
      var values := EvaluationOf(p, now, lruGen, run).values;
      values.accessAge == (now - touched) % 0x1_0000_0000 && values.generationAge == (now - entered) % 0x1_0000_0000
  {
  }

  lemma {:induction false} EvaluatedIntervals(log: seq<Event>, now: nat, lruGen: int, run: nat)
    requires WellFormedLog(log) && !Refused(Fold(log))
    ensures
      var values := EvaluationOf(Fold(log), now, lruGen, run).values;
      && values.prevInterval == FeaturesOf(log, now).prevInterval
      && values.intervalEma == FeaturesOf(log, now).intervalEma
  {
    IntervalFieldsFollowLog(log);
  }

  lemma {:induction false} EvaluatedCounts(log: seq<Event>, now: nat, lruGen: int, run: nat)
    requires WellFormedLog(log) && !Refused(Fold(log))
    ensures
      var values := EvaluationOf(Fold(log), now, lruGen, run).values;
      && values.candidates == FeaturesOf(log, now).candidates
      && values.accessEma == FeaturesOf(log, now).accessEma
  {
    CandidateCountFollowsLog(log);
    AverageFollowsLog(log);
  }

  lemma {:induction false} EvaluatedEvidence(log: seq<Event>, now: nat, lruGen: int, run: nat)
    requires WellFormedLog(log) && !Refused(Fold(log))
    ensures EvaluationOf(Fold(log), now, lruGen, run).valid <==> EvidenceOk(log, now, lruGen, run)
    ensures EvaluationOf(Fold(log), now, lruGen, run).uncertain <==> Doubtful(log) || GenerationOf(log) != lruGen
  {
    AccessFieldsFollowLog(log);
    DoubtFollowsLog(log);
    EntryFollowsLog(log);
  }

  /** The snapshot beside the features is the page's own. */
  lemma {:induction false} SnapshotFollowsLog(log: seq<Event>, now: nat, lruGen: int, run: nat)
    requires WellFormedLog(log)
    ensures
      var touched := match LastTouch(log) case Never => 0 case At(then_, _) => then_;
      var tags := EpochWord(HeldTag(log, Upgrade), HeldTag(log, Downgrade), RunOf(log));
      EvaluationOf(Fold(log), now, lruGen, run).snapshot ==
      Snapshot(touched, EnteredAt(log), LifetimeOf(Allocations(log)), tags, GenerationOf(log), PendingAction(log))
  {
    NeverRefused(log);
    AccessFieldsFollowLog(log);
    EntryFollowsLog(log);
    LifetimeFollowsLog(log);
    TagsFollowLog(log, Upgrade);
    TagsFollowLog(log, Downgrade);
    DoubtFollowsLog(log);
    ActionFollowsLog(log);
  }

  // ----- consequences for claims and cold streaks -----

  predicate ReopensClaim(e: Event, dir: Direction, tag: nat, run: nat) {
    match e
    case Alloc => true
    case Touch(_, run', _) => run' != run
    case Claim(dir', tag', _, _) => dir' == dir && tag' != tag
    case Release(dir', tag', _) => dir' == dir && tag' == tag
    case _ => false
  }

  lemma {:induction false} TagHeldThrough(log: seq<Event>, rest: seq<Event>, dir: Direction, tag: nat, run: nat)
    requires HeldTag(log, dir) == tag && RunOf(log) == run
    requires forall i :: 0 <= i < |rest| ==> !ReopensClaim(rest[i], dir, tag, run)
    ensures HeldTag(log + rest, dir) == tag && RunOf(log + rest) == run
  {
    if |rest| == 0 {
      assert log + rest == log;
    } else {
      var init := rest[..|rest| - 1];
      TagHeldThrough(log, init, dir, tag, run);
      assert (log + rest)[..|log + rest| - 1] == log + init;
    }
  }

  /** Exactly the listed conditions decide a claim. */
  lemma {:induction false} ClaimDecidedByLog(log: seq<Event>, dir: Direction, tag: nat, expected: int, run: nat)
    requires WellFormedLog(log)
    ensures ClaimOutcome(Fold(log), dir, tag, expected, run).Claimed? <==> ClaimSucceeds(log, dir, tag, expected, run)
  {
    SequenceCountsSections(log);
    AccessFieldsFollowLog(log);
    TagsFollowLog(log, dir);
  }

  /** How a claim ends, in every case: a pin to another sequence is a race, another activation is unstable, a tag
      held already is a repeat, and otherwise the claim succeeds with the sequence its section leaves. */
  lemma {:induction false} ClaimEndsByLog(log: seq<Event>, dir: Direction, tag: nat, expected: int, run: nat)
    requires WellFormedLog(log)
    ensures
      var r := ClaimOutcome(Fold(log), dir, tag, expected, run);
      var pinned := expected < 0 || expected == 2 * Sections(log) % 2048;
      && (r.GenerationRace? <==> !pinned)
      && (r.Unstable? <==> pinned && run != RunOf(log))
      && (r.Repeated? <==> pinned && run == RunOf(log) && HeldTag(log, dir) == tag)
      && (r.Claimed? ==> r.sequence == 2 * (Sections(log) + 1) % 2048)
  {
    NeverRefused(log);
    SequenceCountsSections(log);
    AccessFieldsFollowLog(log);
    TagsFollowLog(log, dir);
    ClaimSequenceByLog(log, dir, tag, expected, run);
  }

  lemma {:induction false} ClaimSequenceByLog(log: seq<Event>, dir: Direction, tag: nat, expected: int, run: nat)
    requires WellFormedLog(log)
    ensures
      var r := ClaimOutcome(Fold(log), dir, tag, expected, run);
      r.Claimed? ==> r.sequence == 2 * (Sections(log) + 1) % 2048
  {
    SequenceCountsSections(log);
    ClaimSequenceOf(Fold(log), dir, tag, expected, run, Sections(log));
  }

  lemma ClaimSequenceOf(p: Page, dir: Direction, tag: nat, expected: int, run: nat, sections: nat)
    requires p.state.sequence == 2 * sections % 2048
    ensures
      var r := ClaimOutcome(p, dir, tag, expected, run);
      r.Claimed? ==> r.sequence == 2 * (sections + 1) % 2048
  {
    NextSequence(p.state.sequence, sections);
  }

  lemma ClaimTakesTag(log: seq<Event>, dir: Direction, tag: nat, expected: int, run: nat)
    requires ClaimSucceeds(log, dir, tag, expected, run)
    ensures HeldTag(log + [Claim(dir, tag, expected, run)], dir) == tag
    ensures RunOf(log + [Claim(dir, tag, expected, run)]) == run
  {
    var claimed := log + [Claim(dir, tag, expected, run)];
    assert claimed[..|claimed| - 1] == log;
  }

  /** A claim that succeeded blocks every later claim of the same direction and tag until the page is
      reallocated, touched in another activation, released, or claimed under another tag. */
  lemma SecondClaimFails(log: seq<Event>, rest: seq<Event>, dir: Direction, tag: nat,
                         expected: int, expected': int, run: nat, run': nat)
    requires WellFormedLog(log) && WellFormedLog(rest) && 1 <= tag < 4096
    requires ClaimOutcome(Fold(log), dir, tag, expected, run).Claimed?
    requires forall i :: 0 <= i < |rest| ==> !ReopensClaim(rest[i], dir, tag, run)
    ensures WellFormedLog(log + [Claim(dir, tag, expected, run)] + rest)
    ensures !ClaimOutcome(Fold(log + [Claim(dir, tag, expected, run)] + rest), dir, tag, expected', run').Claimed?
  {
    var claimed := log + [Claim(dir, tag, expected, run)];
    ClaimDecidedByLog(log, dir, tag, expected, run);
    ClaimTakesTag(log, dir, tag, expected, run);
    TagHeldThrough(claimed, rest, dir, tag, run);
    ClaimDecidedByLog(claimed + rest, dir, tag, expected', run');
  }

  /** Releasing a successful claim frees the tag and touches no other field but the sequence. */
  lemma {:induction false} ReleaseUndoesClaim(log: seq<Event>, dir: Direction, tag: nat, expected: int, run: nat)
    requires WellFormedLog(log) && 1 <= tag < 4096
    requires ClaimOutcome(Fold(log), dir, tag, expected, run).Claimed?
    ensures WellFormedLog(log + [Claim(dir, tag, expected, run), Release(dir, tag, run)])
    ensures
      var p, q := Fold(log), Fold(log + [Claim(dir, tag, expected, run), Release(dir, tag, run)]);
      && q == p.(epochs := WithTag(p.epochs, dir, 0), state := Bump(Bump(p.state)))
      && ClaimOutcome(q, dir, tag, -1, run).Claimed?
  {
    var e, e' := Claim(dir, tag, expected, run), Release(dir, tag, run);
    assert log + [e, e'] == log + [e] + [e'];
    FoldAppend(log, e);
    FoldAppend(log + [e], e');
    NeverRefused(log);
    ReleaseAfterClaim(Fold(log), dir, tag, expected, run);
  }

  lemma {:induction false} FoldAppend(log: seq<Event>, e: Event)
    requires WellFormedLog(log) && WellFormed(e)
    ensures WellFormedLog(log + [e]) && Fold(log + [e]) == Apply(Fold(log), e)
  {
    assert (log + [e])[..|log|] == log;
  }

  lemma ReleaseAfterClaim(p: Page, dir: Direction, tag: nat, expected: int, run: nat)
    requires p.Valid() && 1 <= tag && ClaimOutcome(p, dir, tag, expected, run).Claimed?
    ensures
      var q := AfterRelease(AfterClaim(p, dir, tag, expected, run), dir, tag, run);
      && q == p.(epochs := WithTag(p.epochs, dir, 0), state := Bump(Bump(p.state)))
      && ClaimOutcome(q, dir, tag, -1, run).Claimed?
  {
    var claimed := AfterClaim(p, dir, tag, expected, run);
    assert !Refused(claimed) && TagOf(claimed.epochs, dir) == tag && claimed.epochs.run == run;
  }

  lemma {:induction false} SectionsAppend(log: seq<Event>, rest: seq<Event>)
    requires forall i :: 0 <= i < |rest| ==> !rest[i].Alloc?
    ensures Sections(log + rest) == Sections(log) + |rest|
  {
    if |rest| == 0 {
      assert log + rest == log;
    } else {
      SectionsAppend(log, rest[..|rest| - 1]);
      assert (log + rest)[..|log + rest| - 1] == log + rest[..|rest| - 1];
    }
  }

  lemma DoubleModulo(m: nat)
    ensures 2 * m % 2048 == 2 * (m % 1024)
  {
    assert 2 * m == 2048 * (m / 1024) + 2 * (m % 1024);
  }

  lemma SameModulo(a: nat, n: nat)
    ensures (a + n) % 1024 == a % 1024 <==> n % 1024 == 0
  {
    var quotient, remainder := a / 1024 + n / 1024, a % 1024 + n % 1024;
    assert a + n == 1024 * quotient + remainder;
    if remainder >= 1024 {
      assert a + n == 1024 * (quotient + 1) + (remainder - 1024);
    }
  }

  lemma SameSequence(a: nat, n: nat)
    ensures (2 * a % 2048 + 2) % 2048 == 2 * (a + 1 + n) % 2048 <==> n % 1024 == 0
  {
    EvenStep(a);
    DoubleModulo(a + 1);
    DoubleModulo(a + 1 + n);
    SameModulo(a + 1, n);
  }

  /** The sequence that section `e` leaves comes back exactly after a multiple of 1024 sections. */
  lemma {:induction false} SequenceReturns(log: seq<Event>, e: Event, rest: seq<Event>)
    requires WellFormedLog(log) && WellFormed(e) && WellFormedLog(rest) && !e.Alloc?
    requires forall i :: 0 <= i < |rest| ==> !rest[i].Alloc?
    ensures WellFormedLog(log + [e] + rest)
    ensures Fold(log + [e] + rest).state.sequence == (Fold(log).state.sequence + 2) % 2048 <==> |rest| % 1024 == 0
  {
    SectionsAppend(log, [e]);
    SectionsAppend(log + [e], rest);
    SequenceCountsSections(log);
    SequenceCountsSections(log + [e] + rest);
    SameSequence(Sections(log), |rest|);
  }

  /** A claim pinned to the sequence an evaluation returned is turned away exactly when other sections
      ran since, as long as they are not a multiple of 1024. */
  lemma {:induction false} PinnedClaimDetectsWrites(log: seq<Event>, now: nat, lruGen: int, rest: seq<Event>,
                                                    dir: Direction, tag: nat, run: nat)
    requires WellFormedLog(log) && WellFormedLog(rest)
    requires forall i :: 0 <= i < |rest| ==> !rest[i].Alloc?
    ensures WellFormedLog(log + [Evaluate(lruGen)] + rest)
    ensures
      var expected := EvaluationOf(Fold(log), now, lruGen, run).sequence;
      ClaimOutcome(Fold(log + [Evaluate(lruGen)] + rest), dir, tag, expected, run).GenerationRace?
      <==> |rest| % 1024 != 0
  {
    SequenceReturns(log, Evaluate(lruGen), rest);
    NeverRefused(log);
    NeverRefused(log + [Evaluate(lruGen)] + rest);
    EvaluationSequence(Fold(log), now, lruGen, run);
    RaceIffPinMissed(Fold(log + [Evaluate(lruGen)] + rest), dir, tag, (Fold(log).state.sequence + 2) % 2048, run);
  }

  lemma EvaluationSequence(p: Page, now: nat, lruGen: int, run: nat)
    requires p.Valid() && !Refused(p)
    ensures EvaluationOf(p, now, lruGen, run).sequence == (p.state.sequence + 2) % 2048
  {
  }

  lemma RaceIffPinMissed(p: Page, dir: Direction, tag: nat, expected: nat, run: nat)
    requires p.Valid() && !Refused(p)
    ensures ClaimOutcome(p, dir, tag, expected, run).GenerationRace? <==> p.state.sequence != expected
  {
  }

  /** A revalidation with the sequence a successful claim returned holds exactly when the sections since the
      claim are a multiple of 1024, nothing came into doubt, and the activation is the claim's. */
  lemma {:induction false} CommitRevalidates(log: seq<Event>, rest: seq<Event>, dir: Direction, tag: nat,
                                             expected: int, run: nat)
    requires WellFormedLog(log) && WellFormedLog(rest) && 1 <= tag < 4096
    requires ClaimOutcome(Fold(log), dir, tag, expected, run).Claimed?
    requires forall i :: 0 <= i < |rest| ==> !rest[i].Alloc?
    ensures
      var all := log + [Claim(dir, tag, expected, run)] + rest;
      && WellFormedLog(all)
      && (Revalidated(Fold(all), ClaimOutcome(Fold(log), dir, tag, expected, run).sequence, run) <==>
            |rest| % 1024 == 0 && !Doubtful(all) && RunOf(all) == run)
  {
    var e := Claim(dir, tag, expected, run);
    SequenceReturns(log, e, rest);
    RevalidatedByLog(log + [e] + rest, (Fold(log).state.sequence + 2) % 2048, run);
    ClaimedSequence(Fold(log), dir, tag, expected, run);
  }

  /** With fewer than 1024 sections since the claim, a commit that revalidates acts on the page exactly as the
      claim left it, field for field. */
  lemma {:induction false} CommitSeesDecidedPage(log: seq<Event>, rest: seq<Event>, dir: Direction, tag: nat,
                                                 expected: int, run: nat)
    requires WellFormedLog(log) && WellFormedLog(rest) && 1 <= tag < 4096
    requires ClaimOutcome(Fold(log), dir, tag, expected, run).Claimed?
    requires |rest| < 1024 && forall i :: 0 <= i < |rest| ==> !rest[i].Alloc?
    requires WellFormedLog(log + [Claim(dir, tag, expected, run)] + rest)
    requires Revalidated(Fold(log + [Claim(dir, tag, expected, run)] + rest),
                         ClaimOutcome(Fold(log), dir, tag, expected, run).sequence, run)
    ensures rest == []
    ensures Fold(log + [Claim(dir, tag, expected, run)] + rest) == AfterClaim(Fold(log), dir, tag, expected, run)
  {
    var e := Claim(dir, tag, expected, run);
    CommitRevalidates(log, rest, dir, tag, expected, run);
    SmallMultiple(|rest|);
    NothingSince(log, e, rest);
  }

  lemma SmallMultiple(n: nat)
    requires n < 1024 && n % 1024 == 0
    ensures n == 0
  {
  }

  lemma {:induction false} NothingSince(log: seq<Event>, e: Event, rest: seq<Event>)
    requires WellFormedLog(log) && WellFormed(e) && |rest| == 0
    ensures WellFormedLog(log + [e] + rest) && Fold(log + [e] + rest) == Apply(Fold(log), e)
  {
    assert log + [e] + rest == log + [e];
    FoldAppend(log, e);
  }

  lemma {:induction false} RevalidatedByLog(log: seq<Event>, sequence: nat, run: nat)
    requires WellFormedLog(log)
    ensures Revalidated(Fold(log), sequence, run) <==>
            Fold(log).state.sequence == sequence && !Doubtful(log) && RunOf(log) == run
  {
    NeverRefused(log);
    DoubtFollowsLog(log);
    AccessFieldsFollowLog(log);
    RevalidatedIff(Fold(log), sequence, run);
  }

  lemma RevalidatedIff(p: Page, sequence: nat, run: nat)
    requires !Refused(p)
    ensures Revalidated(p, sequence, run) <==>
            p.state.sequence == sequence && !p.state.uncertain && p.epochs.run == run
  {
  }

  lemma ClaimedSequence(p: Page, dir: Direction, tag: nat, expected: int, run: nat)
    requires ClaimOutcome(p, dir, tag, expected, run).Claimed?
    ensures ClaimOutcome(p, dir, tag, expected, run).sequence == (p.state.sequence + 2) % 2048
  {
  }

  function CountEvaluations(log: seq<Event>): nat {
    if |log| == 0 then 0
    else CountEvaluations(log[..|log| - 1]) + (if log[|log| - 1].Evaluate? then 1 else 0)
  }

  /** `log[k]` is a real access of activation `run`, with no access or allocation after it. */
  ghost predicate StreakFrom(log: seq<Event>, k: nat, run: nat) {
    && k < |log| && log[k].Touch? && log[k].run == run
    && forall j :: k < j < |log| ==> !log[j].Touch? && !log[j].Alloc?
  }

  lemma {:induction false} StreakExists(log: seq<Event>) returns (k: nat)
    requires LastTouch(log).At?
    ensures StreakFrom(log, k, RunOf(log))
    ensures CountEvaluations(log[k + 1..]) == Evaluations(log)
  {
    var last := |log| - 1;
    if log[last].Touch? {
      k := last;
    } else {
      var before := log[..last];
      k := StreakExists(before);
      assert log[k + 1..][..|log[k + 1..]| - 1] == before[k + 1..];
      assert log[k] == before[k];
      assert forall j :: k < j < last ==> log[j] == before[j];
    }
  }

  /** A valid evaluation that counts at least two candidates rests on this activation's history alone:
      a real access in this activation, then an earlier evaluation, then the present one, with no real
      access between. */
  lemma ColdStreakInThisRun(log: seq<Event>, now: nat, lruGen: int, run: nat) returns (k: nat)
    requires WellFormedLog(log)
    requires EvaluationOf(Fold(log), now, lruGen, run).valid
    requires EvaluationOf(Fold(log), now, lruGen, run).values.candidates >= 2
    ensures StreakFrom(log, k, run)
    ensures CountEvaluations(log[k + 1..]) >= 1
  {
    AccessFieldsFollowLog(log);
    CandidateCountFollowsLog(log);
    k := StreakExists(log);
  }
}
