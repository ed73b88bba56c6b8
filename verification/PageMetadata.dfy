/** Per-page reuse metadata: what one write section does to it.
    The functions give the effect of a section on the unpacked record; the class ReusePage runs the
    section step by step on the packed words and is proved against them. */
module PageMetadata {
  import opened Common
  import opened PackedWords

  const U16_MAX: nat := 0xFFFF
  const S32_MAX: nat := 0x7FFF_FFFF

  datatype Page = Page(
    lastAccess: nat, prevInterval: nat, intervalEma: nat, genEnter: nat, lifetime: nat,
    state: StateWord, epochs: EpochWord)
  {
    predicate Valid() {
      && lastAccess < WORD_LIMIT && genEnter < WORD_LIMIT && lifetime < WORD_LIMIT
      && prevInterval <= U16_MAX && intervalEma <= U16_MAX
      && state.Valid() && epochs.Valid()
    }
  }

  datatype Direction = Upgrade | Downgrade

  datatype ClaimResult = Claimed(sequence: nat) | GenerationRace | Unstable | Repeated

  /** The six model inputs, in the order of the scoring tables. */
  datatype Features = Features(
    accessAge: nat, prevInterval: nat, intervalEma: nat, candidates: nat, generationAge: nat, accessEma: nat)

  /** The other fields an evaluation reads off the page. */
  datatype Snapshot = Snapshot(
    lastAccess: nat, genEnter: nat, lifetime: nat, epochs: EpochWord, generation: nat, action: nat)

  /** What a candidate evaluation hands to the decision. */
  datatype Evaluation = Evaluation(
    values: Features, valid: bool, uncertain: bool, sequence: nat, snapshot: Snapshot)

  const NO_FEATURES: Features := Features(0, 0, 0, 0, 0, 0)
  const NO_SNAPSHOT: Snapshot := Snapshot(0, 0, 0, EpochWord(0, 0, 0), 0, 0)

  /** Codes of the events that mark or move a page. */
  const PTE_YOUNG: nat := 0
  const MARK_ACCESSED: nat := 1
  const FD_REFERENCE: nat := 2
  const NATIVE_TIER_PROMOTION: nat := 5
  const EVENT_CODES: nat := 9
  const LAST_GENERATION: nat := 3

  predicate IsReal(event: nat) {
    event == PTE_YOUNG || event == MARK_ACCESSED || event == FD_REFERENCE
  }

  const FRESH: Page := Page(0, 0, 0, 0, 0, StateWord(0, 0, 0, 0, false, false, 0), EpochWord(0, 0, 0))

  // ----- clocks and averages -----

  /** 32-bit millisecond clocks subtract modulo 2^32. */
  function Elapsed(now: nat, then_: nat): nat {
    (now - then_) % WORD_LIMIT
  }

  predicate ElapsedValid(now: nat, then_: nat) {
    Elapsed(now, then_) <= S32_MAX
  }

  function Sat16(v: nat): nat {
    Min(v, U16_MAX)
  }

  /** C division by four rounds toward zero. */
  function Quarter(d: int): int {
    if d >= 0 then d / 4 else -(-d / 4)
  }

  function IntervalEma(old_: nat, sample: nat): (ema: nat)
    requires old_ <= U16_MAX
    ensures ema <= U16_MAX
    ensures Min(old_, Sat16(sample)) <= ema <= Max(old_, Sat16(sample))
    ensures old_ == 0 ==> ema == Sat16(sample)
  {
    if old_ == 0 then Sat16(sample) else Sat16(old_ + Quarter(Sat16(sample) - old_))
  }

  function AccessEmaOnAccess(old_: nat): (ema: nat)
    requires old_ < 256
    ensures Min(old_ + 1, 255) <= ema < 256
  {
    if old_ == 0 then 255 else Min(old_ + Max((255 - old_) / 4, 1), 255)
  }

  function AccessEmaOnCandidate(old_: nat): (ema: nat)
    ensures ema <= old_
  {
    old_ - old_ / 4
  }

  /** The elapsed time is the one gap below 2^32 that leads from `then_` to `now`; it counts as valid when it
      is below half the clock's range. */
  lemma ElapsedIsGap(now: nat, then_: nat, gap: nat)
    requires now < WORD_LIMIT && then_ < WORD_LIMIT && gap < WORD_LIMIT
    ensures gap == Elapsed(now, then_) <==> (then_ + gap) % WORD_LIMIT == now
    ensures gap == Elapsed(now, then_) ==> (ElapsedValid(now, then_) <==> gap < 0x8000_0000)
  {
  }

  function Abs(x: int): nat {
    if x < 0 then -x else x
  }

  /** The smoothed interval moves a quarter of the way to the saturated sample, rounded toward staying. */
  lemma IntervalEmaQuarter(old_: nat, sample: nat)
    requires 0 < old_ <= U16_MAX
    ensures
      var moved := Abs(IntervalEma(old_, sample) - old_);
      4 * moved <= Abs((if sample < 0x1_0000 then sample else 0xFFFF) - old_) < 4 * moved + 4
  {
  }

  /** An access takes the average a quarter of the way to 255, at least one step, the first one all the way;
      an evaluation takes a quarter off, rounded down. */
  lemma AccessEmaQuarter(old_: nat)
    requires old_ < 256
    ensures
      var up, down := AccessEmaOnAccess(old_) - old_, old_ - AccessEmaOnCandidate(old_);
      && (old_ == 0 ==> up == 255)
      && (0 < old_ <= 251 ==> 4 * up <= 255 - old_ < 4 * up + 4)
      && (252 <= old_ ==> up == if old_ == 255 then 0 else 1)
      && 4 * down <= old_ < 4 * down + 4
  {
  }

  /** Real accesses are the first three events; moves are the four from the native promotion on. */
  lemma EventKinds(event: nat, generation: int)
    ensures IsReal(event) <==> event <= 2
    ensures IsMove(event, generation) <==> 5 <= event <= 8 && 0 <= generation < 4
  {
  }

  // ----- write sections -----

  /** A section is refused when the sequence it finds is odd. */
  predicate Refused(p: Page) {
    p.state.sequence % 2 == 1
  }

  function Bump(s: StateWord): StateWord {
    s.(sequence := (s.sequence + 2) % 2048)
  }

  function Allocated(p: Page): Page {
    FRESH.(lifetime := if p.lifetime + 1 == WORD_LIMIT then 1 else p.lifetime + 1)
  }

  /** The interval since the last real access is only meaningful inside one activation. */
  predicate Continues(p: Page, now: nat, run: nat) {
    p.state.initialized && p.epochs.run == run && ElapsedValid(now, p.lastAccess)
  }

  /** The activation number is read twice: `run` decides whether the tags start afresh, `again` whether the
      interval counts. */
  function RealAccess(p: Page, now: nat, run: nat, again: nat): Page
    requires p.Valid()
  {
    if Refused(p) then p
    else
      var continues := Continues(p, now, again);
      var newRun := p.epochs.run != run;
      p.(lastAccess := now,
         prevInterval := if continues then Sat16(Elapsed(now, p.lastAccess)) else 0,
         intervalEma := if continues then IntervalEma(p.intervalEma, Elapsed(now, p.lastAccess)) else 0,
         state := Bump(p.state).(
           access := AccessEmaOnAccess(if continues then p.state.access else 0),
           candidates := 0, uncertain := false, initialized := true,
           action := if newRun then 0 else p.state.action),
         epochs := if newRun then EpochWord(0, 0, run) else p.epochs)
  }

  function UntrustedAccess(p: Page): Page {
    if Refused(p) then p
    else p.(state := Bump(p.state).(uncertain := p.state.uncertain || p.state.initialized))
  }

  /** An event code out of range is ignored. */
  function Marked(p: Page, event: nat, now: nat, run: nat, again: nat): Page
    requires p.Valid()
  {
    if event >= EVENT_CODES then p
    else if IsReal(event) then RealAccess(p, now, run, again)
    else UntrustedAccess(p)
  }

  function Moved(p: Page, generation: nat, now: nat): Page {
    if Refused(p) then p
    else p.(state := Bump(p.state).(generation := generation),
            genEnter := if p.genEnter == 0 || p.state.generation != generation then now else p.genEnter)
  }

  predicate IsMove(event: nat, generation: int) {
    NATIVE_TIER_PROMOTION <= event < EVENT_CODES && 0 <= generation <= LAST_GENERATION
  }

  function Evaluated(p: Page, lruGen: int): Page {
    if Refused(p) then p
    else p.(state := Bump(p.state).(
              access := AccessEmaOnCandidate(p.state.access),
              candidates := Min(p.state.candidates + 1, 63),
              uncertain := p.state.uncertain || p.state.generation != lruGen))
  }

  function EvaluationOf(p: Page, now: nat, lruGen: int, run: nat): Evaluation {
    if Refused(p) then Evaluation(NO_FEATURES, false, true, 0, NO_SNAPSHOT) else Measured(p, now, lruGen, run)
  }

  function Measured(p: Page, now: nat, lruGen: int, run: nat): Evaluation {
    Evaluation(
      Features(Elapsed(now, p.lastAccess), p.prevInterval, p.intervalEma,
               Min(p.state.candidates + 1, 63), Elapsed(now, p.genEnter), AccessEmaOnCandidate(p.state.access)),
      && p.state.initialized && !p.state.uncertain
      && ElapsedValid(now, p.lastAccess) && ElapsedValid(now, p.genEnter)
      && p.lastAccess != 0 && p.genEnter != 0
      && p.epochs.run == run && p.state.generation == lruGen,
      p.state.uncertain || p.state.generation != lruGen,
      (p.state.sequence + 2) % 2048,
      Snapshot(p.lastAccess, p.genEnter, p.lifetime, p.epochs, p.state.generation, p.state.action))
  }

  /** Whether the evidence behind a decision still stands: the sequence is the one the decision returned,
      nothing is in doubt, and the activation is the same. */
  predicate Revalidated(p: Page, expected: nat, run: nat) {
    !Refused(p) && p.state.sequence == expected && !p.state.uncertain && p.epochs.run == run
  }

  function TagOf(e: EpochWord, dir: Direction): nat {
    if dir.Upgrade? then e.up else e.down
  }

  function WithTag(e: EpochWord, dir: Direction, tag: nat): EpochWord {
    if dir.Upgrade? then e.(up := tag) else e.(down := tag)
  }

  /** `expected` is negative when the caller does not pin the sequence. */
  function ClaimOutcome(p: Page, dir: Direction, tag: nat, expected: int, run: nat): ClaimResult {
    if Refused(p) then Unstable
    else if expected >= 0 && p.state.sequence != expected then GenerationRace
    else if p.epochs.run != run then Unstable
    else if TagOf(p.epochs, dir) == tag then Repeated
    else Claimed((p.state.sequence + 2) % 2048)
  }

  function AfterClaim(p: Page, dir: Direction, tag: nat, expected: int, run: nat): Page {
    if Refused(p) then p
    else if ClaimOutcome(p, dir, tag, expected, run).Claimed? then
      p.(state := Bump(p.state), epochs := WithTag(p.epochs, dir, tag))
    else p.(state := Bump(p.state))
  }

  function AfterRelease(p: Page, dir: Direction, tag: nat, run: nat): Page {
    if Refused(p) then p
    else if p.epochs.run == run && TagOf(p.epochs, dir) == tag then
      p.(state := Bump(p.state), epochs := WithTag(p.epochs, dir, 0))
    else p.(state := Bump(p.state))
  }

  function WithAction(p: Page, action: nat): Page {
    if Refused(p) then p else p.(state := Bump(p.state).(action := action))
  }

  /** The stored form: four plain counters and the two packed words. */
  class ReusePage {
    var lastAccess: nat
    var prevInterval: nat
    var intervalEma: nat
    var genEnter: nat
    var lifetime: nat
    var stateWord: nat
    var decisionEpochs: nat

    function View(): Page
      reads this
    {
      Page(lastAccess, prevInterval, intervalEma, genEnter, lifetime,
           UnpackState(stateWord), UnpackEpochs(decisionEpochs))
    }

    predicate Valid()
      reads this
    {
      stateWord < WORD_LIMIT && decisionEpochs < WORD_LIMIT && View().Valid()
    }

    constructor ()
      ensures Valid() && View() == FRESH
    {
      lastAccess, prevInterval, intervalEma, genEnter, lifetime := 0, 0, 0, 0, 0;
      stateWord, decisionEpochs := 0, 0;
      ZeroWords();
    }

    method WriteBegin() returns (ok: bool, stable: StateWord)
      requires Valid()
      modifies this`stateWord
      ensures Valid() && stable == old(View()).state
      ensures ok == !old(Refused(View()))
      ensures View() == if ok then old(View()).(state := stable.(sequence := (stable.sequence + 1) % 2048))
                        else old(View())
    {
      stable := UnpackState(stateWord);
      ok := stable.sequence % 2 == 0;
      if ok {
        StateRoundTrip(stable.(sequence := (stable.sequence + 1) % 2048));
        stateWord := PackState(stable.(sequence := (stable.sequence + 1) % 2048));
      }
    }

    /** Publish `fields` with the sequence two past the one the section started from. */
    method WriteEnd(stable: StateWord, fields: StateWord)
      requires Valid() && fields.Valid()
      modifies this`stateWord
      ensures Valid()
      ensures View() == old(View()).(state := fields.(sequence := (stable.sequence + 2) % 2048))
    {
      StateRoundTrip(fields.(sequence := (stable.sequence + 2) % 2048));
      stateWord := PackState(fields.(sequence := (stable.sequence + 2) % 2048));
    }

    method StoreEpochs(e: EpochWord)
      requires Valid() && e.Valid()
      modifies this`decisionEpochs
      ensures Valid() && View() == old(View()).(epochs := e)
    {
      EpochRoundTrip(e);
      decisionEpochs := PackEpochs(e);
    }

    /** The lockless fallback of a refused section; it leaves an odd sequence alone. */
    method MarkUncertain()
      requires Valid()
      modifies this`stateWord
      ensures Valid()
      ensures View() == if old(Refused(View())) then old(View())
                        else old(View()).(state := old(View()).state.(uncertain := true))
    {
      var attempt := 0;
      while attempt < 64
        invariant stateWord == old(stateWord)
        invariant attempt > 0 ==> Refused(View())
      {
        var s := UnpackState(stateWord);
        if s.sequence % 2 == 1 {
          attempt := attempt + 1;
          continue;
        }
        if !s.uncertain {
          StateWordRoundTrip(stateWord);
          StateRoundTrip(s.(uncertain := true));
          stateWord := PackState(s.(uncertain := true));
        }
        return;
      }
    }

    method Allocate()
      requires Valid()
      modifies this
      ensures Valid() && View() == old(Allocated(View()))
    {
      var next := (lifetime + 1) % WORD_LIMIT;
      if next == 0 {
        next := 1;
      }
      lastAccess, prevInterval, intervalEma, genEnter := 0, 0, 0, 0;
      decisionEpochs := 0;
      lifetime := next;
      stateWord := 0;
      ZeroWords();
    }

    method NoteAccess(event: nat, now: nat, run: nat, again: nat) returns (ok: bool)
      requires Valid() && now < WORD_LIMIT && run < 256
      modifies this
      ensures Valid() && ok == (event >= EVENT_CODES || !old(Refused(View())))
      ensures View() == old(Marked(View(), event, now, run, again))
    {
      if event >= EVENT_CODES {
        return true;
      }
      var stable;
      ok, stable := WriteBegin();
      if !ok {
        MarkUncertain();
        return;
      }
      var fields := FoldMark(stable, event, now, run, again);
      WriteEnd(stable, fields);
    }

    method FoldMark(fields: StateWord, event: nat, now: nat, run: nat, again: nat) returns (fields': StateWord)
      requires Valid() && fields.Valid() && fields.sequence % 2 == 0
      requires event < EVENT_CODES && now < WORD_LIMIT && run < 256
      modifies this`lastAccess, this`prevInterval, this`intervalEma, this`decisionEpochs
      ensures Valid() && fields'.Valid() && fields'.sequence == fields.sequence
      ensures View().(state := Bump(fields')) == Marked(old(View()).(state := fields), event, now, run, again)
    {
      fields' := fields;
      if IsReal(event) {
        fields' := FoldAccess(fields, now, run, again);
      } else if fields.initialized {
        fields' := fields.(uncertain := true);
      }
    }

    /** The part of a real access inside its section: clock, interval, tags, and the new state fields. */
    method FoldAccess(fields: StateWord, now: nat, run: nat, again: nat) returns (fields': StateWord)
      requires Valid() && fields.Valid() && fields.sequence % 2 == 0 && now < WORD_LIMIT && run < 256
      modifies this`lastAccess, this`prevInterval, this`intervalEma, this`decisionEpochs
      ensures Valid() && fields'.Valid() && fields'.sequence == fields.sequence
      ensures View().(state := Bump(fields')) == RealAccess(old(View()).(state := fields), now, run, again)
    {
      var epochs := UnpackEpochs(decisionEpochs);
      var accessEma := FoldInterval(fields, epochs, now, again);
      lastAccess := now;
      fields' := fields.(access := AccessEmaOnAccess(accessEma), candidates := 0,
                         uncertain := false, initialized := true);
      fields' := StartRun(fields', epochs, run);
    }

    /** A first access in a new activation starts without tags and without a pending action. */
    method StartRun(fields: StateWord, epochs: EpochWord, run: nat) returns (fields': StateWord)
      requires Valid() && epochs == View().epochs && run < 256
      modifies this`decisionEpochs
      ensures Valid()
      ensures View() == if epochs.run != run then old(View()).(epochs := EpochWord(0, 0, run)) else old(View())
      ensures fields' == if epochs.run != run then fields.(action := 0) else fields
    {
      fields' := fields;
      var next := epochs;
      if epochs.run != run {
        next := EpochWord(0, 0, run);
        fields' := fields.(action := 0);
      }
      StoreEpochs(next);
    }

    method FoldInterval(fields: StateWord, epochs: EpochWord, now: nat, again: nat) returns (accessEma: nat)
      requires Valid() && fields.Valid() && now < WORD_LIMIT
      modifies this`prevInterval, this`intervalEma
      ensures Valid() && accessEma < 256
      ensures
        var p := old(View()).(state := fields, epochs := epochs);
        var interval := Elapsed(now, p.lastAccess);
        if Continues(p, now, again) then
          && accessEma == fields.access
          && View() ==
             old(View()).(prevInterval := Sat16(interval), intervalEma := IntervalEma(p.intervalEma, interval))
        else accessEma == 0 && View() == old(View()).(prevInterval := 0, intervalEma := 0)
    {
      var interval := Elapsed(now, lastAccess);
      if fields.initialized && epochs.run == again && interval <= S32_MAX {
        prevInterval := Sat16(interval);
        intervalEma := IntervalEma(intervalEma, interval);
        accessEma := fields.access;
      } else {
        prevInterval := 0;
        intervalEma := 0;
        accessEma := 0;
      }
    }

    method NoteMove(event: nat, generation: int, now: nat) returns (ok: bool)
      requires Valid() && now < WORD_LIMIT
      modifies this
      ensures Valid() && ok == (!IsMove(event, generation) || !old(Refused(View())))
      ensures View() == if IsMove(event, generation) then old(Moved(View(), generation, now)) else old(View())
    {
      if !IsMove(event, generation) {
        return true;
      }
      var stable;
      ok, stable := WriteBegin();
      if !ok {
        MarkUncertain();
        return;
      }
      var before := stable.generation;
      if genEnter == 0 || before != generation {
        genEnter := now;
      }
      WriteEnd(stable, stable.(generation := generation));
    }

    method CandidateFeatures(now: nat, lruGen: int, run: nat) returns (e: Evaluation)
      requires Valid() && now < WORD_LIMIT
      modifies this`stateWord
      ensures Valid() && View() == old(Evaluated(View(), lruGen))
      ensures e == old(EvaluationOf(View(), now, lruGen, run))
    {
      var ok, stable := WriteBegin();
      if !ok {
        return Evaluation(NO_FEATURES, false, true, 0, NO_SNAPSHOT);
      }
      e := Measure(stable, now, lruGen, run);
      var fields := stable.(access := e.values.accessEma, candidates := e.values.candidates);
      if stable.generation != lruGen {
        fields := fields.(uncertain := true);
      }
      WriteEnd(stable, fields);
    }

    /** What an evaluation reads inside its section. */
    method Measure(fields: StateWord, now: nat, lruGen: int, run: nat) returns (e: Evaluation)
      requires Valid() && now < WORD_LIMIT
      ensures e == Measured(View().(state := fields), now, lruGen, run)
    {
      var epochs := UnpackEpochs(decisionEpochs);
      var accessAge := Elapsed(now, lastAccess);
      var generationAge := Elapsed(now, genEnter);
      var candidates := Min(fields.candidates + 1, 63);
      var accessEma := AccessEmaOnCandidate(fields.access);
      var valid := fields.initialized && !fields.uncertain
        && accessAge <= S32_MAX && generationAge <= S32_MAX && lastAccess != 0 && genEnter != 0
        && epochs.run == run;
      var uncertain := fields.uncertain;
      if fields.generation != lruGen {
        uncertain := true;
        valid := false;
      }
      e := Evaluation(Features(accessAge, prevInterval, intervalEma, candidates, generationAge, accessEma),
                      valid, uncertain, (fields.sequence + 2) % 2048,
                      Snapshot(lastAccess, genEnter, lifetime, epochs, fields.generation, fields.action));
    }

    method Revalidate(expected: nat, run: nat) returns (valid: bool)
      requires Valid()
      ensures valid == Revalidated(View(), expected, run)
    {
      var first := UnpackState(stateWord);
      if first.sequence % 2 == 1 {
        return false;
      }
      var epochs := UnpackEpochs(decisionEpochs);
      var second := UnpackState(stateWord);
      valid := first == second && second.sequence % 2 == 0 && second.sequence == expected
        && !second.uncertain && epochs.run == run;
    }

    method ClaimEpoch(dir: Direction, tag: nat, expected: int, run: nat) returns (r: ClaimResult)
      requires Valid() && tag < 4096
      modifies this
      ensures Valid() && View() == old(AfterClaim(View(), dir, tag, expected, run))
      ensures r == old(ClaimOutcome(View(), dir, tag, expected, run))
    {
      var ok, stable := WriteBegin();
      if !ok {
        return Unstable;
      }
      r := ClaimTag(stable, dir, tag, expected, run);
      WriteEnd(stable, stable);
    }

    /** The part of a claim inside its section. */
    method ClaimTag(fields: StateWord, dir: Direction, tag: nat, expected: int, run: nat) returns (r: ClaimResult)
      requires Valid() && fields.sequence % 2 == 0 && tag < 4096
      modifies this`decisionEpochs
      ensures Valid()
      ensures r == ClaimOutcome(old(View()).(state := fields), dir, tag, expected, run)
      ensures View() == if r.Claimed? then old(View()).(epochs := WithTag(old(View()).epochs, dir, tag))
                        else old(View())
    {
      var epochs := UnpackEpochs(decisionEpochs);
      if expected >= 0 && fields.sequence != expected {
        return GenerationRace;
      }
      if epochs.run != run {
        return Unstable;
      }
      if TagOf(epochs, dir) == tag {
        return Repeated;
      }
      StoreEpochs(WithTag(epochs, dir, tag));
      r := Claimed((fields.sequence + 2) % 2048);
    }

    method ReleaseEpoch(dir: Direction, tag: nat, run: nat) returns (ok: bool)
      requires Valid()
      modifies this
      ensures Valid() && ok == !old(Refused(View()))
      ensures View() == old(AfterRelease(View(), dir, tag, run))
    {
      var stable;
      ok, stable := WriteBegin();
      if !ok {
        MarkUncertain();
        return;
      }
      var epochs := UnpackEpochs(decisionEpochs);
      if epochs.run == run && TagOf(epochs, dir) == tag {
        StoreEpochs(WithTag(epochs, dir, 0));
      }
      WriteEnd(stable, stable);
    }

    /** Store the action a decision proposed (0 clears it when the outcome is known). */
    method SetAction(action: nat) returns (ok: bool)
      requires Valid() && action < 8
      modifies this`stateWord
      ensures Valid() && ok == !old(Refused(View()))
      ensures View() == old(WithAction(View(), action))
    {
      var stable;
      ok, stable := WriteBegin();
      if !ok {
        MarkUncertain();
        return;
      }
      WriteEnd(stable, stable.(action := action));
    }
  }
}
