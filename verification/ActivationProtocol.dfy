/** Mode changes, config changes and reclaim batches as one small-step system: a mode mutex, read-side
    sections with a grace period, and a sequence-guarded config copied field by field. */
module ActivationProtocol {
  import opened Common
  import opened Scoring
  import opened TierDecision

  const CONFIG_FIELDS: nat := 15
  const U32: nat := 0x1_0000_0000
  const U8_MAX: nat := 255

  /** Cold and three hot thresholds, max upgrade and downgrade tiers, two-cold flag, upgrade batch, epoch
      and ratio, downgrade batch, epoch and ratio, experiment and session ids. */
  type Payload = seq<int>

  /** What a batch keeps from opening to finishing. */
  datatype Batch = Batch(mode: Mode, config: Payload, sequence: nat, run: nat)

  datatype Thread =
    | Idle
    // a reclaim batch inside its read-side section
    | Entered
    | SawMode(mode: Mode)
    | SawNoFault(mode: Mode)
    | Sampled(mode: Mode, held: Option<Batch>, before: nat)
    | Copying(mode: Mode, held: Option<Batch>, before: nat, copied: nat, buf: Payload)
    | NeedRun(mode: Mode, config: Payload, sequence: nat)
    | Holding(batch: Batch)
    | Mismatch(mode: Mode)              // a config read failed or saw another sequence
    // a mode change
    | WantMode(target: Mode)
    | ModeLocked(target: Mode)
    | Opening(target: Mode)             // about to take a new activation number
    | Numbered(target: Mode)            // number taken, about to clear the fault
    | Cleared(target: Mode)             // fault cleared, about to publish the mode
    | Published                         // mode written (on or off), grace period not started
    | Waiting                           // inside the grace period
    // a config change
    | WantConfig(next: Payload)
    | ConfigLocked(next: Payload)
    | Replacing(next: Payload, done: nat)
    // holding the mutex with nothing left to do
    | Releasing

  datatype System = System(
    mode: Mode, epoch: nat, fault: bool, sequence: nat, payload: Payload,
    mutex: Option<nat>, grace: set<nat>, threads: seq<Thread>)

  datatype Label =
    | Enter(t: nat) | ReadMode(t: nat) | ReadFault(t: nat) | Sample(t: nat) | CopySequence(t: nat)
    | CopyField(t: nat) | Recheck(t: nat) | ReadRun(t: nat) | Exit(t: nat)
    | AskMode(t: nat, target: Mode) | LockMode(t: nat) | CheckMode(t: nat) | TakeNumber(t: nat)
    | ClearFault(t: nat) | PublishOn(t: nat) | StartGrace(t: nat) | EndGrace(t: nat)
    | AskConfig(t: nat, next: Payload) | LockConfig(t: nat) | BeginReplace(t: nat) | ReplaceField(t: nat)
    | EndReplace(t: nat) | Unlock(t: nat) | RaiseFault

  predicate On(m: Mode) {
    !m.Off?
  }

  predicate ApplyMode(m: Mode) {
    !m.Off? && !m.Shadow?
  }

  function PolicyOf(p: Payload): Policy
    requires |p| == CONFIG_FIELDS
  {
    Policy(p[0], p[1], p[2], p[3], if p[4] < 0 then 0 else p[4], if p[5] < 0 then 0 else p[5], p[6] != 0)
  }

  /** The range check a new config must pass. */
  predicate Acceptable(p: Payload) {
    && |p| == CONFIG_FIELDS
    && p[0] < p[1] < p[2] < p[3] && 1 <= p[4] <= 3 && p[5] == 1 && 0 <= p[6] <= 1
    && p[7] > 0 && p[8] > 0 && 0 < p[9] <= 10000
    && p[10] > 0 && p[11] > 0 && 0 < p[12] <= 10000
  }

  const DEFAULT: Payload := [-48, 48, 96, 144, 2, 1, 1, 2, 8, 100, 1, 4, 50, 0, 0]

  function Init(n: nat): System {
    System(Off, 0, false, 0, DEFAULT, None, {}, seq(n, i => Idle))
  }

  predicate InSection(th: Thread) {
    || th.Entered? || th.SawMode? || th.SawNoFault? || th.Sampled? || th.Copying? || th.NeedRun?
    || th.Holding? || th.Mismatch?
  }

  function ModeSeen(th: Thread): Mode {
    match th
    case SawMode(m) => m
    case SawNoFault(m) => m
    case Sampled(m, _, _) => m
    case Copying(m, _, _, _, _) => m
    case NeedRun(m, _, _) => m
    case Holding(b) => b.mode
    case Mismatch(m) => m
    case _ => Off
  }

  predicate Has(s: System, t: nat) {
    t < |s.threads|
  }

  predicate Enabled(s: System, l: Label) {
    match l
    case RaiseFault => true
    case Enter(t) => Has(s, t) && s.threads[t].Idle?
    case ReadMode(t) => Has(s, t) && s.threads[t].Entered?
    case ReadFault(t) => Has(s, t) && s.threads[t].SawMode? && On(s.threads[t].mode)
    case Sample(t) => Has(s, t) && (s.threads[t].SawNoFault? || s.threads[t].Holding?)
    case CopySequence(t) => Has(s, t) && s.threads[t].Sampled?
    case CopyField(t) => Has(s, t) && s.threads[t].Copying? && |s.threads[t].buf| < |s.payload|
    case Recheck(t) => Has(s, t) && s.threads[t].Copying? && |s.threads[t].buf| == CONFIG_FIELDS
    case ReadRun(t) => Has(s, t) && s.threads[t].NeedRun?
    case Exit(t) => Has(s, t) && InSection(s.threads[t])
    case AskMode(t, _) => Has(s, t) && s.threads[t].Idle?
    case LockMode(t) => Has(s, t) && s.threads[t].WantMode? && s.mutex.None?
    case CheckMode(t) => Has(s, t) && s.threads[t].ModeLocked?
    case TakeNumber(t) => Has(s, t) && s.threads[t].Opening?
    case ClearFault(t) => Has(s, t) && s.threads[t].Numbered?
    case PublishOn(t) => Has(s, t) && s.threads[t].Cleared?
    case StartGrace(t) => Has(s, t) && s.threads[t].Published?
    case EndGrace(t) => Has(s, t) && s.threads[t].Waiting? && s.grace == {}
    case AskConfig(t, _) => Has(s, t) && s.threads[t].Idle?
    case LockConfig(t) => Has(s, t) && s.threads[t].WantConfig? && s.mutex.None?
    case BeginReplace(t) => Has(s, t) && s.threads[t].ConfigLocked?
    case ReplaceField(t) =>
      && Has(s, t) && s.threads[t].Replacing?
      && s.threads[t].done < |s.payload| && s.threads[t].done < |s.threads[t].next|
    case EndReplace(t) => Has(s, t) && s.threads[t].Replacing? && s.threads[t].done == CONFIG_FIELDS
    case Unlock(t) => Has(s, t) && s.threads[t].Releasing?
  }

  function To(s: System, t: nat, th: Thread): System
    requires Has(s, t)
  {
    s.(threads := s.threads[t := th])
  }

  /** The checks of a mode change, made under the mutex. Turning off publishes at once. */
  function Checked(s: System, t: nat, target: Mode): System
    requires Has(s, t)
  {
    if ApplyMode(target) && (s.sequence % 2 == 1 || |s.payload| != CONFIG_FIELDS || s.payload[4] > 2) then
      To(s, t, Releasing)
    else if s.mode == target then To(s, t, Releasing)
    else if s.mode.Off? then To(s, t, if s.epoch == U8_MAX then Releasing else Opening(target))
    else if target.Off? then To(s, t, Published).(mode := Off)
    else To(s, t, Releasing)
  }

  /** The end of a config read: accepted when the sequence did not move and was even throughout. */
  function Rechecked(s: System, th: Thread): Thread
    requires th.Copying?
  {
    if th.before != s.sequence || th.copied % 2 == 1 then Mismatch(th.mode)
    else
      match th.held
      case None => NeedRun(th.mode, th.buf, th.copied)
      case Some(b) => if th.copied == b.sequence && th.buf == b.config then Holding(b) else Mismatch(th.mode)
  }

  function InSectionSet(s: System): set<nat> {
    set t: nat | t < |s.threads| && InSection(s.threads[t])
  }

  function Next(s: System, l: Label): System
    requires Enabled(s, l)
  {
    match l
    case RaiseFault => s.(fault := true)
    case Enter(t) => To(s, t, Entered)
    case ReadMode(t) => To(s, t, SawMode(s.mode))
    case ReadFault(t) => if s.fault then s else To(s, t, SawNoFault(s.threads[t].mode))
    case Sample(t) =>
      var th := s.threads[t];
      var mode := ModeSeen(th);
      if s.sequence % 2 == 1 then To(s, t, Mismatch(mode))
      else To(s, t, Sampled(mode, if th.Holding? then Some(th.batch) else None, s.sequence))
    case CopySequence(t) =>
      var th := s.threads[t];
      To(s, t, Copying(th.mode, th.held, th.before, s.sequence, []))
    case CopyField(t) =>
      var th := s.threads[t];
      To(s, t, Copying(th.mode, th.held, th.before, th.copied, th.buf + [s.payload[|th.buf|]]))
    case Recheck(t) => To(s, t, Rechecked(s, s.threads[t]))
    case ReadRun(t) =>
      var th := s.threads[t];
      To(s, t, Holding(Batch(th.mode, th.config, th.sequence, s.epoch)))
    case Exit(t) => To(s, t, Idle).(grace := s.grace - {t})
    case AskMode(t, target) => To(s, t, WantMode(target))
    case LockMode(t) => To(s, t, ModeLocked(s.threads[t].target)).(mutex := Some(t))
    case CheckMode(t) => Checked(s, t, s.threads[t].target)
    case TakeNumber(t) => To(s, t, Numbered(s.threads[t].target)).(epoch := s.epoch + 1)
    case ClearFault(t) => To(s, t, Cleared(s.threads[t].target)).(fault := false)
    case PublishOn(t) => To(s, t, Published).(mode := s.threads[t].target)
    case StartGrace(t) => To(s, t, Waiting).(grace := InSectionSet(s))
    case EndGrace(t) => To(s, t, Releasing)
    case AskConfig(t, next) => To(s, t, if Acceptable(next) then WantConfig(next) else Idle)
    case LockConfig(t) => To(s, t, ConfigLocked(s.threads[t].next)).(mutex := Some(t))
    case BeginReplace(t) =>
      if On(s.mode) then To(s, t, Releasing)
      else To(s, t, Replacing(s.threads[t].next, 0)).(sequence := (s.sequence + 1) % U32)
    case ReplaceField(t) =>
      var th := s.threads[t];
      To(s, t, Replacing(th.next, th.done + 1)).(payload := s.payload[th.done := th.next[th.done]])
    case EndReplace(t) => To(s, t, Releasing).(sequence := (s.sequence + 1) % U32)
    case Unlock(t) => To(s, t, Idle).(mutex := None)
  }

  predicate Legal(s: System, ls: seq<Label>)
    decreases |ls|
  {
    |ls| == 0 || (Enabled(s, ls[0]) && Legal(Next(s, ls[0]), ls[1..]))
  }

  function Run(s: System, ls: seq<Label>): System
    requires Legal(s, ls)
    decreases |ls|
  {
    if |ls| == 0 then s else Run(Next(s, ls[0]), ls[1..])
  }

  // ----- invariant -----

  predicate NeedsMutex(th: Thread) {
    || th.ModeLocked? || th.Opening? || th.Numbered? || th.Cleared? || th.Published? || th.Waiting?
    || th.ConfigLocked? || th.Replacing? || th.Releasing?
  }

  predicate OnlyWhileOff(th: Thread) {
    th.Opening? || th.Numbered? || th.Cleared? || th.Replacing?
  }

  ghost predicate ConfigOk(s: System, th: Thread)
    requires |s.payload| == CONFIG_FIELDS
  {
    match th
    case WantConfig(next) => Acceptable(next)
    case ConfigLocked(next) => Acceptable(next)
    case Replacing(next, done) => Acceptable(next) && done <= CONFIG_FIELDS && s.payload[..done] == next[..done]
    case Opening(target) => On(target) && (ApplyMode(target) ==> s.payload[4] <= 2)
    case Numbered(target) => On(target) && (ApplyMode(target) ==> s.payload[4] <= 2)
    case Cleared(target) => On(target) && (ApplyMode(target) ==> s.payload[4] <= 2)
    case _ => true
  }

  predicate Replaces(s: System) {
    s.mutex.Some? && s.mutex.value < |s.threads| && s.threads[s.mutex.value].Replacing?
  }

  ghost predicate SharedOk(s: System) {
    && |s.payload| == CONFIG_FIELDS && s.sequence < U32 && s.epoch <= U8_MAX
    && (s.sequence % 2 == 1 <==> Replaces(s))
    && (!Replaces(s) ==> Acceptable(s.payload))
    && (ApplyMode(s.mode) ==> s.payload[4] <= 2)
    && (On(s.mode) ==> s.epoch >= 1)
  }

  ghost predicate MutexOk(s: System) {
    && (s.mutex.Some? ==> s.mutex.value < |s.threads| && NeedsMutex(s.threads[s.mutex.value]))
    && (forall t :: 0 <= t < |s.threads| && NeedsMutex(s.threads[t]) ==> s.mutex == Some(t))
    && (forall t :: 0 <= t < |s.threads| && OnlyWhileOff(s.threads[t]) ==> s.mode.Off?)
    && (forall t :: 0 <= t < |s.threads| && s.threads[t].Opening? ==> s.epoch < U8_MAX)
    && (forall t :: 0 <= t < |s.threads| && (s.threads[t].Numbered? || s.threads[t].Cleared?) ==> s.epoch >= 1)
  }

  /** A batch that saw the mode on pins it: either the mode is still that one, or whoever turned it off
      has not finished waiting for this batch. */
  predicate Pinned(s: System, t: nat, m: Mode) {
    || s.mode == m
    || (s.mode.Off? && s.mutex.Some? && s.mutex.value < |s.threads|
        && (s.threads[s.mutex.value].Published? || (s.threads[s.mutex.value].Waiting? && t in s.grace)))
  }

  predicate BatchCurrent(s: System, b: Batch) {
    On(b.mode) && b.config == s.payload && b.sequence == s.sequence && b.run == s.epoch
  }

  predicate HeldCurrent(s: System, mode: Mode, held: Option<Batch>) {
    held.Some? ==> held.value.mode == mode && BatchCurrent(s, held.value)
  }

  ghost predicate ViewCurrent(s: System, th: Thread)
    requires |s.payload| == CONFIG_FIELDS
  {
    match th
    case SawNoFault(m) => On(m)
    case Sampled(m, held, before) => On(m) && before == s.sequence && HeldCurrent(s, m, held)
    case Copying(m, held, before, copied, buf) =>
      && On(m) && before == copied == s.sequence && HeldCurrent(s, m, held)
      && |buf| <= CONFIG_FIELDS && buf == s.payload[..|buf|]
    case NeedRun(m, config, sequence) => On(m) && config == s.payload && sequence == s.sequence
    case Holding(b) => BatchCurrent(s, b)
    case Mismatch(_) => false
    case _ => true
  }

  ghost predicate ThreadOk(s: System, t: nat)
    requires t < |s.threads| && |s.payload| == CONFIG_FIELDS
  {
    var th := s.threads[t];
    && ConfigOk(s, th)
    && ViewCurrent(s, th)
    && (On(ModeSeen(th)) ==> Pinned(s, t, ModeSeen(th)))
  }

  ghost predicate Inv(s: System) {
    SharedOk(s) && MutexOk(s) && forall t :: 0 <= t < |s.threads| ==> ThreadOk(s, t)
  }

  lemma ParityFlips(a: nat)
    requires a < U32
    ensures (a + 1) % U32 < U32 && ((a + 1) % U32) % 2 != a % 2
  {
  }

  predicate SameConfig(s: System, s': System) {
    s'.payload == s.payload && s'.sequence == s.sequence && s'.epoch == s.epoch
  }

  predicate NobodyPins(s: System) {
    forall t :: 0 <= t < |s.threads| ==> !On(ModeSeen(s.threads[t]))
  }

  /** While a batch has the mode pinned nobody replaces the config or opens an activation. */
  lemma ExclusionHolds(s: System, t: nat)
    requires Inv(s) && t < |s.threads| && (OnlyWhileOff(s.threads[t]) || s.threads[t].ConfigLocked?)
    ensures s.mode.Off? ==> NobodyPins(s)
  {
    forall u | 0 <= u < |s.threads| && s.mode.Off?
      ensures !On(ModeSeen(s.threads[u]))
    {
      assert ThreadOk(s, u);
      assert s.mutex == Some(t);
    }
  }

  /** A step of thread `t` that leaves the pins of the others alone keeps every other thread. */
  lemma OthersKeep(s: System, s': System, t: nat)
    requires Inv(s) && t < |s.threads| && |s'.payload| == CONFIG_FIELDS
    requires |s'.threads| == |s.threads| && s'.threads == s.threads[t := s'.threads[t]]
    requires SameConfig(s, s') || (s.mutex == Some(t) && NobodyPins(s))
    requires forall u :: 0 <= u < |s.threads| && u != t && On(ModeSeen(s.threads[u])) ==>
               Pinned(s', u, ModeSeen(s.threads[u]))
    ensures forall u :: 0 <= u < |s.threads| && u != t ==> ThreadOk(s', u)
  {
    forall u | 0 <= u < |s.threads| && u != t
      ensures ThreadOk(s', u)
    {
      assert s'.threads[u] == s.threads[u];
      assert ThreadOk(s, u);
    }
  }

  lemma PinsStay(s: System, s': System, t: nat)
    requires Inv(s) && t < |s.threads|
    requires |s'.threads| == |s.threads| && s'.threads == s.threads[t := s'.threads[t]]
    requires s'.mode == s.mode && s'.mutex == s.mutex
    requires s.mutex != Some(t) && s.grace - {t} <= s'.grace
    ensures forall u :: 0 <= u < |s.threads| && u != t && On(ModeSeen(s.threads[u])) ==>
              Pinned(s', u, ModeSeen(s.threads[u]))
  {
    forall u | 0 <= u < |s.threads| && u != t && On(ModeSeen(s.threads[u]))
      ensures Pinned(s', u, ModeSeen(s.threads[u]))
    {
      assert ThreadOk(s, u);
    }
  }

  /** A step outside the mutex that changes only its own thread (and leaves the grace set). */
  lemma QuietStep(s: System, s': System, t: nat, th: Thread)
    requires Inv(s) && t < |s.threads|
    requires s' == To(s, t, th).(grace := s'.grace) && s.grace - {t} <= s'.grace <= s.grace
    requires !NeedsMutex(s.threads[t]) && !NeedsMutex(th) && !OnlyWhileOff(th)
    requires ThreadOk(s', t)
    ensures Inv(s')
  {
    PinsStay(s, s', t);
    OthersKeep(s, s', t);
  }

  /** Such a step is safe when the thread's new point is, in the state before it. */
  lemma QuietTo(s: System, t: nat, th: Thread)
    requires Inv(s) && t < |s.threads| && !NeedsMutex(s.threads[t]) && !NeedsMutex(th)
    requires ConfigOk(s, th) && ViewCurrent(s, th) && (On(ModeSeen(th)) ==> Pinned(s, t, ModeSeen(th)))
    ensures Inv(To(s, t, th))
  {
    var s' := To(s, t, th);
    assert s.mutex != Some(t);
    assert ThreadOk(s', t);
    QuietStep(s, s', t, th);
  }

  lemma EnterStep(s: System, t: nat)
    requires Inv(s) && Enabled(s, Enter(t))
    ensures Inv(To(s, t, Entered))
  {
    QuietTo(s, t, Entered);
  }

  lemma AskStep(s: System, t: nat, th: Thread)
    requires Inv(s) && Has(s, t) && s.threads[t].Idle?
    requires th.Idle? || th.WantMode? || (th.WantConfig? && Acceptable(th.next))
    ensures Inv(To(s, t, th))
  {
    QuietTo(s, t, th);
  }

  lemma SeeModeStep(s: System, t: nat)
    requires Inv(s) && Enabled(s, ReadMode(t))
    ensures Inv(To(s, t, SawMode(s.mode)))
  {
    QuietTo(s, t, SawMode(s.mode));
  }

  lemma SeeFaultStep(s: System, t: nat)
    requires Inv(s) && Enabled(s, ReadFault(t))
    ensures Inv(To(s, t, SawNoFault(s.threads[t].mode)))
  {
    assert ThreadOk(s, t);
    QuietTo(s, t, SawNoFault(s.threads[t].mode));
  }

  lemma SampleStep(s: System, t: nat)
    requires Inv(s) && Enabled(s, Sample(t))
    ensures Inv(Next(s, Sample(t)))
  {
    var th := s.threads[t];
    assert ThreadOk(s, t);
    PinExcludesReplace(s, t);
    QuietTo(s, t, Sampled(ModeSeen(th), if th.Holding? then Some(th.batch) else None, s.sequence));
  }

  lemma CopySequenceStep(s: System, t: nat)
    requires Inv(s) && Enabled(s, CopySequence(t))
    ensures Inv(Next(s, CopySequence(t)))
  {
    var th := s.threads[t];
    assert ThreadOk(s, t);
    QuietTo(s, t, Copying(th.mode, th.held, th.before, s.sequence, []));
  }

  lemma CopyFieldStep(s: System, t: nat)
    requires Inv(s) && Enabled(s, CopyField(t))
    ensures Inv(Next(s, CopyField(t)))
  {
    var th := s.threads[t];
    assert ThreadOk(s, t);
    assert th.buf + [s.payload[|th.buf|]] == s.payload[..|th.buf| + 1];
    QuietTo(s, t, Copying(th.mode, th.held, th.before, th.copied, th.buf + [s.payload[|th.buf|]]));
  }

  /** A read that ends while its batch pins the mode is accepted, with the config it started from. */
  lemma RecheckHolds(s: System, t: nat)
    requires Inv(s) && Enabled(s, Recheck(t))
    ensures
      var th := s.threads[t];
      Rechecked(s, th) == match th.held
                          case None => NeedRun(th.mode, s.payload, s.sequence)
                          case Some(b) => Holding(b)
  {
    assert ThreadOk(s, t);
    PinExcludesReplace(s, t);
    assert s.payload[..CONFIG_FIELDS] == s.payload;
  }

  lemma RecheckStep(s: System, t: nat)
    requires Inv(s) && Enabled(s, Recheck(t))
    ensures Inv(To(s, t, Rechecked(s, s.threads[t])))
  {
    assert ThreadOk(s, t);
    RecheckHolds(s, t);
    QuietTo(s, t, Rechecked(s, s.threads[t]));
  }

  lemma ReadRunStep(s: System, t: nat)
    requires Inv(s) && Enabled(s, ReadRun(t))
    ensures Inv(Next(s, ReadRun(t)))
  {
    var th := s.threads[t];
    assert ThreadOk(s, t);
    QuietTo(s, t, Holding(Batch(th.mode, th.config, th.sequence, s.epoch)));
  }

  lemma ExitStep(s: System, t: nat)
    requires Inv(s) && Enabled(s, Exit(t))
    ensures Inv(To(s, t, Idle).(grace := s.grace - {t}))
  {
    QuietStep(s, To(s, t, Idle).(grace := s.grace - {t}), t, Idle);
  }

  predicate ReadsConfig(l: Label) {
    l.Sample? || l.CopySequence? || l.CopyField? || l.Recheck? || l.ReadRun?
  }

  predicate Quiet(l: Label) {
    l.Enter? || l.ReadMode? || l.ReadFault? || l.Exit? || l.AskMode? || l.AskConfig? || ReadsConfig(l)
  }

  lemma ReadStep(s: System, l: Label)
    requires Inv(s) && Enabled(s, l) && ReadsConfig(l)
    ensures Inv(Next(s, l))
  {
    match l
    case Sample(t) => SampleStep(s, t);
    case CopySequence(t) => CopySequenceStep(s, t);
    case CopyField(t) => CopyFieldStep(s, t);
    case Recheck(t) => RecheckStep(s, t);
    case ReadRun(t) => ReadRunStep(s, t);
  }

  lemma EdgeStep(s: System, l: Label)
    requires Inv(s) && Enabled(s, l) && Quiet(l) && !ReadsConfig(l)
    ensures Inv(Next(s, l))
  {
    match l
    case Enter(t) => EnterStep(s, t);
    case ReadMode(t) => SeeModeStep(s, t);
    case ReadFault(t) => SeeFaultStep(s, t);
    case Exit(t) => ExitStep(s, t);
    case AskMode(t, target) => AskStep(s, t, WantMode(target));
    case AskConfig(t, next) => AskStep(s, t, if Acceptable(next) then WantConfig(next) else Idle);
  }

  lemma PinExcludesReplace(s: System, t: nat)
    requires Inv(s) && t < |s.threads| && On(ModeSeen(s.threads[t]))
    ensures s.sequence % 2 == 0
  {
    assert ThreadOk(s, t);
  }

  /** The mutex holder moves on; nobody else is at a point that needs the mutex. */
  lemma HolderMutex(s: System, s': System, t: nat, th: Thread)
    requires MutexOk(s) && t < |s.threads| && (s.mutex == Some(t) || s.mutex.None?)
    requires s'.threads == s.threads[t := th] && s'.mutex == if NeedsMutex(th) then Some(t) else None
    requires OnlyWhileOff(th) ==> s'.mode.Off?
    requires th.Opening? ==> s'.epoch < U8_MAX
    requires th.Numbered? || th.Cleared? ==> s'.epoch >= 1
    ensures MutexOk(s')
  {
  }

  /** A step of the mutex holder that keeps the config and the mode keeps everything. */
  lemma HolderStep(s: System, s': System, t: nat, th: Thread)
    requires Inv(s) && t < |s.threads| && (s.mutex == Some(t) || s.mutex.None?)
    requires s' == To(s, t, th).(mutex := if NeedsMutex(th) then Some(t) else None, fault := s'.fault)
    requires !On(ModeSeen(th)) && !s.threads[t].Replacing? && !th.Replacing?
    requires s.threads[t].Published? ==> th.Published?
    requires s.threads[t].Waiting? ==> th.Waiting? || s.grace == {}
    requires OnlyWhileOff(th) ==> s.mode.Off?
    requires th.Opening? ==> s.epoch < U8_MAX
    requires th.Numbered? || th.Cleared? ==> s.epoch >= 1
    requires ConfigOk(s, th) && ViewCurrent(s, th)
    ensures Inv(s')
  {
    HolderMutex(s, s', t, th);
    forall u | 0 <= u < |s.threads| && u != t && On(ModeSeen(s.threads[u]))
      ensures Pinned(s', u, ModeSeen(s.threads[u]))
    {
      assert ThreadOk(s, u);
    }
    OthersKeep(s, s', t);
  }

  lemma LockModeStep(s: System, t: nat)
    requires Inv(s) && Enabled(s, LockMode(t))
    ensures Inv(To(s, t, ModeLocked(s.threads[t].target)).(mutex := Some(t)))
  {
    var th := ModeLocked(s.threads[t].target);
    HolderStep(s, To(s, t, th).(mutex := Some(t)), t, th);
  }

  lemma LockConfigStep(s: System, t: nat)
    requires Inv(s) && Enabled(s, LockConfig(t))
    ensures Inv(To(s, t, ConfigLocked(s.threads[t].next)).(mutex := Some(t)))
  {
    assert ThreadOk(s, t);
    var th := ConfigLocked(s.threads[t].next);
    HolderStep(s, To(s, t, th).(mutex := Some(t)), t, th);
  }

  lemma UnlockStep(s: System, t: nat)
    requires Inv(s) && Enabled(s, Unlock(t))
    ensures Inv(To(s, t, Idle).(mutex := None))
  {
    HolderStep(s, To(s, t, Idle).(mutex := None), t, Idle);
  }

  lemma ClearStep(s: System, t: nat)
    requires Inv(s) && Enabled(s, ClearFault(t))
    ensures Inv(To(s, t, Cleared(s.threads[t].target)).(fault := false))
  {
    assert ThreadOk(s, t);
    HolderStep(s, To(s, t, Cleared(s.threads[t].target)).(fault := false), t, Cleared(s.threads[t].target));
  }

  lemma EndGraceStep(s: System, t: nat)
    requires Inv(s) && Enabled(s, EndGrace(t))
    ensures Inv(To(s, t, Releasing))
  {
    HolderStep(s, To(s, t, Releasing), t, Releasing);
  }

  /** Writing the mode under the mutex: turning on needs no pins, turning off keeps every pin. */
  lemma PublishStep(s: System, t: nat, mode: Mode)
    requires Inv(s) && t < |s.threads| && s.mutex == Some(t)
    requires if On(mode) then s.mode.Off? && s.threads[t] == Cleared(mode) else On(s.mode) && s.threads[t].ModeLocked?
    ensures Inv(To(s, t, Published).(mode := mode))
  {
    var s' := To(s, t, Published).(mode := mode);
    HolderMutex(s, s', t, Published);
    assert ThreadOk(s, t);
    forall u | 0 <= u < |s.threads| && u != t && On(ModeSeen(s.threads[u]))
      ensures Pinned(s', u, ModeSeen(s.threads[u]))
    {
      assert ThreadOk(s, u);
    }
    OthersKeep(s, s', t);
  }

  lemma PublishOnStep(s: System, t: nat)
    requires Inv(s) && Enabled(s, PublishOn(t))
    ensures Inv(To(s, t, Published).(mode := s.threads[t].target))
  {
    assert ThreadOk(s, t);
    PublishStep(s, t, s.threads[t].target);
  }

  /** The holder gives the mutex up, or goes on to open an activation. */
  lemma HolderTo(s: System, t: nat, th: Thread)
    requires Inv(s) && t < |s.threads| && s.mutex == Some(t) && (s.threads[t].ModeLocked? || s.threads[t].ConfigLocked?)
    requires th.Releasing? || (th.Opening? && s.mode.Off? && s.epoch < U8_MAX && ConfigOk(s, th))
    ensures Inv(To(s, t, th))
  {
    HolderStep(s, To(s, t, th), t, th);
  }

  lemma CheckStep(s: System, t: nat)
    requires Inv(s) && Enabled(s, CheckMode(t))
    ensures Inv(Checked(s, t, s.threads[t].target))
  {
    var target := s.threads[t].target;
    HolderTo(s, t, Releasing);
    if s.mode.Off? && s.epoch < U8_MAX && On(target) && (ApplyMode(target) ==> s.payload[4] <= 2) {
      HolderTo(s, t, Opening(target));
    }
    if target.Off? && On(s.mode) {
      PublishStep(s, t, Off);
    }
  }

  lemma GraceStep(s: System, t: nat)
    requires Inv(s) && Enabled(s, StartGrace(t))
    ensures Inv(Next(s, StartGrace(t)))
  {
    var s' := Next(s, StartGrace(t));
    HolderMutex(s, s', t, Waiting);
    forall u | 0 <= u < |s.threads| && u != t && On(ModeSeen(s.threads[u]))
      ensures Pinned(s', u, ModeSeen(s.threads[u]))
    {
      assert ThreadOk(s, u);
      assert u in s'.grace;
    }
    OthersKeep(s, s', t);
  }

  lemma NumberStep(s: System, l: Label)
    requires Inv(s) && Enabled(s, l) && l.TakeNumber?
    ensures Inv(Next(s, l))
  {
    assert ThreadOk(s, l.t);
    ExclusionHolds(s, l.t);
    HolderMutex(s, Next(s, l), l.t, Next(s, l).threads[l.t]);
    OthersKeep(s, Next(s, l), l.t);
  }

  lemma BeginStep(s: System, t: nat)
    requires Inv(s) && Enabled(s, BeginReplace(t))
    ensures Inv(Next(s, BeginReplace(t)))
  {
    if On(s.mode) {
      HolderTo(s, t, Releasing);
    } else {
      OddStep(s, t);
    }
  }

  lemma OddStep(s: System, t: nat)
    requires Inv(s) && t < |s.threads| && s.threads[t].ConfigLocked? && s.mode.Off?
    ensures Inv(To(s, t, Replacing(s.threads[t].next, 0)).(sequence := (s.sequence + 1) % U32))
  {
    var s' := To(s, t, Replacing(s.threads[t].next, 0)).(sequence := (s.sequence + 1) % U32);
    assert ThreadOk(s, t);
    ParityFlips(s.sequence);
    ExclusionHolds(s, t);
    HolderMutex(s, s', t, s'.threads[t]);
    OthersKeep(s, s', t);
  }

  lemma ReplaceStep(s: System, l: Label)
    requires Inv(s) && Enabled(s, l) && l.ReplaceField?
    ensures Inv(Next(s, l))
  {
    var s' := Next(s, l);
    assert ThreadOk(s, l.t);
    var th := s.threads[l.t];
    ExclusionHolds(s, l.t);
    assert s'.payload[..th.done + 1] == s.payload[..th.done] + [th.next[th.done]];
    assert th.next[..th.done + 1] == th.next[..th.done] + [th.next[th.done]];
    HolderMutex(s, s', l.t, s'.threads[l.t]);
    OthersKeep(s, s', l.t);
  }

  lemma ReplacedWholly(s: System, t: nat)
    requires Inv(s) && Enabled(s, EndReplace(t))
    ensures s.payload == s.threads[t].next && Acceptable(s.payload)
  {
    assert ThreadOk(s, t);
    assert s.payload == s.payload[..CONFIG_FIELDS];
    assert s.threads[t].next == s.threads[t].next[..CONFIG_FIELDS];
  }

  lemma EndStep(s: System, t: nat)
    requires Inv(s) && Enabled(s, EndReplace(t))
    ensures Inv(Next(s, EndReplace(t)))
  {
    var s' := Next(s, EndReplace(t));
    assert ThreadOk(s, t);
    ParityFlips(s.sequence);
    ExclusionHolds(s, t);
    ReplacedWholly(s, t);
    HolderMutex(s, s', t, Releasing);
    OthersKeep(s, s', t);
  }

  lemma FaultStep(s: System)
    requires Inv(s)
    ensures Inv(s.(fault := true))
  {
    var s' := s.(fault := true);
    forall u | 0 <= u < |s.threads|
      ensures ThreadOk(s', u)
    {
      assert ThreadOk(s, u);
    }
  }

  predicate ChangesConfig(l: Label) {
    l.LockConfig? || l.BeginReplace? || l.ReplaceField? || l.EndReplace?
  }

  lemma ConfigStep(s: System, l: Label)
    requires Inv(s) && Enabled(s, l) && ChangesConfig(l)
    ensures Inv(Next(s, l))
  {
    match l
    case LockConfig(t) => LockConfigStep(s, t);
    case BeginReplace(t) => BeginStep(s, t);
    case ReplaceField(_) => ReplaceStep(s, l);
    case EndReplace(t) => EndStep(s, t);
  }

  lemma ModeStep(s: System, l: Label)
    requires Inv(s) && Enabled(s, l) && !ChangesConfig(l) && !Quiet(l)
    ensures Inv(Next(s, l))
  {
    match l
    case RaiseFault => FaultStep(s);
    case LockMode(t) => LockModeStep(s, t);
    case Unlock(t) => UnlockStep(s, t);
    case EndGrace(t) => EndGraceStep(s, t);
    case ClearFault(t) => ClearStep(s, t);
    case CheckMode(t) => CheckStep(s, t);
    case PublishOn(t) => PublishOnStep(s, t);
    case StartGrace(t) => GraceStep(s, t);
    case TakeNumber(_) => NumberStep(s, l);
  }

  lemma StepKeepsInv(s: System, l: Label)
    requires Inv(s) && Enabled(s, l)
    ensures Inv(Next(s, l))
  {
    if ReadsConfig(l) {
      ReadStep(s, l);
    } else if Quiet(l) {
      EdgeStep(s, l);
    } else if ChangesConfig(l) {
      ConfigStep(s, l);
    } else {
      ModeStep(s, l);
    }
  }

  lemma {:induction false} RunKeepsInv(s: System, ls: seq<Label>)
    requires Inv(s) && Legal(s, ls)
    ensures Inv(Run(s, ls))
    decreases |ls|
  {
    if |ls| > 0 {
      StepKeepsInv(s, ls[0]);
      RunKeepsInv(Next(s, ls[0]), ls[1..]);
    }
  }

  lemma InitInv(n: nat)
    ensures Inv(Init(n))
  {
  }

  // ----- theorems -----

  /** In every interleaving, as long as a batch holds its read-side section, the stored config, its
      sequence and the activation number are the ones the batch opened with, and they form a valid
      config; so every re-read during the batch succeeds and returns exactly that config. */
  lemma BatchConfigIsStable(n: nat, ls: seq<Label>, t: nat)
    requires Legal(Init(n), ls) && t < |Run(Init(n), ls).threads|
    requires Run(Init(n), ls).threads[t].Holding?
    ensures
      var s := Run(Init(n), ls);
      var b := s.threads[t].batch;
      && b.config == s.payload && b.sequence == s.sequence && b.run == s.epoch
      && On(b.mode) && s.sequence % 2 == 0 && Acceptable(s.payload)
  {
    InitInv(n);
    RunKeepsInv(Init(n), ls);
    assert ThreadOk(Run(Init(n), ls), t);
    PinExcludesReplace(Run(Init(n), ls), t);
  }

  /** No config read made inside a batch that saw the mode on ever fails or differs. */
  lemma ReadsNeverMismatch(n: nat, ls: seq<Label>, t: nat)
    requires Legal(Init(n), ls) && t < |Run(Init(n), ls).threads|
    ensures !Run(Init(n), ls).threads[t].Mismatch?
  {
    InitInv(n);
    RunKeepsInv(Init(n), ls);
    assert ThreadOk(Run(Init(n), ls), t);
  }

  /** The policy is valid whenever the sequence is even, and a mode that applies decisions never runs
      with more than two upgrade tiers. */
  lemma PolicyAlwaysValid(n: nat, ls: seq<Label>)
    requires Legal(Init(n), ls)
    ensures
      var s := Run(Init(n), ls);
      && |s.payload| == CONFIG_FIELDS
      && (s.sequence % 2 == 0 ==> Acceptable(s.payload) && PolicyValid(PolicyOf(s.payload)))
      && (ApplyMode(s.mode) ==> s.sequence % 2 == 0 && PolicyOf(s.payload).maxUpgrade <= 2)
  {
    InitInv(n);
    RunKeepsInv(Init(n), ls);
    ReplacingMeansOff(Run(Init(n), ls));
  }

  // ----- exactly when a replacement shows an invalid policy -----

  /** The first `done` fields already new, the rest still old. */
  function Mixture(next: Payload, old_: Payload, done: nat): Payload
    requires |next| == |old_| == CONFIG_FIELDS && done <= CONFIG_FIELDS
  {
    next[..done] + old_[done..]
  }

  /** Thread `t` is replacing `old_` by `next`, and the stored fields show how far it got. */
  predicate MidReplacement(s: System, t: nat, next: Payload, old_: Payload) {
    && t < |s.threads| && s.threads[t].Replacing? && s.threads[t].next == next
    && |next| == |old_| == CONFIG_FIELDS && s.threads[t].done <= CONFIG_FIELDS
    && s.payload == Mixture(next, old_, s.threads[t].done)
  }

  lemma MixtureAdvances(next: Payload, old_: Payload, done: nat)
    requires |next| == |old_| == CONFIG_FIELDS && done < CONFIG_FIELDS
    ensures Mixture(next, old_, done)[done := next[done]] == Mixture(next, old_, done + 1)
  {
  }

  lemma ReplacementBegins(s: System, t: nat)
    requires Inv(s) && Enabled(s, BeginReplace(t)) && s.mode.Off?
    ensures Acceptable(s.payload) && Acceptable(s.threads[t].next)
    ensures MidReplacement(Next(s, BeginReplace(t)), t, s.threads[t].next, s.payload)
    ensures Next(s, BeginReplace(t)).threads[t].done == 0
  {
    assert ThreadOk(s, t);
    assert s.payload == s.payload[0..];
  }

  lemma FieldAdvances(s: System, t: nat, next: Payload, old_: Payload)
    requires Enabled(s, ReplaceField(t)) && MidReplacement(s, t, next, old_)
    ensures MidReplacement(Next(s, ReplaceField(t)), t, next, old_)
    ensures Next(s, ReplaceField(t)).threads[t].done == s.threads[t].done + 1
  {
    MixtureAdvances(next, old_, s.threads[t].done);
  }

  /** A step that touches neither the stored config nor the replacing thread. */
  lemma Elsewhere(s: System, s': System, t: nat, next: Payload, old_: Payload)
    requires MidReplacement(s, t, next, old_)
    requires s'.payload == s.payload && |s'.threads| == |s.threads| && s'.threads[t] == s.threads[t]
    ensures MidReplacement(s', t, next, old_)
  {
  }

  /** While `t` replaces, it holds the mutex, so no other thread takes a step that needs it. */
  lemma OthersStayQuiet(s: System, t: nat, l: Label)
    requires Inv(s) && t < |s.threads| && s.threads[t].Replacing? && Enabled(s, l)
    ensures Quiet(l) || l.RaiseFault? || l == ReplaceField(t) || l == EndReplace(t)
    ensures Quiet(l) ==> l.t != t
  {
    assert NeedsMutex(s.threads[t]);
    if !l.RaiseFault? && l.t < |s.threads| && l.t != t {
      assert !NeedsMutex(s.threads[l.t]);
    }
  }

  lemma QuietKeepsPayload(s: System, l: Label)
    requires Enabled(s, l) && Quiet(l)
    ensures Next(s, l).payload == s.payload
  {
  }

  /** Until it ends, every step of the system keeps a replacement at a mixture of the same two configs. */
  lemma MidStep(s: System, l: Label, t: nat, next: Payload, old_: Payload)
    requires Inv(s) && Enabled(s, l) && MidReplacement(s, t, next, old_) && l != EndReplace(t)
    ensures MidReplacement(Next(s, l), t, next, old_)
  {
    OthersStayQuiet(s, t, l);
    if Quiet(l) {
      QuietIsOwn(s, l);
      QuietKeepsPayload(s, l);
      Elsewhere(s, Next(s, l), t, next, old_);
    } else if l == ReplaceField(t) {
      FieldAdvances(s, t, next, old_);
    } else {
      Elsewhere(s, Next(s, l), t, next, old_);
    }
  }

  lemma {:induction false} MidRun(s: System, ls: seq<Label>, t: nat, next: Payload, old_: Payload)
    requires Inv(s) && Legal(s, ls) && MidReplacement(s, t, next, old_) && EndReplace(t) !in ls
    ensures MidReplacement(Run(s, ls), t, next, old_)
    decreases |ls|
  {
    if |ls| > 0 {
      MidStep(s, ls[0], t, next, old_);
      StepKeepsInv(s, ls[0]);
      MidRun(Next(s, ls[0]), ls[1..], t, next, old_);
    }
  }

  /** A replacement under way came from an acceptable config. */
  ghost predicate FromAcceptable(s: System) {
    Replaces(s) ==>
      var t := s.mutex.value;
      exists old_ :: Acceptable(old_) && MidReplacement(s, t, s.threads[t].next, old_)
  }

  lemma {:induction false} RunKeepsOrigin(s: System, ls: seq<Label>)
    requires Inv(s) && Legal(s, ls) && FromAcceptable(s)
    ensures FromAcceptable(Run(s, ls))
    decreases |ls|
  {
    if |ls| > 0 {
      OriginStep(s, ls[0]);
      StepKeepsInv(s, ls[0]);
      RunKeepsOrigin(Next(s, ls[0]), ls[1..]);
    }
  }

  lemma OriginStep(s: System, l: Label)
    requires Inv(s) && Enabled(s, l) && FromAcceptable(s)
    ensures FromAcceptable(Next(s, l))
  {
    if Replaces(s) {
      OriginStays(s, l);
    } else if Replaces(Next(s, l)) {
      ReplacementStarts(s, l);
      ReplacementBegins(s, l.t);
    }
  }

  lemma OriginStays(s: System, l: Label)
    requires Inv(s) && Enabled(s, l) && FromAcceptable(s) && Replaces(s)
    ensures FromAcceptable(Next(s, l))
  {
    var t := s.mutex.value;
    var old_ :| Acceptable(old_) && MidReplacement(s, t, s.threads[t].next, old_);
    StepKeepsInv(s, l);
    if l != EndReplace(t) {
      MidStep(s, l, t, s.threads[t].next, old_);
      assert NeedsMutex(Next(s, l).threads[t]);
    }
  }

  /** Only beginning one, with the mode off, makes a replacement. */
  lemma ReplacementStarts(s: System, l: Label)
    requires Inv(s) && Enabled(s, l) && !Replaces(s) && Replaces(Next(s, l))
    ensures l.BeginReplace? && s.mode.Off? && Next(s, l).mutex == Some(l.t)
  {
    StepKeepsInv(s, l);
    if Quiet(l) {
      QuietIsOwn(s, l);
    }
  }

  /** The two configs of a mixture are valid by themselves, so only the seam between them can be wrong. */
  lemma MixtureValidIff(next: Payload, old_: Payload, done: nat)
    requires Acceptable(next) && Acceptable(old_) && done <= CONFIG_FIELDS
    ensures PolicyValid(PolicyOf(Mixture(next, old_, done))) <==> (1 <= done <= 3 ==> next[done - 1] < old_[done])
  {
    var m := Mixture(next, old_, done);
    assert forall i :: 0 <= i < CONFIG_FIELDS ==> m[i] == if i < done then next[i] else old_[i];
  }

  predicate SeamBroken(s: System) {
    Replaces(s) &&
    var done := s.threads[s.mutex.value].done;
    1 <= done <= 3 && done < |s.payload| && s.payload[done - 1] >= s.payload[done]
  }

  /** In every reachable state the stored policy is invalid exactly when a replacement stands between two
      thresholds that are out of order across the seam. */
  lemma PolicyInvalidIff(n: nat, ls: seq<Label>)
    requires Legal(Init(n), ls)
    ensures |Run(Init(n), ls).payload| == CONFIG_FIELDS
    ensures PolicyValid(PolicyOf(Run(Init(n), ls).payload)) <==> !SeamBroken(Run(Init(n), ls))
  {
    InitInv(n);
    RunKeepsInv(Init(n), ls);
    RunKeepsOrigin(Init(n), ls);
    SeamDecides(Run(Init(n), ls));
  }

  lemma SeamDecides(s: System)
    requires Inv(s) && FromAcceptable(s)
    ensures PolicyValid(PolicyOf(s.payload)) <==> !SeamBroken(s)
  {
    if Replaces(s) {
      var t := s.mutex.value;
      var old_ :| Acceptable(old_) && MidReplacement(s, t, s.threads[t].next, old_);
      assert ThreadOk(s, t);
      MixtureValidIff(s.threads[t].next, old_, s.threads[t].done);
    }
  }

  /** What whoever changes the config can check beforehand: each new threshold below the next old one. */
  predicate SafeChange(old_: Payload, next: Payload)
    requires |old_| == |next| == CONFIG_FIELDS
  {
    next[0] < old_[1] && next[1] < old_[2] && next[2] < old_[3]
  }

  lemma MixturesValidIff(old_: Payload, next: Payload)
    requires Acceptable(old_) && Acceptable(next)
    ensures (forall done: nat :: done <= CONFIG_FIELDS ==> PolicyValid(PolicyOf(Mixture(next, old_, done))))
            <==> SafeChange(old_, next)
  {
    MixtureValidIff(next, old_, 1);
    MixtureValidIff(next, old_, 2);
    MixtureValidIff(next, old_, 3);
    forall done: nat | done <= CONFIG_FIELDS && SafeChange(old_, next)
      ensures PolicyValid(PolicyOf(Mixture(next, old_, done)))
    {
      MixtureValidIff(next, old_, done);
    }
  }

  /** Every state in which the replacement `t` began at `s` can be seen shows a valid policy. */
  ghost predicate NeverShowsInvalid(s: System, t: nat) {
    forall after :: Legal(s, after) && EndReplace(t) !in after ==> ShowsValid(Run(s, after))
  }

  predicate ShowsValid(s: System) {
    |s.payload| == CONFIG_FIELDS && PolicyValid(PolicyOf(s.payload))
  }

  lemma {:induction false} FieldsReplaced(s: System, t: nat, k: nat, next: Payload, old_: Payload)
    requires MidReplacement(s, t, next, old_) && s.threads[t].done + k <= CONFIG_FIELDS
    ensures
      var ls := seq(k, i => ReplaceField(t));
      && Legal(s, ls) && MidReplacement(Run(s, ls), t, next, old_)
      && Run(s, ls).threads[t].done == s.threads[t].done + k
    decreases k
  {
    if k > 0 {
      FieldAdvances(s, t, next, old_);
      FieldsReplaced(Next(s, ReplaceField(t)), t, k - 1, next, old_);
      assert seq(k, i => ReplaceField(t))[1..] == seq(k - 1, i => ReplaceField(t));
    }
  }

  /** In every run, a replacement about to begin never shows an invalid policy, whatever else happens until it
      ends, exactly when its thresholds pass the check against the stored ones. */
  lemma ReplacementSafeIff(n: nat, before: seq<Label>, t: nat)
    requires Legal(Init(n), before) && Enabled(Run(Init(n), before), BeginReplace(t))
    requires Run(Init(n), before).mode.Off?
    ensures
      var s := Run(Init(n), before);
      && Acceptable(s.payload) && Acceptable(s.threads[t].next)
      && (NeverShowsInvalid(Next(s, BeginReplace(t)), t) <==> SafeChange(s.payload, s.threads[t].next))
  {
    InitInv(n);
    RunKeepsInv(Init(n), before);
    ReplacementBegins(Run(Init(n), before), t);
    StepKeepsInv(Run(Init(n), before), BeginReplace(t));
    BegunSafeIff(Next(Run(Init(n), before), BeginReplace(t)), t,
                 Run(Init(n), before).threads[t].next, Run(Init(n), before).payload);
  }

  lemma BegunSafeIff(s: System, t: nat, next: Payload, old_: Payload)
    requires Inv(s) && MidReplacement(s, t, next, old_) && s.threads[t].done == 0
    requires Acceptable(next) && Acceptable(old_)
    ensures NeverShowsInvalid(s, t) <==> SafeChange(old_, next)
  {
    if SafeChange(old_, next) {
      forall after | Legal(s, after) && EndReplace(t) !in after
        ensures ShowsValid(Run(s, after))
      {
        MidRun(s, after, t, next, old_);
        SafeShowsValid(Run(s, after), t, next, old_);
      }
    } else {
      BrokenSeamReached(s, t, next, old_);
    }
  }

  lemma SafeShowsValid(s: System, t: nat, next: Payload, old_: Payload)
    requires MidReplacement(s, t, next, old_) && Acceptable(next) && Acceptable(old_) && SafeChange(old_, next)
    ensures ShowsValid(s)
  {
    MixtureValidIff(next, old_, s.threads[t].done);
  }

  lemma BrokenSeamReached(s: System, t: nat, next: Payload, old_: Payload)
    requires MidReplacement(s, t, next, old_) && s.threads[t].done == 0
    requires Acceptable(next) && Acceptable(old_) && !SafeChange(old_, next)
    ensures !NeverShowsInvalid(s, t)
  {
    var k := if next[0] >= old_[1] then 1 else if next[1] >= old_[2] then 2 else 3;
    var ls := seq(k, i => ReplaceField(t));
    FieldsReplaced(s, t, k, next, old_);
    MixtureValidIff(next, old_, k);
    assert EndReplace(t) !in ls;
    assert !ShowsValid(Run(s, ls));
  }

  // ----- activations and batches -----

  /** Whenever an activation is being opened or a config replaced, no batch is at work: none holds a config,
      and none is past seeing the mode on. */
  lemma NoBatchWhileOpening(n: nat, ls: seq<Label>, t: nat)
    requires Legal(Init(n), ls) && t < |Run(Init(n), ls).threads|
    requires OnlyWhileOff(Run(Init(n), ls).threads[t])
    ensures
      var s := Run(Init(n), ls);
      NobodyPins(s) && forall u :: 0 <= u < |s.threads| ==> !s.threads[u].Holding?
  {
    InitInv(n);
    RunKeepsInv(Init(n), ls);
    var s := Run(Init(n), ls);
    ExclusionHolds(s, t);
    forall u | 0 <= u < |s.threads|
      ensures !s.threads[u].Holding?
    {
      assert ThreadOk(s, u);
    }
  }

  // ----- what a mode change, a config change and a batch get done -----

  lemma ApplyModes(m: Mode)
    ensures ApplyMode(m) <==> m in {ProtectOnly, Bidirectional, RandomMatched, RecencyBaseline}
  {
  }

  /** In every run, a mode change made under the mutex opens an activation exactly when the mode is off, the
      target on, a number left, and at most two upgrade tiers configured if the target applies decisions; it
      turns the mode off exactly when that is asked while it is on; anything else changes nothing. */
  lemma ModeCheckOutcome(n: nat, ls: seq<Label>, t: nat)
    requires Legal(Init(n), ls) && Enabled(Run(Init(n), ls), CheckMode(t))
    ensures
      var s := Run(Init(n), ls);
      var target := s.threads[t].target;
      var s' := Next(s, CheckMode(t));
      |s.payload| == CONFIG_FIELDS &&
      if target.Off? then s' == if On(s.mode) then To(s, t, Published).(mode := Off) else To(s, t, Releasing)
      else if s.mode.Off? && s.epoch < 255 && (target.Shadow? || s.payload[4] <= 2) then s' == To(s, t, Opening(target))
      else s' == To(s, t, Releasing)
  {
    InitInv(n);
    RunKeepsInv(Init(n), ls);
    CheckedIs(Run(Init(n), ls), t);
  }

  lemma CheckedIs(s: System, t: nat)
    requires Inv(s) && Enabled(s, CheckMode(t))
    ensures
      var target := s.threads[t].target;
      Checked(s, t, target) ==
      if target.Off? then if On(s.mode) then To(s, t, Published).(mode := Off) else To(s, t, Releasing)
      else if s.mode.Off? && s.epoch < 255 && (target.Shadow? || s.payload[4] <= 2) then To(s, t, Opening(target))
      else To(s, t, Releasing)
  {
    assert NeedsMutex(s.threads[t]) && !Replaces(s);
  }

  /** Thread `t` is opening an activation for `target`, the last number before it being `last`. */
  predicate OpeningFor(s: System, t: nat, target: Mode, last: nat) {
    && t < |s.threads| && s.mode.Off?
    && ((s.threads[t] == Opening(target) && s.epoch == last)
        || ((s.threads[t] == Numbered(target) || s.threads[t] == Cleared(target)) && s.epoch == last + 1))
  }

  /** While a thread holds the mutex, every step is its own, a quiet one of another, or a fault. */
  lemma HolderAlone(s: System, t: nat, l: Label)
    requires Inv(s) && t < |s.threads| && NeedsMutex(s.threads[t]) && Enabled(s, l)
    ensures l.RaiseFault? || l.t == t || (Quiet(l) && l.t != t)
  {
    if !l.RaiseFault? && l.t < |s.threads| && l.t != t {
      assert !NeedsMutex(s.threads[l.t]);
    }
  }

  lemma OpeningStep(s: System, l: Label, t: nat, target: Mode, last: nat)
    requires Inv(s) && Enabled(s, l) && OpeningFor(s, t, target, last)
    ensures
      if l == PublishOn(t) then Next(s, l).mode == target && Next(s, l).epoch == last + 1
      else OpeningFor(Next(s, l), t, target, last)
  {
    HolderAlone(s, t, l);
    if !l.RaiseFault? && l.t == t {
      OpeningOwnStep(s, l, t, target, last);
    } else if !l.RaiseFault? {
      QuietIsOwn(s, l);
      OpeningUndisturbed(s, Next(s, l), t, target, last);
    }
  }

  lemma OpeningUndisturbed(s: System, s': System, t: nat, target: Mode, last: nat)
    requires OpeningFor(s, t, target, last) && |s'.threads| == |s.threads| && s'.threads[t] == s.threads[t]
    requires s'.mode == s.mode && s'.epoch == s.epoch
    ensures OpeningFor(s', t, target, last)
  {
  }

  /** Its own next step is to take the number, to clear the fault, or to publish. */
  lemma OpeningOwnStep(s: System, l: Label, t: nat, target: Mode, last: nat)
    requires Enabled(s, l) && OpeningFor(s, t, target, last) && !l.RaiseFault? && l.t == t
    ensures
      if l == PublishOn(t) then Next(s, l).mode == target && Next(s, l).epoch == last + 1
      else OpeningFor(Next(s, l), t, target, last)
  {
    assert l == TakeNumber(t) || l == ClearFault(t) || l == PublishOn(t);
  }

  lemma {:induction false} OpeningRun(s: System, ls: seq<Label>, t: nat, target: Mode, last: nat)
    requires Inv(s) && Legal(s, ls) && OpeningFor(s, t, target, last) && PublishOn(t) !in ls
    ensures Inv(Run(s, ls)) && OpeningFor(Run(s, ls), t, target, last)
    decreases |ls|
  {
    if |ls| > 0 {
      OpeningStep(s, ls[0], t, target, last);
      StepKeepsInv(s, ls[0]);
      OpeningRun(Next(s, ls[0]), ls[1..], t, target, last);
    }
  }

  /** In every run, whatever happens between, the thread that opens an activation publishes the mode it was asked
      for, with the next number. */
  lemma OpeningPublishesTarget(n: nat, before: seq<Label>, t: nat, after: seq<Label>)
    requires Legal(Init(n), before) && t < |Run(Init(n), before).threads| && Run(Init(n), before).threads[t].Opening?
    requires Legal(Run(Init(n), before), after) && PublishOn(t) !in after
    requires Enabled(Run(Run(Init(n), before), after), PublishOn(t))
    ensures
      var s := Run(Init(n), before);
      var s' := Next(Run(s, after), PublishOn(t));
      s'.mode == s.threads[t].target && s'.epoch == s.epoch + 1
  {
    InitInv(n);
    RunKeepsInv(Init(n), before);
    var s := Run(Init(n), before);
    OpeningRun(s, after, t, s.threads[t].target, s.epoch);
    OpeningStep(Run(s, after), PublishOn(t), t, s.threads[t].target, s.epoch);
  }

  ghost predicate GraceInside(s: System) {
    forall t :: t in s.grace ==> t < |s.threads| && InSection(s.threads[t])
  }

  lemma GraceKept(s: System, l: Label)
    requires Inv(s) && Enabled(s, l) && GraceInside(s)
    ensures GraceInside(Next(s, l))
  {
    if l.StartGrace? {
      assert forall t :: t in InSectionSet(s) ==> s.threads[t] != s.threads[l.t];
    } else if Quiet(l) {
      QuietGrace(s, l);
    } else if !l.RaiseFault? {
      GraceElsewhere(s, l);
    }
  }

  lemma QuietGrace(s: System, l: Label)
    requires Enabled(s, l) && Quiet(l) && GraceInside(s)
    ensures GraceInside(Next(s, l))
  {
  }

  lemma GraceElsewhere(s: System, l: Label)
    requires Enabled(s, l) && !Quiet(l) && !l.RaiseFault? && !l.StartGrace? && GraceInside(s)
    ensures GraceInside(Next(s, l))
  {
    assert !InSection(s.threads[l.t]);
  }

  lemma {:induction false} RunKeepsGrace(s: System, ls: seq<Label>)
    requires Inv(s) && Legal(s, ls) && GraceInside(s)
    ensures GraceInside(Run(s, ls))
    decreases |ls|
  {
    if |ls| > 0 {
      GraceKept(s, ls[0]);
      StepKeepsInv(s, ls[0]);
      RunKeepsGrace(Next(s, ls[0]), ls[1..]);
    }
  }

  /** In every run, a grace period waits for batches inside their section only: once there is none, it can end. */
  lemma GraceCanEnd(n: nat, ls: seq<Label>, t: nat)
    requires Legal(Init(n), ls) && t < |Run(Init(n), ls).threads| && Run(Init(n), ls).threads[t].Waiting?
    requires forall u :: 0 <= u < |Run(Init(n), ls).threads| ==> !InSection(Run(Init(n), ls).threads[u])
    ensures Enabled(Run(Init(n), ls), EndGrace(t))
  {
    InitInv(n);
    RunKeepsGrace(Init(n), ls);
  }

  /** It can do so at once, and the fault is cleared then. */
  lemma OpeningCompletes(s: System, t: nat)
    requires t < |s.threads| && s.threads[t].Opening?
    ensures
      var ls := [TakeNumber(t), ClearFault(t), PublishOn(t)];
      && Legal(s, ls)
      && Run(s, ls) == To(s, t, Published).(mode := s.threads[t].target, epoch := s.epoch + 1, fault := false)
  {
    var s1 := Next(s, TakeNumber(t));
    var s2 := Next(s1, ClearFault(t));
    Unfold(s2, PublishOn(t), []);
    Unfold(s1, ClearFault(t), [PublishOn(t)]);
    Unfold(s, TakeNumber(t), [ClearFault(t), PublishOn(t)]);
    assert [PublishOn(t)] + [] == [PublishOn(t)];
    assert [ClearFault(t)] + [PublishOn(t)] == [ClearFault(t), PublishOn(t)];
    assert [TakeNumber(t)] + [ClearFault(t), PublishOn(t)] == [TakeNumber(t), ClearFault(t), PublishOn(t)];
    assert Next(s2, PublishOn(t)).threads == s.threads[t := Published];
  }

  /** In every run with the mutex free, an idle thread can turn the mode off by its own steps whenever it is on, and
      turn it on for any target that the number and the configured tiers allow whenever it is off. */
  lemma ModeCanChange(n: nat, before: seq<Label>, t: nat, target: Mode) returns (ls: seq<Label>)
    requires Legal(Init(n), before) && t < |Run(Init(n), before).threads| && Run(Init(n), before).threads[t].Idle?
    requires Run(Init(n), before).mutex.None?
    requires |Run(Init(n), before).payload| == CONFIG_FIELDS
    requires
      var s := Run(Init(n), before);
      if target.Off? then On(s.mode) else s.mode.Off? && s.epoch < 255 && (target.Shadow? || s.payload[4] <= 2)
    ensures
      var s := Run(Init(n), before);
      && Legal(s, ls) && Run(s, ls).mode == target && Run(s, ls).payload == s.payload
      && Run(s, ls).epoch == if target.Off? then s.epoch else s.epoch + 1
  {
    InitInv(n);
    RunKeepsInv(Init(n), before);
    ls := ChangeMode(Run(Init(n), before), t, target);
  }

  lemma ChangeMode(s: System, t: nat, target: Mode) returns (ls: seq<Label>)
    requires Inv(s) && t < |s.threads| && s.threads[t].Idle? && s.mutex.None?
    requires if target.Off? then On(s.mode) else s.mode.Off? && s.epoch < 255 && (target.Shadow? || s.payload[4] <= 2)
    ensures Legal(s, ls) && Run(s, ls).mode == target && Run(s, ls).payload == s.payload
    ensures Run(s, ls).epoch == if target.Off? then s.epoch else s.epoch + 1
  {
    QuietTo(s, t, WantMode(target));
    ls := ChangeWanted(To(s, t, WantMode(target)), t, target);
    ls := Before(s, AskMode(t, target), To(s, t, WantMode(target)), ls);
  }

  lemma ChangeWanted(s: System, t: nat, target: Mode) returns (ls: seq<Label>)
    requires Inv(s) && t < |s.threads| && s.threads[t] == WantMode(target) && s.mutex.None?
    requires if target.Off? then On(s.mode) else s.mode.Off? && s.epoch < 255 && (target.Shadow? || s.payload[4] <= 2)
    ensures Legal(s, ls) && Run(s, ls).mode == target && Run(s, ls).payload == s.payload
    ensures Run(s, ls).epoch == if target.Off? then s.epoch else s.epoch + 1
  {
    var s1 := To(s, t, ModeLocked(target)).(mutex := Some(t));
    LockModeStep(s, t);
    ls := ChangeLocked(s1, t, target);
    ls := Before(s, LockMode(t), s1, ls);
  }

  lemma ChangeLocked(s: System, t: nat, target: Mode) returns (ls: seq<Label>)
    requires Inv(s) && t < |s.threads| && s.threads[t] == ModeLocked(target)
    requires if target.Off? then On(s.mode) else s.mode.Off? && s.epoch < 255 && (target.Shadow? || s.payload[4] <= 2)
    ensures Legal(s, ls) && Run(s, ls).mode == target && Run(s, ls).payload == s.payload
    ensures Run(s, ls).epoch == if target.Off? then s.epoch else s.epoch + 1
  {
    CheckedIs(s, t);
    if target.Off? {
      ls := Before(s, CheckMode(t), To(s, t, Published).(mode := Off), []);
    } else {
      OpeningCompletes(To(s, t, Opening(target)), t);
      ls := Before(s, CheckMode(t), To(s, t, Opening(target)), [TakeNumber(t), ClearFault(t), PublishOn(t)]);
    }
  }

  /** In every run with the mutex free and the mode off, an idle thread can store any acceptable config. */
  lemma ConfigCanChange(n: nat, before: seq<Label>, t: nat, next: Payload) returns (ls: seq<Label>)
    requires Legal(Init(n), before) && t < |Run(Init(n), before).threads| && Run(Init(n), before).threads[t].Idle?
    requires Run(Init(n), before).mutex.None? && Run(Init(n), before).mode.Off? && Acceptable(next)
    ensures
      var s := Run(Init(n), before);
      Legal(s, ls) && Run(s, ls).payload == next && Run(s, ls).threads == s.threads && Run(s, ls).mutex.None?
  {
    InitInv(n);
    RunKeepsInv(Init(n), before);
    ls := ChangeConfig(Run(Init(n), before), t, next);
  }

  lemma ChangeConfig(s: System, t: nat, next: Payload) returns (ls: seq<Label>)
    requires t < |s.threads| && |s.payload| == CONFIG_FIELDS && s.threads[t].Idle?
    requires s.mutex.None? && s.mode.Off? && Acceptable(next)
    ensures Legal(s, ls) && Run(s, ls).payload == next && Run(s, ls).threads == s.threads && Run(s, ls).mutex.None?
  {
    ConfigLocks(s, t, next);
    var s1 := To(s, t, WantConfig(next));
    var s2 := To(s, t, ConfigLocked(next)).(mutex := Some(t));
    ls := ReplaceLocked(s2, t, next);
    assert s2.threads[t := Idle] == s.threads;
    ls := Before(s1, LockConfig(t), s2, ls);
    ls := Before(s, AskConfig(t, next), s1, ls);
  }

  lemma ConfigLocks(s: System, t: nat, next: Payload)
    requires t < |s.threads| && s.threads[t].Idle? && s.mutex.None? && Acceptable(next)
    ensures
      var s1 := To(s, t, WantConfig(next));
      && Enabled(s, AskConfig(t, next)) && Next(s, AskConfig(t, next)) == s1
      && Enabled(s1, LockConfig(t)) && Next(s1, LockConfig(t)) == To(s, t, ConfigLocked(next)).(mutex := Some(t))
  {
  }

  lemma ReplaceLocked(s: System, t: nat, next: Payload) returns (ls: seq<Label>)
    requires t < |s.threads| && s.threads[t] == ConfigLocked(next) && s.mode.Off?
    requires |s.payload| == |next| == CONFIG_FIELDS
    ensures Legal(s, ls) && Run(s, ls).payload == next
    ensures Run(s, ls).threads == s.threads[t := Idle] && Run(s, ls).mutex.None?
  {
    var s1 := Next(s, BeginReplace(t));
    assert Mixture(next, s.payload, 0) == s.payload;
    ls := StoreRest(s1, t, next, s.payload, 0);
    assert s1.threads[t := Idle] == s.threads[t := Idle];
    ls := Before(s, BeginReplace(t), s1, ls);
  }

  lemma StoreRest(s: System, t: nat, next: Payload, old_: Payload, done: nat) returns (ls: seq<Label>)
    requires MidReplacement(s, t, next, old_) && s.threads[t].done == done
    ensures Legal(s, ls) && Run(s, ls).payload == next
    ensures Run(s, ls).threads == s.threads[t := Idle] && Run(s, ls).mutex.None?
    decreases CONFIG_FIELDS - done
  {
    if done < CONFIG_FIELDS {
      FieldAdvances(s, t, next, old_);
      ls := StoreRest(Next(s, ReplaceField(t)), t, next, old_, done + 1);
      assert Next(s, ReplaceField(t)).threads[t := Idle] == s.threads[t := Idle];
      ls := Before(s, ReplaceField(t), Next(s, ReplaceField(t)), ls);
    } else {
      assert s.payload == next;
      ls := EndAndUnlock(s, t);
    }
  }

  lemma EndAndUnlock(s: System, t: nat) returns (ls: seq<Label>)
    requires Enabled(s, EndReplace(t))
    ensures Legal(s, ls) && Run(s, ls).payload == s.payload
    ensures Run(s, ls).threads == s.threads[t := Idle] && Run(s, ls).mutex.None?
  {
    var s1 := Next(s, EndReplace(t));
    ls := Before(s1, Unlock(t), Next(s1, Unlock(t)), []);
    ls := Before(s, EndReplace(t), s1, ls);
  }

  /** A config change goes ahead exactly when the mode is off; otherwise it changes nothing. */
  lemma ReplaceOutcome(s: System, t: nat)
    requires Enabled(s, BeginReplace(t))
    ensures
      Next(s, BeginReplace(t)) ==
      if s.mode.Off? then
        To(s, t, Replacing(s.threads[t].next, 0)).(sequence := (s.sequence + 1) % 0x1_0000_0000)
      else To(s, t, Releasing)
  {
  }

  /** Once under way, in every continuation, a replacement that ends has stored exactly the new config. */
  lemma ReplacementStores(n: nat, before: seq<Label>, t: nat, after: seq<Label>)
    requires Legal(Init(n), before) && Enabled(Run(Init(n), before), BeginReplace(t)) && Run(Init(n), before).mode.Off?
    requires Legal(Next(Run(Init(n), before), BeginReplace(t)), after) && EndReplace(t) !in after
    requires Enabled(Run(Next(Run(Init(n), before), BeginReplace(t)), after), EndReplace(t))
    ensures
      var s := Run(Init(n), before);
      var s' := Next(Run(Next(s, BeginReplace(t)), after), EndReplace(t));
      s'.payload == s.threads[t].next && s'.mode.Off? && s'.sequence % 2 == 0
  {
    InitInv(n);
    RunKeepsInv(Init(n), before);
    var s := Run(Init(n), before);
    ReplacementBegins(s, t);
    StepKeepsInv(s, BeginReplace(t));
    StoredWhenEnded(Next(s, BeginReplace(t)), t, after, s.threads[t].next, s.payload);
  }

  lemma StoredWhenEnded(s: System, t: nat, after: seq<Label>, next: Payload, old_: Payload)
    requires Inv(s) && MidReplacement(s, t, next, old_) && Legal(s, after) && EndReplace(t) !in after
    requires Enabled(Run(s, after), EndReplace(t))
    ensures
      var s' := Next(Run(s, after), EndReplace(t));
      s'.payload == next && s'.mode.Off? && s'.sequence % 2 == 0
  {
    RunKeepsInv(s, after);
    MidRun(s, after, t, next, old_);
    var s1 := Run(s, after);
    assert s1.payload == next;
    assert NeedsMutex(s1.threads[t]) && Replaces(s1);
    ReplacingMeansOff(s1);
    ParityFlips(s1.sequence);
  }

  /** It can always be carried through: begin, fifteen fields, end. */
  lemma ReplacementCompletes(s: System, t: nat, next: Payload, old_: Payload)
    requires MidReplacement(s, t, next, old_) && s.threads[t].done == 0
    ensures
      var ls := seq(CONFIG_FIELDS, i => ReplaceField(t));
      Legal(s, ls) && Enabled(Run(s, ls), EndReplace(t))
  {
    FieldsReplaced(s, t, CONFIG_FIELDS, next, old_);
  }

  /** A budget that lets a first page through. */
  predicate Useful(limit: int, ratio: int) {
    limit > 0 && ratio > 0 && BudgetAllows(0, 1, 1, limit, ratio)
  }

  /** The range check accepts exactly the configs with a valid policy, a yes or no on two-cold evidence, and
      budgets that can let a page through. */
  lemma AcceptableIff(p: Payload)
    requires |p| == CONFIG_FIELDS
    ensures Acceptable(p) <==>
            && PolicyValid(PolicyOf(p)) && p[6] in {0, 1}
            && Useful(p[7], p[9]) && Useful(p[8], p[9]) && Useful(p[10], p[12]) && Useful(p[11], p[12])
  {
    forall limit: int, ratio: int
      ensures Useful(limit, ratio) <==> limit > 0 && 0 < ratio <= 10000
    {
      UsefulIff(limit, ratio);
    }
  }

  lemma UsefulIff(limit: int, ratio: int)
    ensures Useful(limit, ratio) <==> limit > 0 && 0 < ratio <= 10000
  {
    if limit > 0 && ratio > 0 {
      BudgetAllowsIff(0, 1, 1, limit, ratio);
    }
  }

  lemma AskOutcome(s: System, t: nat, next: Payload)
    requires Enabled(s, AskConfig(t, next))
    ensures Next(s, AskConfig(t, next)) == To(s, t, if Acceptable(next) then WantConfig(next) else Idle)
  {
  }

  /** In every run with the mode on and no fault raised, an idle thread can open a batch by its own steps, and
      holds the stored config, the mode and the activation number then. */
  lemma BatchCanOpen(n: nat, before: seq<Label>, t: nat) returns (ls: seq<Label>)
    requires Legal(Init(n), before) && t < |Run(Init(n), before).threads| && Run(Init(n), before).threads[t].Idle?
    requires On(Run(Init(n), before).mode) && !Run(Init(n), before).fault
    ensures
      var s := Run(Init(n), before);
      && Legal(s, ls)
      && Run(s, ls).threads == s.threads[t := Holding(Batch(s.mode, s.payload, s.sequence, s.epoch))]
  {
    InitInv(n);
    RunKeepsInv(Init(n), before);
    ls := BatchOpens(Run(Init(n), before), t);
  }

  lemma BatchOpens(s: System, t: nat) returns (ls: seq<Label>)
    requires Inv(s) && t < |s.threads| && s.threads[t].Idle? && On(s.mode) && !s.fault
    ensures Legal(s, ls)
    ensures Run(s, ls) == To(s, t, Holding(Batch(s.mode, s.payload, s.sequence, s.epoch)))
  {
    ReplacingMeansOff(s);
    var s1 := To(s, t, Entered);
    var s2 := To(s, t, SawMode(s.mode));
    var s3 := To(s, t, SawNoFault(s.mode));
    ls := OpenFromSeen(s, t);
    ls := Before(s2, ReadFault(t), s3, ls);
    ls := Before(s1, ReadMode(t), s2, ls);
    ls := Before(s, Enter(t), s1, ls);
  }

  lemma OpenFromSeen(s: System, t: nat) returns (ls: seq<Label>)
    requires t < |s.threads| && |s.payload| == CONFIG_FIELDS && s.sequence % 2 == 0 && On(s.mode)
    ensures Legal(To(s, t, SawNoFault(s.mode)), ls)
    ensures Run(To(s, t, SawNoFault(s.mode)), ls)
            == To(s, t, Holding(Batch(s.mode, s.payload, s.sequence, s.epoch)))
  {
    var s3 := To(s, t, SawNoFault(s.mode));
    var s4 := To(s, t, Sampled(s.mode, None, s.sequence));
    var s5 := To(s, t, Copying(s.mode, None, s.sequence, s.sequence, []));
    assert s.payload[..0] == [];
    ls := CopyRest(s, t, 0);
    ls := Before(s4, CopySequence(t), s5, ls);
    ls := Before(s3, Sample(t), s4, ls);
  }

  /** A read under way copies the fields from the `k`-th on, passes its recheck and takes the number. */
  lemma CopyRest(s: System, t: nat, k: nat) returns (ls: seq<Label>)
    requires t < |s.threads| && |s.payload| == CONFIG_FIELDS && s.sequence % 2 == 0 && k <= CONFIG_FIELDS
    ensures Legal(To(s, t, Copying(s.mode, None, s.sequence, s.sequence, s.payload[..k])), ls)
    ensures Run(To(s, t, Copying(s.mode, None, s.sequence, s.sequence, s.payload[..k])), ls)
            == To(s, t, Holding(Batch(s.mode, s.payload, s.sequence, s.epoch)))
    decreases CONFIG_FIELDS - k
  {
    if k < CONFIG_FIELDS {
      var s1 := To(s, t, Copying(s.mode, None, s.sequence, s.sequence, s.payload[..k]));
      assert s.payload[..k] + [s.payload[k]] == s.payload[..k + 1];
      var s2 := To(s, t, Copying(s.mode, None, s.sequence, s.sequence, s.payload[..k + 1]));
      ls := CopyRest(s, t, k + 1);
      ls := Before(s1, CopyField(t), s2, ls);
    } else {
      assert s.payload[..k] == s.payload;
      ls := PassRecheck(s, t);
    }
  }

  lemma PassRecheck(s: System, t: nat) returns (ls: seq<Label>)
    requires t < |s.threads| && |s.payload| == CONFIG_FIELDS && s.sequence % 2 == 0
    ensures Legal(To(s, t, Copying(s.mode, None, s.sequence, s.sequence, s.payload)), ls)
    ensures Run(To(s, t, Copying(s.mode, None, s.sequence, s.sequence, s.payload)), ls)
            == To(s, t, Holding(Batch(s.mode, s.payload, s.sequence, s.epoch)))
  {
    var s1 := To(s, t, Copying(s.mode, None, s.sequence, s.sequence, s.payload));
    var s2 := To(s, t, NeedRun(s.mode, s.payload, s.sequence));
    var s3 := To(s, t, Holding(Batch(s.mode, s.payload, s.sequence, s.epoch)));
    ls := Before(s2, ReadRun(t), s3, []);
    ls := Before(s1, Recheck(t), s2, ls);
  }

  lemma Before(s: System, l: Label, s': System, rest: seq<Label>) returns (ls: seq<Label>)
    requires Enabled(s, l) && Next(s, l) == s' && Legal(s', rest)
    ensures Legal(s, ls) && Run(s, ls) == Run(s', rest)
  {
    ls := [l] + rest;
    Unfold(s, l, rest);
  }

  /** With the fault raised a batch does not get past the check. */
  lemma FaultStopsBatch(s: System, t: nat)
    requires Enabled(s, ReadFault(t))
    ensures Next(s, ReadFault(t)) == if s.fault then s else To(s, t, SawNoFault(s.threads[t].mode))
  {
  }

  // ----- one such replacement -----

  const SHIFTED: Payload := [200, 300, 400, 500, 2, 1, 1, 2, 8, 100, 1, 4, 50, 0, 0]

  lemma Unfold(s: System, l: Label, rest: seq<Label>)
    requires Enabled(s, l) && Legal(Next(s, l), rest)
    ensures Legal(s, [l] + rest) && Run(s, [l] + rest) == Run(Next(s, l), rest)
  {
    assert ([l] + rest)[1..] == rest;
  }

  lemma FourSteps(s: System, a: Label, b: Label, c: Label, d: Label)
    requires Enabled(s, a) && Enabled(Next(s, a), b) && Enabled(Next(Next(s, a), b), c)
    requires Enabled(Next(Next(Next(s, a), b), c), d)
    ensures Legal(s, [a, b, c, d]) && Run(s, [a, b, c, d]) == Next(Next(Next(Next(s, a), b), c), d)
  {
    var s1 := Next(s, a);
    var s2 := Next(s1, b);
    var s3 := Next(s2, c);
    Unfold(s3, d, []);
    Unfold(s2, c, [d]);
    Unfold(s1, b, [c, d]);
    Unfold(s, a, [b, c, d]);
    assert [d] + [] == [d] && [c] + [d] == [c, d] && [b] + [c, d] == [b, c, d] && [a] + [b, c, d] == [a, b, c, d];
  }

  /** One thread replacing the default config, `th` being where it stands. */
  function Alone(sequence: nat, payload: Payload, mutex: Option<nat>, th: Thread): System {
    System(Off, 0, false, sequence, payload, mutex, {}, [th])
  }

  function Midway(): System {
    Alone(1, DEFAULT[0 := 200], Some(0), Replacing(SHIFTED, 1))
  }

  lemma Ask()
    ensures
      && Enabled(Init(1), AskConfig(0, SHIFTED))
      && Next(Init(1), AskConfig(0, SHIFTED)) == Alone(0, DEFAULT, None, WantConfig(SHIFTED))
  {
    assert Init(1).threads == [Idle];
    assert Acceptable(SHIFTED);
  }

  lemma Lock()
    ensures
      var s1 := Alone(0, DEFAULT, None, WantConfig(SHIFTED));
      Enabled(s1, LockConfig(0)) && Next(s1, LockConfig(0)) == Alone(0, DEFAULT, Some(0), ConfigLocked(SHIFTED))
  {
  }

  lemma BeginAndReplace()
    ensures
      var s2 := Alone(0, DEFAULT, Some(0), ConfigLocked(SHIFTED));
      var s3 := Alone(1, DEFAULT, Some(0), Replacing(SHIFTED, 0));
      && Enabled(s2, BeginReplace(0)) && Next(s2, BeginReplace(0)) == s3
      && Enabled(s3, ReplaceField(0)) && Next(s3, ReplaceField(0)) == Midway()
  {
  }

  lemma MidwayReached()
    ensures Legal(Init(1), [AskConfig(0, SHIFTED), LockConfig(0), BeginReplace(0), ReplaceField(0)])
    ensures Run(Init(1), [AskConfig(0, SHIFTED), LockConfig(0), BeginReplace(0), ReplaceField(0)]) == Midway()
  {
    Ask();
    Lock();
    BeginAndReplace();
    FourSteps(Init(1), AskConfig(0, SHIFTED), LockConfig(0), BeginReplace(0), ReplaceField(0));
  }

  /** While the sequence is odd the stored fields can mix two configs into an invalid policy: here the
      cold threshold is already new and the hot ones are still old. */
  lemma PolicyCanBeInvalidMidway()
    ensures exists ls: seq<Label> ::
              Legal(Init(1), ls)
              && var s := Run(Init(1), ls);
                 |s.payload| == CONFIG_FIELDS && s.sequence % 2 == 1 && !PolicyValid(PolicyOf(s.payload))
  {
    MidwayReached();
    var ls := [AskConfig(0, SHIFTED), LockConfig(0), BeginReplace(0), ReplaceField(0)];
    assert Legal(Init(1), ls) && Run(Init(1), ls) == Midway();
    assert !PolicyValid(PolicyOf(Midway().payload));
  }

  lemma ReplacingMeansOff(s: System)
    requires Inv(s)
    ensures Replaces(s) ==> s.mode.Off?
  {
  }

  // ----- activation numbers -----

  predicate NumberTaken(s: System) {
    s.mutex.Some? && s.mutex.value < |s.threads|
    && (s.threads[s.mutex.value].Numbered? || s.threads[s.mutex.value].Cleared?)
  }

  /** The highest activation number any batch can have seen so far. */
  function UsedNumber(s: System): int {
    if NumberTaken(s) then s.epoch - 1 else s.epoch
  }

  predicate NumberMoves(s: System, s': System) {
    && UsedNumber(s) <= UsedNumber(s')
    && (On(s.mode) && On(s'.mode) ==> s'.epoch == s.epoch && s'.mode == s.mode)
    && (s.mode.Off? && On(s'.mode) ==> s'.epoch > UsedNumber(s))
  }

  /** A step outside the mutex shows the mutex holder, the mode and the number unchanged. */
  lemma NumberOwn(s: System, s': System, t: nat)
    requires Inv(s) && t < |s.threads| && !NeedsMutex(s.threads[t])
    requires s'.mode == s.mode && s'.epoch == s.epoch && s'.mutex == s.mutex && |s'.threads| == |s.threads|
    requires forall u :: 0 <= u < |s.threads| && u != t ==> s'.threads[u] == s.threads[u]
    ensures NumberMoves(s, s')
  {
  }

  lemma QuietIsOwn(s: System, l: Label)
    requires Enabled(s, l) && Quiet(l)
    ensures
      var s' := Next(s, l);
      && l.t < |s.threads| == |s'.threads| && !NeedsMutex(s.threads[l.t])
      && s'.mode == s.mode && s'.epoch == s.epoch && s'.mutex == s.mutex
      && forall u :: 0 <= u < |s.threads| && u != l.t ==> s'.threads[u] == s.threads[u]
  {
  }

  lemma NumberConfig(s: System, l: Label)
    requires Inv(s) && Enabled(s, l) && ChangesConfig(l)
    ensures NumberMoves(s, Next(s, l))
  {
  }

  lemma NumberHolder(s: System, l: Label)
    requires Inv(s) && Enabled(s, l)
    requires l.LockMode? || l.Unlock? || l.EndGrace? || l.ClearFault? || l.StartGrace?
    ensures NumberMoves(s, Next(s, l))
  {
  }

  lemma NumberChange(s: System, l: Label)
    requires Inv(s) && Enabled(s, l)
    requires l.CheckMode? || l.TakeNumber? || l.PublishOn?
    ensures NumberMoves(s, Next(s, l))
  {
    assert ThreadOk(s, l.t);
  }

  lemma NumberOneStep(s: System, l: Label)
    requires Inv(s) && Enabled(s, l)
    ensures NumberMoves(s, Next(s, l))
  {
    if l.RaiseFault? {
    } else if Quiet(l) {
      QuietIsOwn(s, l);
      NumberOwn(s, Next(s, l), l.t);
    } else if ChangesConfig(l) {
      NumberConfig(s, l);
    } else if l.CheckMode? || l.TakeNumber? || l.PublishOn? {
      NumberChange(s, l);
    } else {
      NumberHolder(s, l);
    }
  }

  /** Some state of the run, the last one included, has the mode off. */
  predicate OffDuring(s: System, ls: seq<Label>)
    requires Legal(s, ls)
    decreases |ls|
  {
    s.mode.Off? || (|ls| > 0 && OffDuring(Next(s, ls[0]), ls[1..]))
  }

  lemma {:induction false} NumbersFromOff(s: System, ls: seq<Label>)
    requires Inv(s) && Legal(s, ls)
    ensures UsedNumber(s) <= UsedNumber(Run(s, ls))
    ensures s.mode.Off? && On(Run(s, ls).mode) ==> Run(s, ls).epoch > UsedNumber(s)
    ensures On(Run(s, ls).mode) ==> UsedNumber(Run(s, ls)) == Run(s, ls).epoch
    decreases |ls|
  {
    if |ls| > 0 {
      var s1 := Next(s, ls[0]);
      NumberOneStep(s, ls[0]);
      StepKeepsInv(s, ls[0]);
      NumbersFromOff(s1, ls[1..]);
      NumberWhileOn(s1);
    } else {
      NumberWhileOn(s);
    }
  }

  lemma NumberWhileOn(s: System)
    requires Inv(s)
    ensures On(s.mode) ==> UsedNumber(s) == s.epoch
  {
  }

  lemma {:induction false} NumbersFromOn(s: System, ls: seq<Label>)
    requires Inv(s) && Legal(s, ls) && On(s.mode) && On(Run(s, ls).mode)
    ensures OffDuring(s, ls) ==> Run(s, ls).epoch > s.epoch
    ensures !OffDuring(s, ls) ==> Run(s, ls).epoch == s.epoch && Run(s, ls).mode == s.mode
    decreases |ls|
  {
    if |ls| > 0 {
      var s1 := Next(s, ls[0]);
      NumberOneStep(s, ls[0]);
      StepKeepsInv(s, ls[0]);
      NumberWhileOn(s);
      if On(s1.mode) {
        NumbersFromOn(s1, ls[1..]);
      } else {
        assert OffDuring(s1, ls[1..]);
        NumbersFromOff(s1, ls[1..]);
      }
    }
  }

  /** Activation numbers strictly increase and are never reused: two moments with the mode on carry the
      same number exactly when the mode stayed on between them. */
  lemma ActivationNumbersFresh(n: nat, before: seq<Label>, after: seq<Label>)
    requires Legal(Init(n), before) && Legal(Run(Init(n), before), after)
    requires On(Run(Init(n), before).mode) && On(Run(Run(Init(n), before), after).mode)
    ensures
      var s := Run(Init(n), before);
      var s' := Run(s, after);
      && s.epoch <= s'.epoch
      && (s.epoch == s'.epoch <==> !OffDuring(s, after))
      && 1 <= s.epoch && s'.epoch <= U8_MAX
  {
    InitInv(n);
    RunKeepsInv(Init(n), before);
    RunKeepsInv(Run(Init(n), before), after);
    NumbersFromOn(Run(Init(n), before), after);
  }
}
