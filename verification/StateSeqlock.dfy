/** The per-page sequence lock as a small-step system: any number of lock-serialized writers, any
    number of lockless readers, every load and store one atomic step, in every interleaving. */
module StateSeqlock {
  import opened Common

  const FIELDS: nat := 6
  const SEQ_LIMIT: nat := 2048
  /** Sections that bring the 11-bit sequence, stepping by two, back to where it was. */
  const WRAP: nat := 1024

  datatype Word = Word(bits: int, uncertain: bool, sequence: nat) {
    predicate Even() { sequence % 2 == 0 }
  }

  datatype Writer =
    | Idle
    | Locked                     // spin lock taken, state word not yet loaded
    | Loaded(stable: Word)       // even word loaded, odd one not yet stored
    | Writing(stable: Word)      // odd sequence published
    | Resetting                  // page allocation rewrites the payload under the lock
    | Unlocking
    | Refused                    // sampled an odd sequence, still holds the lock
    | Marking                    // lockless mark-uncertain loop of a refused section
    | Swapping(sample: Word)     // about to compare-and-swap

  /** A lockless read in progress: the fields asked for, the first sample, the values loaded so far.
      `base`, `sections`, `overlapped` and `reallocated` are history: the payload when the first sample
      was taken, the sections completed since, and whether one began or the page was reallocated since. */
  datatype Read = Read(
    wanted: seq<nat>, first: Word, buf: seq<int>,
    base: seq<int>, sections: nat, overlapped: bool, reallocated: bool)

  datatype Reader = Out | Reading(read: Read) | Accepted(read: Read) | Rejected

  datatype System = System(
    word: Word, payload: seq<int>, holder: Option<nat>, writers: seq<Writer>, readers: seq<Reader>)

  datatype Label =
    | Lock(w: nat) | Fetch(w: nat) | Begin(w: nat) | Store(w: nat, field: nat, value: int)
    | End(w: nat, bits: int, uncertain: bool)
    | Reset(w: nat) | ResetStore(w: nat, field: nat, value: int) | ResetEnd(w: nat)
    | Unlock(w: nat) | Sample(w: nat) | Swap(w: nat)
    | First(r: nat, wanted: seq<nat>) | Load(r: nat) | Second(r: nat) | Leave(r: nat)

  function Init(writers: nat, readers: nat): System {
    System(Word(0, false, 0), seq(FIELDS, i => 0), None, seq(writers, i => Idle), seq(readers, i => Out))
  }

  predicate Enabled(s: System, l: Label) {
    match l
    case Lock(w) => w < |s.writers| && s.writers[w].Idle? && s.holder.None?
    case Fetch(w) => w < |s.writers| && s.writers[w].Locked?
    case Begin(w) => w < |s.writers| && s.writers[w].Loaded?
    case Store(w, field, _) => w < |s.writers| && s.writers[w].Writing? && field < |s.payload|
    case End(w, _, _) => w < |s.writers| && s.writers[w].Writing?
    case Reset(w) => w < |s.writers| && s.writers[w].Locked?
    case ResetStore(w, field, _) => w < |s.writers| && s.writers[w].Resetting? && field < |s.payload|
    case ResetEnd(w) => w < |s.writers| && s.writers[w].Resetting?
    case Unlock(w) => w < |s.writers| && (s.writers[w].Unlocking? || s.writers[w].Refused?)
    case Sample(w) => w < |s.writers| && s.writers[w].Marking?
    case Swap(w) => w < |s.writers| && s.writers[w].Swapping?
    case First(r, wanted) =>
      && r < |s.readers| && s.readers[r].Out?
      && forall j :: 0 <= j < |wanted| ==> wanted[j] < |s.payload|
    case Load(r) =>
      && r < |s.readers| && s.readers[r].Reading?
      && var rd := s.readers[r].read; |rd.buf| < |rd.wanted| && rd.wanted[|rd.buf|] < |s.payload|
    case Second(r) =>
      && r < |s.readers| && s.readers[r].Reading?
      && var rd := s.readers[r].read; |rd.buf| == |rd.wanted|
    case Leave(r) => r < |s.readers| && (s.readers[r].Accepted? || s.readers[r].Rejected?)
  }

  datatype Signal = Began | Ended | PageReset

  /** How a step of a writer is recorded in the history of a read in progress. */
  function Noted(signal: Signal, r: Reader): Reader {
    if !r.Reading? then r
    else
      match signal
      case Began => Reading(r.read.(overlapped := true))
      case Ended => Reading(r.read.(sections := r.read.sections + 1))
      case PageReset => Reading(r.read.(reallocated := true))
  }

  function NotedByAll(signal: Signal, rs: seq<Reader>): (rs': seq<Reader>)
    ensures |rs'| == |rs| && forall i :: 0 <= i < |rs| ==> rs'[i] == Noted(signal, rs[i])
  {
    seq(|rs|, i requires 0 <= i < |rs| => Noted(signal, rs[i]))
  }

  function Next(s: System, l: Label): System
    requires Enabled(s, l)
  {
    match l
    case Lock(w) => s.(holder := Some(w), writers := s.writers[w := Locked])
    case Fetch(w) => s.(writers := s.writers[w := if s.word.Even() then Loaded(s.word) else Refused])
    case Begin(w) =>
      var stable := s.writers[w].stable;
      s.(word := stable.(sequence := (stable.sequence + 1) % SEQ_LIMIT),
         writers := s.writers[w := Writing(stable)],
         readers := NotedByAll(Began, s.readers))
    case Store(w, field, value) => s.(payload := s.payload[field := value])
    case End(w, bits, uncertain) =>
      s.(word := Word(bits, uncertain, (s.writers[w].stable.sequence + 2) % SEQ_LIMIT),
         writers := s.writers[w := Unlocking],
         readers := NotedByAll(Ended, s.readers))
    case Reset(w) => s.(writers := s.writers[w := Resetting], readers := NotedByAll(PageReset, s.readers))
    case ResetStore(w, field, value) => s.(payload := s.payload[field := value])
    case ResetEnd(w) => s.(word := Word(0, false, 0), writers := s.writers[w := Unlocking],
                           readers := NotedByAll(PageReset, s.readers))
    case Unlock(w) => s.(holder := None, writers := s.writers[w := if s.writers[w].Refused? then Marking else Idle])
    case Sample(w) =>
      if !s.word.Even() then s
      else if s.word.uncertain then s.(writers := s.writers[w := Idle])
      else s.(writers := s.writers[w := Swapping(s.word)])
    case Swap(w) =>
      if s.word == s.writers[w].sample then
        s.(word := s.word.(uncertain := true), writers := s.writers[w := Idle])
      else s.(writers := s.writers[w := Marking])
    case First(r, wanted) =>
      s.(readers := s.readers[r :=
           if s.word.Even() then Reading(Read(wanted, s.word, [], s.payload, 0, false, ResetUnderWay(s)))
           else Rejected])
    case Load(r) =>
      var rd := s.readers[r].read;
      s.(readers := s.readers[r := Reading(rd.(buf := rd.buf + [s.payload[rd.wanted[|rd.buf|]]]))])
    case Second(r) =>
      var rd := s.readers[r].read;
      s.(readers := s.readers[r := if s.word == rd.first && s.word.Even() then Accepted(rd) else Rejected])
    case Leave(r) => s.(readers := s.readers[r := Out])
  }

  predicate HolderIs(s: System, p: Writer -> bool) {
    s.holder.Some? && s.holder.value < |s.writers| && p(s.writers[s.holder.value])
  }

  predicate SectionOpen(s: System) {
    HolderIs(s, (w: Writer) => w.Writing?)
  }

  predicate ResetUnderWay(s: System) {
    HolderIs(s, (w: Writer) => w.Resetting?)
  }

  predicate Legal(s: System, ls: seq<Label>)
    decreases |ls|
  {
    |ls| == 0 || (Enabled(s, ls[0]) && Legal(Next(s, ls[0]), ls[1..]))
  }

  function Run(s: System, ls: seq<Label>): System
    requires Legal(s, ls)
    decreases |ls|
  {
    if |ls| == 0 then s else Run(Next(s, ls[0]), ls[1..])
  }

  // ----- invariants -----

  /** Writers: only the lock holder is inside a section, the sequence is odd exactly while it writes,
      and nobody was ever refused. */
  ghost predicate WritersOk(s: System) {
    && s.word.sequence < SEQ_LIMIT
    && |s.payload| == FIELDS
    && (s.holder.Some? ==> s.holder.value < |s.writers| && !s.writers[s.holder.value].Idle?)
    && (forall w :: 0 <= w < |s.writers| ==>
          && !s.writers[w].Refused? && !s.writers[w].Marking? && !s.writers[w].Swapping?
          && (!s.writers[w].Idle? ==> s.holder == Some(w))
          && (s.writers[w].Loaded? ==> s.writers[w].stable == s.word)
          && (s.writers[w].Writing? ==>
                && s.writers[w].stable.sequence < SEQ_LIMIT && s.writers[w].stable.Even()
                && s.word.sequence == s.writers[w].stable.sequence + 1))
    && (s.word.Even() <==> !SectionOpen(s))
  }

  ghost predicate ReadsBase(wanted: seq<nat>, buf: seq<int>, base: seq<int>) {
    && |base| == FIELDS && |buf| <= |wanted|
    && (forall j :: 0 <= j < |wanted| ==> wanted[j] < FIELDS)
    && (forall j :: 0 <= j < |buf| ==> buf[j] == base[wanted[j]])
  }

  ghost predicate ReadingOk(s: System, rd: Read) {
    && rd.first.sequence < SEQ_LIMIT && rd.first.Even()
    && (!rd.reallocated ==>
          && !ResetUnderWay(s)
          && s.word.sequence == (rd.first.sequence + 2 * rd.sections + (if SectionOpen(s) then 1 else 0)) % SEQ_LIMIT
          && (rd.overlapped <==> rd.sections > 0 || SectionOpen(s))
          && (!rd.overlapped ==> s.payload == rd.base && s.word == rd.first && ReadsBase(rd.wanted, rd.buf, rd.base)))
  }

  ghost predicate AcceptedOk(rd: Read) {
    !rd.reallocated ==>
      && rd.sections % WRAP == 0
      && (rd.overlapped <==> rd.sections > 0)
      && (rd.sections == 0 ==> |rd.buf| == |rd.wanted| && ReadsBase(rd.wanted, rd.buf, rd.base))
  }

  ghost predicate ReaderOk(s: System, r: Reader) {
    match r
    case Reading(rd) => ReadingOk(s, rd)
    case Accepted(rd) => AcceptedOk(rd)
    case _ => true
  }

  ghost predicate Inv(s: System) {
    && WritersOk(s)
    && forall r :: 0 <= r < |s.readers| ==> ReaderOk(s, s.readers[r])
  }

  lemma WritersStep(s: System, l: Label)
    requires WritersOk(s) && Enabled(s, l)
    ensures WritersOk(Next(s, l))
  {
    match l
    case Begin(w) => BeginKeepsWriters(s, w);
    case End(w, bits, uncertain) => EndKeepsWriters(s, w, bits, uncertain);
    case Unlock(w) => UnlockKeepsWriters(s, w);
    case _ =>
  }

  lemma UnlockKeepsWriters(s: System, w: nat)
    requires WritersOk(s) && Enabled(s, Unlock(w))
    ensures WritersOk(Next(s, Unlock(w)))
  {
  }

  lemma BeginKeepsWriters(s: System, w: nat)
    requires WritersOk(s) && Enabled(s, Begin(w))
    ensures WritersOk(Next(s, Begin(w)))
  {
    assert s.writers[w].stable.sequence + 1 < SEQ_LIMIT;
  }

  lemma EndKeepsWriters(s: System, w: nat, bits: int, uncertain: bool)
    requires WritersOk(s) && Enabled(s, End(w, bits, uncertain))
    ensures WritersOk(Next(s, End(w, bits, uncertain)))
  {
    EvenAfter(s.writers[w].stable.sequence);
  }

  lemma EvenAfter(sequence: nat)
    requires sequence < SEQ_LIMIT && sequence % 2 == 0
    ensures (sequence + 2) % SEQ_LIMIT % 2 == 0
  {
  }

  /** A gap of whole sections that vanishes modulo 2048 is a multiple of 1024 sections, none of them open. */
  lemma WholeWraps(first: nat, sections: nat, open: nat)
    requires first < SEQ_LIMIT && open <= 1
    requires (first + 2 * sections + open) % SEQ_LIMIT == first
    ensures sections % WRAP == 0 && open == 0
  {
    var wraps := (first + 2 * sections + open) / SEQ_LIMIT;
    assert 2 * sections + open == SEQ_LIMIT * wraps;
    assert open == 2 * (WRAP * wraps - sections);
    assert sections == WRAP * wraps;
  }

  lemma AddModulo(a: nat, b: nat)
    ensures (a % SEQ_LIMIT + b) % SEQ_LIMIT == (a + b) % SEQ_LIMIT
  {
  }

  /** A writer's step, seen by a read in progress. */
  lemma WriterStepSeen(s: System, l: Label, rd: Read, rd': Read)
    requires WritersOk(s) && Enabled(s, l) && ReadingOk(s, rd)
    requires !l.First? && !l.Load? && !l.Second? && !l.Leave?
    requires Reading(rd') ==
             if l.Begin? then Noted(Began, Reading(rd))
             else if l.End? then Noted(Ended, Reading(rd))
             else if l.Reset? || l.ResetEnd? then Noted(PageReset, Reading(rd))
             else Reading(rd)
    ensures ReadingOk(Next(s, l), rd')
  {
    match l
    case Begin(w) => BeginSeen(s, w, rd);
    case End(w, bits, uncertain) => EndSeen(s, w, bits, uncertain, rd);
    case _ =>
  }

  lemma BeginSeen(s: System, w: nat, rd: Read)
    requires WritersOk(s) && Enabled(s, Begin(w)) && ReadingOk(s, rd)
    ensures ReadingOk(Next(s, Begin(w)), rd.(overlapped := true))
  {
    AddModulo(rd.first.sequence + 2 * rd.sections, 1);
  }

  lemma EndSeen(s: System, w: nat, bits: int, uncertain: bool, rd: Read)
    requires WritersOk(s) && Enabled(s, End(w, bits, uncertain)) && ReadingOk(s, rd)
    ensures ReadingOk(Next(s, End(w, bits, uncertain)), rd.(sections := rd.sections + 1))
  {
    AddModulo(rd.first.sequence + 2 * rd.sections + 1, 1);
    assert (s.writers[w].stable.sequence + 2) % SEQ_LIMIT == (s.word.sequence + 1) % SEQ_LIMIT;
  }

  predicate ReaderLabel(l: Label) {
    l.First? || l.Load? || l.Second? || l.Leave?
  }

  /** A reader's step: the shared word and payload stay, so only that reader has anything to show. */
  lemma ReaderStep(s: System, l: Label)
    requires Inv(s) && Enabled(s, l) && ReaderLabel(l)
    ensures ReaderOk(Next(s, l), Next(s, l).readers[l.r])
  {
    assert ReaderOk(s, s.readers[l.r]);
    if l.Second? {
      var rd := s.readers[l.r].read;
      if s.word == rd.first && !rd.reallocated {
        WholeWraps(rd.first.sequence, rd.sections, if SectionOpen(s) then 1 else 0);
      }
    }
  }

  lemma SharedUnchanged(s: System, l: Label, rd: Read)
    requires Enabled(s, l) && ReaderLabel(l) && ReadingOk(s, rd)
    ensures ReadingOk(Next(s, l), rd)
  {
  }

  lemma Step(s: System, l: Label)
    requires Inv(s) && Enabled(s, l)
    ensures Inv(Next(s, l))
  {
    WritersStep(s, l);
    forall i | 0 <= i < |Next(s, l).readers|
      ensures ReaderOk(Next(s, l), Next(s, l).readers[i])
    {
      assert ReaderOk(s, s.readers[i]);
      if ReaderLabel(l) {
        if l.r == i {
          ReaderStep(s, l);
        } else if s.readers[i].Reading? {
          SharedUnchanged(s, l, s.readers[i].read);
        }
      } else if s.readers[i].Reading? {
        WriterStepSeen(s, l, s.readers[i].read, Next(s, l).readers[i].read);
      }
    }
  }

  lemma {:induction false} RunKeepsInv(s: System, ls: seq<Label>)
    requires Inv(s) && Legal(s, ls)
    ensures Inv(Run(s, ls))
    decreases |ls|
  {
    if |ls| > 0 {
      Step(s, ls[0]);
      RunKeepsInv(Next(s, ls[0]), ls[1..]);
    }
  }

  // ----- theorems -----

  /** In every interleaving, unless the page was reallocated meanwhile, the sections completed during an
      accepted read are a multiple of 1024; if they are none, no section overlapped the read and it returns,
      for every field it asked for, the value of one single instant. */
  lemma AcceptedReadIsAtomic(writers: nat, readers: nat, ls: seq<Label>, r: nat)
    requires Legal(Init(writers, readers), ls)
    requires r < |Run(Init(writers, readers), ls).readers|
    ensures
      Run(Init(writers, readers), ls).readers[r].Accepted? ==>
      var rd := Run(Init(writers, readers), ls).readers[r].read;
      !rd.reallocated ==>
        && rd.sections % WRAP == 0
        && (rd.sections < WRAP ==>
              && !rd.overlapped && rd.sections == 0
              && |rd.buf| == |rd.wanted| && |rd.base| == FIELDS
              && forall j :: 0 <= j < |rd.wanted| ==> rd.wanted[j] < FIELDS && rd.buf[j] == rd.base[rd.wanted[j]])
  {
    RunKeepsInv(Init(writers, readers), ls);
  }

  /** What a read accepted just now tells about the present: below 1024 sections and without reallocation, no
      section or reset is under way, and the word and the values it saw are the stored ones. */
  lemma AcceptedNow(s: System, r: nat)
    requires Inv(s) && Enabled(s, Second(r))
    ensures
      var reader := Next(s, Second(r)).readers[r];
      reader.Accepted? && !reader.read.reallocated && reader.read.sections < WRAP ==>
        && !SectionOpen(s) && !ResetUnderWay(s) && SawStored(s, reader.read)
  {
    assert ReaderOk(s, s.readers[r]);
    var rd := s.readers[r].read;
    if s.word == rd.first && s.word.Even() && !rd.reallocated && rd.sections < WRAP {
      WholeWraps(rd.first.sequence, rd.sections, if SectionOpen(s) then 1 else 0);
    }
  }

  /** In every run, short of 1024 sections and without reallocation, a read is accepted exactly when no section
      overlapped it; and a read gets under way exactly when no section is open. */
  lemma AcceptedIffUndisturbed(writers: nat, readers: nat, ls: seq<Label>, r: nat)
    requires Legal(Init(writers, readers), ls) && Enabled(Run(Init(writers, readers), ls), Second(r))
    ensures
      var s := Run(Init(writers, readers), ls);
      var rd := s.readers[r].read;
      !rd.reallocated && rd.sections < WRAP ==>
        (Next(s, Second(r)).readers[r] == if rd.overlapped then Rejected else Accepted(rd))
  {
    RunKeepsInv(Init(writers, readers), ls);
    DecidedByOverlap(Run(Init(writers, readers), ls), r);
  }

  lemma DecidedByOverlap(s: System, r: nat)
    requires Inv(s) && Enabled(s, Second(r))
    ensures
      var rd := s.readers[r].read;
      !rd.reallocated && rd.sections < WRAP ==>
        (Next(s, Second(r)).readers[r] == if rd.overlapped then Rejected else Accepted(rd))
  {
    var rd := s.readers[r].read;
    assert ReaderOk(s, s.readers[r]);
    if s.word == rd.first && !rd.reallocated {
      WholeWraps(rd.first.sequence, rd.sections, if SectionOpen(s) then 1 else 0);
    }
  }

  lemma ReadStartsIff(writers: nat, readers: nat, ls: seq<Label>, r: nat, wanted: seq<nat>)
    requires Legal(Init(writers, readers), ls) && Enabled(Run(Init(writers, readers), ls), First(r, wanted))
    ensures
      var s := Run(Init(writers, readers), ls);
      Next(s, First(r, wanted)).readers[r].Reading? <==>
      !exists w :: 0 <= w < |s.writers| && s.writers[w].Writing?
  {
    RunKeepsInv(Init(writers, readers), ls);
    OpenIffWriting(Run(Init(writers, readers), ls));
  }

  lemma OpenIffWriting(s: System)
    requires WritersOk(s)
    ensures s.word.Even() <==> !exists w :: 0 <= w < |s.writers| && s.writers[w].Writing?
  {
    if SectionOpen(s) {
      assert s.writers[s.holder.value].Writing?;
    }
  }

  predicate SawStored(s: System, rd: Read) {
    && rd.first == s.word && |rd.buf| == |rd.wanted|
    && forall j :: 0 <= j < |rd.wanted| ==> rd.wanted[j] < |s.payload| && rd.buf[j] == s.payload[rd.wanted[j]]
  }

  /** Whenever the lock is free the sequence is even; no section is ever refused and the lockless
      compare-and-swap of the fallback never executes. */
  lemma NeverRefused(writers: nat, readers: nat, ls: seq<Label>)
    requires Legal(Init(writers, readers), ls)
    ensures
      var s := Run(Init(writers, readers), ls);
      && (s.holder.None? ==> s.word.Even())
      && (forall w :: 0 <= w < |s.writers| ==>
            !s.writers[w].Refused? && !s.writers[w].Marking? && !s.writers[w].Swapping?)
      && (forall w :: 0 <= w < |s.writers| && s.writers[w].Locked? ==> s.word.Even())
  {
    RunKeepsInv(Init(writers, readers), ls);
  }

  // ----- the bound is exact -----

  predicate Reaches(s: System, ls: seq<Label>, t: System) {
    Legal(s, ls) && Run(s, ls) == t
  }

  lemma Cons(s: System, l: Label, rest: seq<Label>, t: System)
    requires Enabled(s, l) && Reaches(Next(s, l), rest, t)
    ensures Reaches(s, [l] + rest, t)
  {
    assert ([l] + rest)[1..] == rest;
  }

  lemma {:induction false} Concat(s: System, a: seq<Label>, m: System, b: seq<Label>, t: System)
    requires Reaches(s, a, m) && Reaches(m, b, t)
    ensures Reaches(s, a + b, t)
    decreases |a|
  {
    if |a| == 0 {
      assert a + b == b;
    } else {
      Concat(Next(s, a[0]), a[1..], m, b, t);
      Cons(s, a[0], a[1..] + b, t);
      assert a + b == [a[0]] + (a[1..] + b);
    }
  }

  /** One write section that sets fields 0 and 1 to 1 and leaves the other state bits alone. */
  const OPEN: seq<Label> := [Lock(0), Fetch(0), Begin(0), Store(0, 0, 1)]
  const CLOSE: seq<Label> := [Store(0, 1, 1), End(0, 0, false), Unlock(0)]

  function Repeated(n: nat): seq<Label> {
    if n == 0 then [] else OPEN + CLOSE + Repeated(n - 1)
  }

  /** The quiet state with one writer and one read in progress. */
  function Quiet(sequence: nat, payload: seq<int>, rd: Read): System {
    System(Word(0, false, sequence), payload, None, [Idle], [Reading(rd)])
  }

  /** Halfway through the section. */
  function Midway(sequence: nat, payload: seq<int>, rd: Read): System
    requires |payload| == FIELDS
  {
    System(Word(0, false, sequence + 1), payload[0 := 1], Some(0), [Writing(Word(0, false, sequence))],
           [Reading(rd.(overlapped := true))])
  }

  function Ones(payload: seq<int>): (ones: seq<int>)
    requires |payload| == FIELDS
    ensures |ones| == FIELDS && ones[0] == ones[1] == 1
    ensures payload[0] == payload[1] == 1 ==> ones == payload
  {
    payload[0 := 1][1 := 1]
  }

  function After(n: nat, rd: Read): Read {
    rd.(overlapped := true, sections := rd.sections + n)
  }

  lemma SectionOpens(sequence: nat, payload: seq<int>, rd: Read)
    requires sequence < SEQ_LIMIT && sequence % 2 == 0 && |payload| == FIELDS
    ensures Reaches(Quiet(sequence, payload, rd), OPEN, Midway(sequence, payload, rd))
  {
    var s0 := Quiet(sequence, payload, rd);
    var s1 := Next(s0, OPEN[0]);
    assert s1.writers == [Locked];
    var s2 := Next(s1, OPEN[1]);
    assert s2.writers == [Loaded(Word(0, false, sequence))];
    var s3 := Next(s2, OPEN[2]);
    assert s3.writers == [Writing(Word(0, false, sequence))];
    assert s3.readers == [Reading(rd.(overlapped := true))];
    var s4 := Midway(sequence, payload, rd);
    Cons(s3, OPEN[3], [], s4);
    Cons(s2, OPEN[2], [OPEN[3]], s4);
    Cons(s1, OPEN[1], [OPEN[2], OPEN[3]], s4);
    Cons(s0, OPEN[0], [OPEN[1], OPEN[2], OPEN[3]], s4);
  }

  lemma SectionCloses(sequence: nat, payload: seq<int>, rd: Read)
    requires sequence < SEQ_LIMIT && sequence % 2 == 0 && |payload| == FIELDS
    ensures Reaches(Midway(sequence, payload, rd), CLOSE,
                    Quiet((sequence + 2) % SEQ_LIMIT, Ones(payload), After(1, rd)))
  {
    var s0 := Midway(sequence, payload, rd);
    var s1 := Next(s0, CLOSE[0]);
    var s2 := Next(s1, CLOSE[1]);
    assert s2.writers == [Unlocking];
    assert s2.readers == [Reading(After(1, rd))];
    var s3 := Quiet((sequence + 2) % SEQ_LIMIT, Ones(payload), After(1, rd));
    assert Next(s2, CLOSE[2]).writers == [Idle];
    Cons(s2, CLOSE[2], [], s3);
    Cons(s1, CLOSE[1], [CLOSE[2]], s3);
    Cons(s0, CLOSE[0], [CLOSE[1], CLOSE[2]], s3);
  }

  lemma OneSection(sequence: nat, payload: seq<int>, rd: Read)
    requires sequence < SEQ_LIMIT && sequence % 2 == 0 && |payload| == FIELDS
    ensures Reaches(Quiet(sequence, payload, rd), OPEN + CLOSE,
                    Quiet((sequence + 2) % SEQ_LIMIT, Ones(payload), After(1, rd)))
  {
    SectionOpens(sequence, payload, rd);
    SectionCloses(sequence, payload, rd);
    Concat(Quiet(sequence, payload, rd), OPEN, Midway(sequence, payload, rd), CLOSE,
           Quiet((sequence + 2) % SEQ_LIMIT, Ones(payload), After(1, rd)));
  }

  lemma {:induction false} ManySections(n: nat, sequence: nat, payload: seq<int>, rd: Read)
    requires sequence < SEQ_LIMIT && sequence % 2 == 0 && |payload| == FIELDS && n > 0
    ensures Reaches(Quiet(sequence, payload, rd), Repeated(n),
                    Quiet((sequence + 2 * n) % SEQ_LIMIT, Ones(payload), After(n, rd)))
  {
    var once := Quiet((sequence + 2) % SEQ_LIMIT, Ones(payload), After(1, rd));
    OneSection(sequence, payload, rd);
    if n == 1 {
      assert Repeated(1) == OPEN + CLOSE;
    } else {
      EvenAfter(sequence);
      ManySections(n - 1, (sequence + 2) % SEQ_LIMIT, Ones(payload), After(1, rd));
      AddModulo(sequence + 2, 2 * (n - 1));
      assert After(n - 1, After(1, rd)) == After(n, rd);
      Concat(Quiet(sequence, payload, rd), OPEN + CLOSE, once, Repeated(n - 1),
             Quiet((sequence + 2 * n) % SEQ_LIMIT, Ones(payload), After(n, rd)));
    }
  }

  const OPENING: seq<Label> := [First(0, [0, 1]), Load(0)]
  const CLOSING: seq<Label> := [Load(0), Second(0)]

  lemma Opening(zeros: seq<int>, rd: Read)
    requires zeros == seq(FIELDS, i => 0) && rd == Read([0, 1], Word(0, false, 0), [0], zeros, 0, false, false)
    ensures Reaches(Init(1, 1), OPENING, Quiet(0, zeros, rd))
  {
    var s0 := Init(1, 1);
    assert s0.writers == [Idle] && s0.readers == [Out];
    var s1 := Next(s0, OPENING[0]);
    assert s1.readers == [Reading(rd.(buf := []))];
    assert [] + [s1.payload[0]] == [0];
    assert Next(s1, OPENING[1]).readers == [Reading(rd)];
    Cons(s1, OPENING[1], [], Quiet(0, zeros, rd));
    Cons(s0, OPENING[0], [OPENING[1]], Quiet(0, zeros, rd));
  }

  lemma Closing(ones: seq<int>, rd: Read)
    requires |ones| == FIELDS && ones[1] == 1
    requires rd.wanted == [0, 1] && rd.first == Word(0, false, 0) && rd.buf == [0]
    ensures Reaches(Quiet(0, ones, rd), CLOSING, Quiet(0, ones, rd).(readers := [Accepted(rd.(buf := [0, 1]))]))
  {
    var s0 := Quiet(0, ones, rd);
    var s1 := Next(s0, CLOSING[0]);
    assert [0] + [s0.payload[1]] == [0, 1];
    assert s1.readers == [Reading(rd.(buf := [0, 1]))];
    var s2 := s0.(readers := [Accepted(rd.(buf := [0, 1]))]);
    assert Next(s1, CLOSING[1]).readers == s2.readers;
    Cons(s1, CLOSING[1], [], s2);
    Cons(s0, CLOSING[0], [CLOSING[1]], s2);
  }

  /** After every positive multiple of 1024 sections inside the read the sequence is back where it was, and a
      read that mixes two instants is accepted. */
  lemma TornReadAfterWrap(wraps: nat)
    requires wraps > 0
    ensures Legal(Init(1, 1), OPENING + Repeated(wraps * WRAP) + CLOSING)
    ensures
      var s := Run(Init(1, 1), OPENING + Repeated(wraps * WRAP) + CLOSING);
      && |s.readers| == 1 && s.readers[0].Accepted? && |s.payload| == FIELDS
      && var rd := s.readers[0].read;
      && |rd.base| == FIELDS && !rd.reallocated && rd.sections == wraps * WRAP
      && rd.buf == [0, 1]
      && [rd.base[0], rd.base[1]] == [0, 0] && [s.payload[0], s.payload[1]] == [1, 1]
  {
    var s0 := Init(1, 1);
    var zeros := s0.payload;
    var n := wraps * WRAP;
    var rd := Read([0, 1], Word(0, false, 0), [0], zeros, 0, false, false);
    Opening(zeros, rd);
    ManySections(n, 0, zeros, rd);
    assert 2 * n % SEQ_LIMIT == 0;
    var wrapped := Quiet(0, Ones(zeros), After(n, rd));
    var torn := wrapped.(readers := [Accepted(After(n, rd).(buf := [0, 1]))]);
    Concat(s0, OPENING, Quiet(0, zeros, rd), Repeated(n), wrapped);
    Closing(Ones(zeros), After(n, rd));
    Concat(s0, OPENING + Repeated(n), wrapped, CLOSING, torn);
  }
}
