/** The concurrent page and its history together: every write section carries the event it records, and an
    accepted lockless read returns the page that the log of those events describes. */
module SnapshotHistory {
  import opened PackedWords
  import opened PageMetadata
  import opened PageHistory
  import Lock = StateSeqlock

  /** The six payload fields of a page, in the order the lock model numbers them. */
  function FieldsOf(p: Page): (fields: seq<int>)
    ensures |fields| == Lock.FIELDS
  {
    [p.lastAccess, p.prevInterval, p.intervalEma, p.genEnter, p.lifetime, PackEpochs(p.epochs)]
  }

  /** The state word, with the uncertain bit and the sequence apart from the other bits. */
  function WordOf(s: StateWord): Lock.Word {
    Lock.Word(PackState(s.(uncertain := false, sequence := 0)), s.uncertain, s.sequence)
  }

  predicate Shows(s: Lock.System, p: Page) {
    s.payload == FieldsOf(p) && s.word == WordOf(p.state)
  }

  /** One atomic step; `event` is what a section records and matters only where the section ends. */
  datatype Step = Step(op: Lock.Label, event: Event)

  function Logged(log: seq<Event>, step: Step): seq<Event> {
    if step.op.End? then log + [step.event]
    else if step.op.ResetEnd? then log + [Alloc]
    else log
  }

  function LogOf(log: seq<Event>, steps: seq<Step>): seq<Event>
    decreases |steps|
  {
    if |steps| == 0 then log else LogOf(Logged(log, steps[0]), steps[1..])
  }

  /** A section leaves what its event does to the page; how its stores interleave with readers is free. */
  predicate Records(s: Lock.System, log: seq<Event>, step: Step)
    requires WellFormedLog(log)
  {
    && Lock.Enabled(s, step.op)
    && (step.op.End? ==> WellFormed(step.event) && !step.event.Alloc?)
    && WellFormedLog(Logged(log, step))
    && (step.op.End? || step.op.ResetEnd? ==> Shows(Lock.Next(s, step.op), Fold(Logged(log, step))))
  }

  predicate Faithful(s: Lock.System, log: seq<Event>, steps: seq<Step>)
    requires WellFormedLog(log)
    decreases |steps|
  {
    |steps| == 0
    || (Records(s, log, steps[0]) && Faithful(Lock.Next(s, steps[0].op), Logged(log, steps[0]), steps[1..]))
  }

  function SystemAfter(s: Lock.System, log: seq<Event>, steps: seq<Step>): Lock.System
    requires WellFormedLog(log) && Faithful(s, log, steps)
    decreases |steps|
  {
    if |steps| == 0 then s
    else SystemAfter(Lock.Next(s, steps[0].op), Logged(log, steps[0]), steps[1..])
  }

  /** Outside a section and a reset, the stored page is the one the log describes. */
  ghost predicate Inv(s: Lock.System, log: seq<Event>)
    requires WellFormedLog(log)
  {
    Lock.Inv(s) && (!Lock.SectionOpen(s) && !Lock.ResetUnderWay(s) ==> Shows(s, Fold(log)))
  }

  lemma QuietStep(s: Lock.System, l: Lock.Label)
    requires Lock.Inv(s) && Lock.Enabled(s, l) && !l.End? && !l.ResetEnd?
    ensures
      var s' := Lock.Next(s, l);
      !Lock.SectionOpen(s') && !Lock.ResetUnderWay(s') ==>
        !Lock.SectionOpen(s) && !Lock.ResetUnderWay(s) && s'.payload == s.payload && s'.word == s.word
  {
  }

  lemma StepKeepsInv(s: Lock.System, log: seq<Event>, step: Step)
    requires WellFormedLog(log) && Inv(s, log) && Records(s, log, step)
    ensures Inv(Lock.Next(s, step.op), Logged(log, step))
  {
    Lock.Step(s, step.op);
    if !step.op.End? && !step.op.ResetEnd? {
      QuietStep(s, step.op);
    }
  }

  lemma {:induction false} StepsKeepInv(s: Lock.System, log: seq<Event>, steps: seq<Step>)
    requires WellFormedLog(log) && Inv(s, log) && Faithful(s, log, steps)
    ensures WellFormedLog(LogOf(log, steps)) && Inv(SystemAfter(s, log, steps), LogOf(log, steps))
    decreases |steps|
  {
    if |steps| > 0 {
      StepKeepsInv(s, log, steps[0]);
      StepsKeepInv(Lock.Next(s, steps[0].op), Logged(log, steps[0]), steps[1..]);
    }
  }

  lemma InitInv(writers: nat, readers: nat)
    ensures Inv(Lock.Init(writers, readers), [])
  {
    assert Fold([]) == FRESH;
    assert Lock.Init(writers, readers).payload == FieldsOf(FRESH);
  }

  // ----- theorems -----

  /** In every interleaving, a read accepted after fewer than 1024 sections and no reallocation returns, for
      every field it asked for, the value in the page that the log of completed sections folds to at that
      moment, and the state word it checked is that page's. What that page is, the log alone decides. */
  lemma {:induction false} AcceptedReadIsLoggedPage(writers: nat, readers: nat, steps: seq<Step>, r: nat)
    requires Faithful(Lock.Init(writers, readers), [], steps)
    requires Lock.Enabled(SystemAfter(Lock.Init(writers, readers), [], steps), Lock.Second(r))
    ensures WellFormedLog(LogOf([], steps))
    ensures AcceptanceIsLogged(SystemAfter(Lock.Init(writers, readers), [], steps), LogOf([], steps), r)
  {
    InitInv(writers, readers);
    AcceptedAfter(Lock.Init(writers, readers), [], steps, r);
  }

  lemma {:induction false} AcceptedAfter(s: Lock.System, log: seq<Event>, steps: seq<Step>, r: nat)
    requires WellFormedLog(log) && Inv(s, log) && Faithful(s, log, steps)
    requires Lock.Enabled(SystemAfter(s, log, steps), Lock.Second(r))
    ensures WellFormedLog(LogOf(log, steps)) && AcceptanceIsLogged(SystemAfter(s, log, steps), LogOf(log, steps), r)
  {
    StepsKeepInv(s, log, steps);
    AcceptedAt(SystemAfter(s, log, steps), LogOf(log, steps), r);
  }

  /** If reader `r` is accepted by its second look, it returns the logged page. */
  predicate AcceptanceIsLogged(s: Lock.System, log: seq<Event>, r: nat)
    requires WellFormedLog(log) && Lock.Enabled(s, Lock.Second(r))
  {
    var reader := Lock.Next(s, Lock.Second(r)).readers[r];
    reader.Accepted? && !reader.read.reallocated && reader.read.sections < Lock.WRAP ==>
      ReturnsFields(reader.read, Fold(log))
  }

  predicate ReturnsFields(rd: Lock.Read, page: Page) {
    && rd.first == WordOf(page.state) && |rd.buf| == |rd.wanted|
    && forall j :: 0 <= j < |rd.wanted| ==> rd.wanted[j] < Lock.FIELDS && rd.buf[j] == FieldsOf(page)[rd.wanted[j]]
  }

  lemma {:induction false} AcceptedAt(s: Lock.System, log: seq<Event>, r: nat)
    requires WellFormedLog(log) && Inv(s, log) && Lock.Enabled(s, Lock.Second(r))
    ensures AcceptanceIsLogged(s, log, r)
  {
    Lock.AcceptedNow(s, r);
    var reader := Lock.Next(s, Lock.Second(r)).readers[r];
    if reader.Accepted? && !reader.read.reallocated && reader.read.sections < Lock.WRAP {
      StoredIsShown(s, reader.read, Fold(log));
    }
  }

  lemma StoredIsShown(s: Lock.System, rd: Lock.Read, page: Page)
    requires Shows(s, page) && Lock.SawStored(s, rd)
    ensures ReturnsFields(rd, page)
  {
  }

  /** Every section an event can record is possible: from any page at rest, an idle writer can carry it out
      store by store. */
  lemma {:induction false} EveryEventCanBeRecorded(s: Lock.System, log: seq<Event>, w: nat, e: Event)
    returns (steps: seq<Step>)
    requires WellFormedLog(log) && Inv(s, log) && WellFormed(e) && !e.Alloc?
    requires s.holder.None? && w < |s.writers| && s.writers[w].Idle?
    ensures Faithful(s, log, steps) && LogOf(log, steps) == log + [e]
  {
    AtRest(s, log);
    steps := RecordFrom(s, log, w, e, Fold(log));
  }

  lemma {:induction false} AtRest(s: Lock.System, log: seq<Event>)
    requires WellFormedLog(log) && Inv(s, log) && s.holder.None?
    ensures |s.payload| == Lock.FIELDS && s.word.Even() && Shows(s, Fold(log))
  {
  }

  lemma {:induction false} RecordFrom(s: Lock.System, log: seq<Event>, w: nat, e: Event, p: Page)
    returns (steps: seq<Step>)
    requires WellFormedLog(log) && WellFormed(e) && !e.Alloc? && p == Fold(log)
    requires |s.payload| == Lock.FIELDS && s.word.Even() && Shows(s, p)
    requires s.holder.None? && w < |s.writers| && s.writers[w].Idle?
    ensures Faithful(s, log, steps) && LogOf(log, steps) == log + [e]
  {
    var p' := PageAfter(log, e, p.state);
    steps := RecordSection(s, log, w, e, p.state, p');
  }

  /** `p'` is the page after section `e`, which found the state fields `stable`. */
  predicate LeadsTo(log: seq<Event>, e: Event, stable: StateWord, p': Page) {
    && WellFormedLog(log + [e]) && p' == Fold(log + [e])
    && p'.state.sequence == (stable.sequence + 2) % 2048
  }

  lemma {:induction false} RecordSection(s: Lock.System, log: seq<Event>, w: nat, e: Event, stable: StateWord,
                                         p': Page)
    returns (steps: seq<Step>)
    requires WellFormedLog(log) && WellFormed(e) && !e.Alloc? && |s.payload| == Lock.FIELDS
    requires LeadsTo(log, e, stable, p')
    requires s.word == WordOf(stable) && s.word.Even()
    requires s.holder.None? && w < |s.writers| && s.writers[w].Idle?
    ensures Faithful(s, log, steps) && LogOf(log, steps) == log + [e]
  {
    var s1 := Lock.Next(s, Lock.Lock(w));
    var s2 := Lock.Next(s1, Lock.Fetch(w));
    var s3 := Lock.Next(s2, Lock.Begin(w));
    assert s2.writers[w] == Lock.Loaded(s.word);
    var rest := StoreFields(s3, log, w, e, stable, p', 0);
    steps := Then(s2, log, Step(Lock.Begin(w), e), rest);
    steps := Then(s1, log, Step(Lock.Fetch(w), e), steps);
    steps := Then(s, log, Step(Lock.Lock(w), e), steps);
  }

  lemma {:induction false} PageAfter(log: seq<Event>, e: Event, stable: StateWord) returns (p': Page)
    requires WellFormedLog(log) && WellFormed(e) && !e.Alloc? && stable == Fold(log).state
    ensures LeadsTo(log, e, stable, p')
  {
    NeverRefused(log);
    FoldAppend(log, e);
    SectionBumps(Fold(log), e);
    p' := Apply(Fold(log), e);
  }

  /** Prefix a step that records nothing. */
  lemma Then(s: Lock.System, log: seq<Event>, step: Step, rest: seq<Step>) returns (steps: seq<Step>)
    requires WellFormedLog(log) && Lock.Enabled(s, step.op) && !step.op.End? && !step.op.ResetEnd?
    requires Faithful(Lock.Next(s, step.op), log, rest)
    ensures Faithful(s, log, steps) && LogOf(log, steps) == LogOf(log, rest)
  {
    steps := [step] + rest;
    assert steps[1..] == rest;
  }

  /** A writer inside its section stores the fields of `p'` from the `k`-th on and ends the section. */
  lemma {:induction false} StoreFields(s: Lock.System, log: seq<Event>, w: nat, e: Event, stable: StateWord,
                                       p': Page, k: nat)
    returns (steps: seq<Step>)
    requires WellFormedLog(log) && WellFormed(e) && !e.Alloc? && k <= Lock.FIELDS == |s.payload|
    requires LeadsTo(log, e, stable, p')
    requires w < |s.writers| && s.writers[w] == Lock.Writing(WordOf(stable))
    requires s.payload[..k] == FieldsOf(p')[..k]
    ensures Faithful(s, log, steps) && LogOf(log, steps) == log + [e]
    decreases Lock.FIELDS - k
  {
    var target := FieldsOf(p');
    if k < Lock.FIELDS {
      var store := Lock.Store(w, k, target[k]);
      var s' := Lock.Next(s, store);
      assert s'.payload[..k + 1] == s.payload[..k] + [target[k]] == target[..k + 1];
      var rest := StoreFields(s', log, w, e, stable, p', k + 1);
      steps := Then(s, log, Step(store, e), rest);
    } else {
      assert s.payload == s.payload[..k] && target == target[..k];
      EndShows(s, w, stable, p');
      EndRecords(s, log, w, e, p');
      steps := [Step(EndOf(w, p'), e)];
    }
  }

  /** The store that ends a section and publishes the state fields of `p`. */
  function EndOf(w: nat, p: Page): Lock.Label {
    Lock.End(w, WordOf(p.state).bits, p.state.uncertain)
  }

  lemma EndShows(s: Lock.System, w: nat, stable: StateWord, p': Page)
    requires w < |s.writers| && s.writers[w] == Lock.Writing(WordOf(stable)) && s.payload == FieldsOf(p')
    requires p'.state.sequence == (stable.sequence + 2) % 2048
    ensures Lock.Enabled(s, EndOf(w, p')) && Shows(Lock.Next(s, EndOf(w, p')), p')
  {
  }

  lemma {:induction false} EndRecords(s: Lock.System, log: seq<Event>, w: nat, e: Event, p': Page)
    requires WellFormedLog(log) && WellFormed(e) && !e.Alloc?
    requires WellFormedLog(log + [e]) && p' == Fold(log + [e])
    requires Lock.Enabled(s, EndOf(w, p')) && Shows(Lock.Next(s, EndOf(w, p')), p')
    ensures Faithful(s, log, [Step(EndOf(w, p'), e)]) && LogOf(log, [Step(EndOf(w, p'), e)]) == log + [e]
  {
    assert [Step(EndOf(w, p'), e)][1..] == [];
  }
}
