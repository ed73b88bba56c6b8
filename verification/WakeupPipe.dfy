/** Hand-off from producer threads to the select loop: a queue carries the events, one byte in a
    nonblocking pipe says there is work. Drains are bounded and a write to a full pipe is ignored.
    Every interleaving of the threads' atomic steps is a run of this system. */
module WakeupPipe {
  import opened Common

  const READ_SIZE: nat := 65536

  /** `limit` items per drain, `capacity` bytes in the pipe, `bound` items in the queue if it has a bound. */
  datatype Setup = Setup(limit: nat, capacity: nat, bound: Option<nat>) {
    predicate Valid() { limit > 0 && capacity > 0 }
  }

  const FILE_HOOKS: Setup := Setup(2048, 65536, None)
  const INPUT_EVENTS: Setup := Setup(256, 65536, Some(4096))

  /** `put` says whether something was queued since the producer last wrote its byte. */
  datatype Producer = Ready | Putting(rest: seq<int>, put: bool)

  datatype MainLoop = Selecting | Clearing | Draining(taken: nat) | Checking | Rewaking

  /** `accepted`, `handled`, `offered` and `drops` record what went through. */
  datatype System = System(
    queue: seq<int>, pipe: nat, producers: seq<Producer>, main: MainLoop,
    accepted: seq<int>, handled: seq<int>, offered: nat, drops: nat)

  datatype Label =
    | Start(p: nat, batch: seq<int>) | Put(p: nat) | Wake(p: nat)
    | Woken | Timeout | ReadPipe | Get | LimitReached | Check | Rewake

  function Init(producers: nat): System {
    System([], 0, seq(producers, i => Ready), Selecting, [], [], 0, 0)
  }

  predicate Enabled(u: Setup, s: System, l: Label) {
    match l
    case Start(p, _) => p < |s.producers| && s.producers[p].Ready?
    case Put(p) => p < |s.producers| && s.producers[p].Putting? && |s.producers[p].rest| > 0
    case Wake(p) => p < |s.producers| && s.producers[p].Putting? && |s.producers[p].rest| == 0
    case Woken => s.main.Selecting? && s.pipe > 0
    case Timeout => s.main.Selecting?
    case ReadPipe => s.main.Clearing?
    case Get => s.main.Draining? && s.main.taken < u.limit
    case LimitReached => s.main.Draining? && s.main.taken >= u.limit
    case Check => s.main.Checking?
    case Rewake => s.main.Rewaking?
  }

  /** A write to a full pipe fails and is ignored. */
  function Write(u: Setup, s: System): System {
    s.(pipe := if s.pipe < u.capacity then s.pipe + 1 else s.pipe)
  }

  predicate Full(u: Setup, s: System) {
    u.bound.Some? && |s.queue| >= u.bound.value
  }

  function Next(u: Setup, s: System, l: Label): System
    requires Enabled(u, s, l)
  {
    match l
    case Start(p, batch) => s.(producers := s.producers[p := Putting(batch, false)], offered := s.offered + |batch|)
    case Put(p) =>
      var pr := s.producers[p];
      if Full(u, s) then s.(producers := s.producers[p := Putting(pr.rest[1..], pr.put)], drops := s.drops + 1)
      else s.(queue := s.queue + [pr.rest[0]], accepted := s.accepted + [pr.rest[0]],
              producers := s.producers[p := Putting(pr.rest[1..], true)])
    case Wake(p) => Write(u, s.(producers := s.producers[p := Ready]))
    case Woken => s.(main := Clearing)
    case Timeout => s.(main := Clearing)
    case ReadPipe => s.(main := Draining(0), pipe := if s.pipe <= READ_SIZE then 0 else s.pipe - READ_SIZE)
    case Get =>
      if |s.queue| == 0 then s.(main := Selecting)
      else s.(queue := s.queue[1..], handled := s.handled + [s.queue[0]], main := Draining(s.main.taken + 1))
    case LimitReached => s.(main := Checking)
    case Check => s.(main := if |s.queue| == 0 then Selecting else Rewaking)
    case Rewake => Write(u, s.(main := Selecting))
  }

  predicate Legal(u: Setup, s: System, ls: seq<Label>)
    decreases |ls|
  {
    |ls| == 0 || (Enabled(u, s, ls[0]) && Legal(u, Next(u, s, ls[0]), ls[1..]))
  }

  function Run(u: Setup, s: System, ls: seq<Label>): System
    requires Legal(u, s, ls)
    decreases |ls|
  {
    if |ls| == 0 then s else Run(u, Next(u, s, ls[0]), ls[1..])
  }

  /** Some producer queued an event and has not written its byte yet. */
  predicate Pending(s: System) {
    exists p :: 0 <= p < |s.producers| && s.producers[p].Putting? && s.producers[p].put
  }

  function InHand(producers: seq<Producer>): nat {
    if |producers| == 0 then 0
    else InHand(producers[..|producers| - 1])
         + (if producers[|producers| - 1].Putting? then |producers[|producers| - 1].rest| else 0)
  }

  ghost predicate Inv(u: Setup, s: System) {
    && u.Valid()
    && (s.main.Selecting? && |s.queue| > 0 ==> s.pipe > 0 || Pending(s))
    && s.accepted == s.handled + s.queue
    && s.offered == |s.accepted| + s.drops + InHand(s.producers)
    && (u.bound.None? ==> s.drops == 0)
    && (u.bound.Some? ==> |s.queue| <= u.bound.value)
  }

  lemma {:induction false} InHandUpdate(producers: seq<Producer>, p: nat, to: Producer)
    requires p < |producers|
    ensures InHand(producers[p := to]) + (if producers[p].Putting? then |producers[p].rest| else 0) ==
            InHand(producers) + (if to.Putting? then |to.rest| else 0)
  {
    var last := |producers| - 1;
    if p == last {
      assert producers[p := to][..last] == producers[..last];
    } else {
      InHandUpdate(producers[..last], p, to);
      assert producers[p := to][..last] == producers[..last][p := to];
    }
  }

  lemma PendingKept(s: System, s': System, p: nat)
    requires p < |s.producers| == |s'.producers| && s'.producers == s.producers[p := s'.producers[p]]
    requires s.producers[p].Putting? && s.producers[p].put ==> s'.producers[p].Putting? && s'.producers[p].put
    ensures Pending(s) ==> Pending(s')
  {
    if Pending(s) {
      var q :| 0 <= q < |s.producers| && s.producers[q].Putting? && s.producers[q].put;
      assert s'.producers[q].Putting? && s'.producers[q].put;
    }
  }

  lemma StepKeepsInv(u: Setup, s: System, l: Label)
    requires Inv(u, s) && Enabled(u, s, l)
    ensures Inv(u, Next(u, s, l))
  {
    var s' := Next(u, s, l);
    match l
    case Start(p, _) =>
      InHandUpdate(s.producers, p, s'.producers[p]);
      PendingKept(s, s', p);
    case Put(p) => PutKeepsInv(u, s, p);
    case Wake(p) =>
      InHandUpdate(s.producers, p, s'.producers[p]);
    case _ =>
  }

  lemma PutKeepsInv(u: Setup, s: System, p: nat)
    requires Inv(u, s) && Enabled(u, s, Put(p))
    ensures Inv(u, Next(u, s, Put(p)))
  {
    var s' := Next(u, s, Put(p));
    InHandUpdate(s.producers, p, s'.producers[p]);
    PendingKept(s, s', p);
    assert s'.producers[p].put ==> Pending(s');
  }

  lemma {:induction false} RunKeepsInv(u: Setup, s: System, ls: seq<Label>)
    requires Inv(u, s) && Legal(u, s, ls)
    ensures Inv(u, Run(u, s, ls))
    decreases |ls|
  {
    if |ls| > 0 {
      StepKeepsInv(u, s, ls[0]);
      RunKeepsInv(u, Next(u, s, ls[0]), ls[1..]);
    }
  }

  lemma {:induction false} NothingInHand(producers: seq<Producer>)
    requires forall p :: 0 <= p < |producers| ==> producers[p].Ready?
    ensures InHand(producers) == 0
  {
    if |producers| > 0 {
      NothingInHand(producers[..|producers| - 1]);
    }
  }

  lemma InitInv(u: Setup, producers: nat)
    requires u.Valid()
    ensures Inv(u, Init(producers))
  {
    NothingInHand(Init(producers).producers);
  }

  // ----- theorems -----

  /** No lost wake-up: whenever the loop waits in select with events queued, the pipe is readable or a
      producer is between its put and its write. */
  lemma NoLostWakeup(u: Setup, producers: nat, ls: seq<Label>)
    requires u.Valid() && Legal(u, Init(producers), ls)
    ensures
      var s := Run(u, Init(producers), ls);
      s.main.Selecting? && |s.queue| > 0 ==> s.pipe > 0 || Pending(s)
  {
    InitInv(u, producers);
    RunKeepsInv(u, Init(producers), ls);
  }

  /** In particular for the two queues of the monitor, each with its own drain limit and pipe. */
  lemma MonitorQueuesWake(producers: nat, hooks: seq<Label>, inputs: seq<Label>)
    requires Legal(FILE_HOOKS, Init(producers), hooks) && Legal(INPUT_EVENTS, Init(producers), inputs)
    ensures
      var s := Run(FILE_HOOKS, Init(producers), hooks);
      (s.main.Selecting? && |s.queue| > 0 ==> s.pipe > 0 || Pending(s)) && s.drops == 0
    ensures
      var s := Run(INPUT_EVENTS, Init(producers), inputs);
      (s.main.Selecting? && |s.queue| > 0 ==> s.pipe > 0 || Pending(s)) && |s.queue| <= 4096
  {
    NoLostWakeup(FILE_HOOKS, producers, hooks);
    NothingLostOrReordered(FILE_HOOKS, producers, hooks);
    NoLostWakeup(INPUT_EVENTS, producers, inputs);
    NothingLostOrReordered(INPUT_EVENTS, producers, inputs);
  }

  /** Events are handled in the order they were accepted, none twice and none skipped; each offered event
      is accepted, still in a producer's hand, or counted as dropped; an unbounded queue drops nothing. */
  lemma NothingLostOrReordered(u: Setup, producers: nat, ls: seq<Label>)
    requires u.Valid() && Legal(u, Init(producers), ls)
    ensures
      var s := Run(u, Init(producers), ls);
      && s.accepted == s.handled + s.queue
      && s.offered == |s.accepted| + s.drops + InHand(s.producers)
      && (u.bound.None? ==> s.drops == 0)
      && (u.bound.Some? ==> |s.queue| <= u.bound.value)
  {
    InitInv(u, producers);
    RunKeepsInv(u, Init(producers), ls);
  }

  /** In every run an offered event is dropped exactly when the queue already holds all it may; otherwise it is
      queued last. */
  lemma DroppedIffFull(u: Setup, producers: nat, ls: seq<Label>, p: nat)
    requires u.Valid() && Legal(u, Init(producers), ls) && Enabled(u, Run(u, Init(producers), ls), Put(p))
    ensures
      var s := Run(u, Init(producers), ls);
      var s' := Next(u, s, Put(p));
      if u.bound.Some? && |s.queue| == u.bound.value then s'.drops == s.drops + 1 && s'.queue == s.queue
      else s'.drops == s.drops && s'.queue == s.queue + [s.producers[p].rest[0]]
  {
    InitInv(u, producers);
    RunKeepsInv(u, Init(producers), ls);
  }

  predicate Bounded(u: Setup, s: System) {
    s.pipe <= u.capacity && (s.main.Draining? ==> s.main.taken <= u.limit)
  }

  lemma {:induction false} RunKeepsBounds(u: Setup, s: System, ls: seq<Label>)
    requires u.Valid() && Bounded(u, s) && Legal(u, s, ls)
    ensures Bounded(u, Run(u, s, ls))
    decreases |ls|
  {
    if |ls| > 0 {
      RunKeepsBounds(u, Next(u, s, ls[0]), ls[1..]);
    }
  }

  /** In every run a drain handles at most its limit, goes on below it, and looks back at the queue at it; the pipe
      never holds more than its capacity, and reading empties it when that fits one read. */
  lemma DrainsAreBounded(u: Setup, producers: nat, ls: seq<Label>)
    requires u.Valid() && Legal(u, Init(producers), ls)
    ensures
      var s := Run(u, Init(producers), ls);
      && s.pipe <= u.capacity
      && (s.main.Draining? ==> s.main.taken <= u.limit)
      && (s.main.Draining? && |s.queue| > 0 ==>
            (Enabled(u, s, Get) <==> s.main.taken < u.limit)
            && (Enabled(u, s, LimitReached) <==> s.main.taken == u.limit))
      && (s.main.Clearing? && u.capacity <= 65536 ==> Next(u, s, ReadPipe).pipe == 0)
      && (s.main.Clearing? ==> Next(u, s, ReadPipe).pipe == Max(0, s.pipe - 65536))
  {
    RunKeepsBounds(u, Init(producers), ls);
  }

  predicate ProducersReady(s: System) {
    forall p :: 0 <= p < |s.producers| ==> s.producers[p].Ready?
  }

  predicate MainLabel(l: Label) {
    l.Woken? || l.ReadPipe? || l.Get? || l.LimitReached? || l.Check? || l.Rewake?
  }

  function Rank(u: Setup, s: System): nat {
    match s.main
    case Selecting => 2
    case Clearing => 1
    case Draining(taken) => if taken < u.limit then 0 else 5
    case Checking => 4
    case Rewaking => 3
  }

  /** The main loop's only step from here, when it does not time out. */
  function MainStep(u: Setup, s: System): Label {
    match s.main
    case Selecting => Woken
    case Clearing => ReadPipe
    case Draining(taken) => if taken < u.limit then Get else LimitReached
    case Checking => Check
    case Rewaking => Rewake
  }

  /** Without a timeout and without another event, the bytes already in the pipe are enough for the loop to
      handle everything that is queued. */
  lemma {:induction false} DrainsWithoutTimeout(u: Setup, s: System) returns (ls: seq<Label>)
    requires Inv(u, s) && ProducersReady(s)
    ensures Legal(u, s, ls) && forall i :: 0 <= i < |ls| ==> MainLabel(ls[i])
    ensures Run(u, s, ls).queue == [] && Run(u, s, ls).handled == s.accepted
    decreases |s.queue|, Rank(u, s)
  {
    if |s.queue| == 0 {
      ls := [];
    } else {
      var l := MainStep(u, s);
      assert !Pending(s);
      assert Enabled(u, s, l);
      StepKeepsInv(u, s, l);
      var rest := DrainsWithoutTimeout(u, Next(u, s, l));
      ls := [l] + rest;
      assert ls[1..] == rest;
    }
  }
}
