/** Foreground segments of the visit-window runner: sample ticks and late native events in any order of
    timestamps still give one chronological chain of segments. */
module VisitTimeline {
  import opened Common

  datatype App = Unknown | Known(id: nat)

  datatype Open = Open(app: App, start: real, last: real)

  datatype Segment = Segment(app: App, start: real, end: real, dwell: real)

  datatype State = State(
    completed: seq<Segment>, current: Option<Open>, previousTime: Option<real>, lastEventTime: Option<real>)

  datatype Input = Sample(at: real, app: App) | Event(at: real, app: App)

  const EMPTY: State := State([], None, None, None)
  const MAX_GAP: real := 3600.0

  function AtLeastOne(x: real): (r: real)
    ensures r >= 1.0 && r >= x && (r == 1.0 || r == x)
  {
    if x >= 1.0 then x else 1.0
  }

  // ----- the updates, as functions of the state -----

  function Updated(s: State, at: real, app: App, historyLen: nat): State {
    if app.Unknown? then s.(completed := LastN(s.completed, historyLen))
    else if s.current.None? then
      s.(current := Some(Open(app, at, at)), completed := LastN(s.completed, historyLen))
    else if s.current.value.app != app then
      var cur := s.current.value;
      var closed := Segment(cur.app, cur.start, at, AtLeastOne(at - cur.start));
      s.(completed := LastN(s.completed + [closed], historyLen), current := Some(Open(app, at, at)))
    else s.(current := Some(s.current.value.(last := at)), completed := LastN(s.completed, historyLen))
  }

  predicate SampleRefused(s: State, at: real) {
    s.previousTime.Some? && at < s.previousTime.value
  }

  predicate GapResets(s: State, at: real) {
    s.previousTime.Some? && at - s.previousTime.value > MAX_GAP
  }

  function Sampled(s: State, at: real, app: App, historyLen: nat): State {
    if SampleRefused(s, at) then s
    else Updated(if GapResets(s, at) then EMPTY else s, at, app, historyLen).(previousTime := Some(at))
  }

  predicate EventRefused(s: State, at: real) {
    (s.lastEventTime.Some? && at < s.lastEventTime.value) || (s.current.Some? && at < s.current.value.start)
  }

  /** An event accepted before the last tick moves the clock back to its own time. */
  function Rewound(s: State, at: real): State {
    if s.previousTime.Some? && at < s.previousTime.value then s.(previousTime := Some(at)) else s
  }

  function Handled(s: State, at: real, app: App, historyLen: nat): State {
    if EventRefused(s, at) then s
    else Sampled(Rewound(s, at), at, app, historyLen).(lastEventTime := Some(at))
  }

  function Step(s: State, i: Input, historyLen: nat): State {
    match i
    case Sample(at, app) => Sampled(s, at, app, historyLen)
    case Event(at, app) => Handled(s, at, app, historyLen)
  }

  /** The fields as the runner updates them. */
  class Runner {
    const historyLen: nat
    var completed: seq<Segment>
    var current: Option<Open>
    var previousTime: Option<real>
    var lastEventTime: Option<real>

    function View(): State
      reads this
    {
      State(completed, current, previousTime, lastEventTime)
    }

    constructor (historyLen: nat)
      ensures View() == EMPTY && this.historyLen == historyLen
    {
      this.historyLen := historyLen;
      completed, current, previousTime, lastEventTime := [], None, None, None;
    }

    method ResetHistory()
      modifies this
      ensures View() == EMPTY
    {
      completed, current, previousTime, lastEventTime := [], None, None, None;
    }

    /** The base update: open, extend or close the current segment. */
    method UpdateBase(at: real, app: App)
      modifies this`completed, this`current
      ensures app.Unknown? ==> View() == old(View())
      ensures app.Known? && (old(current).None? || old(current).value.app != app) ==> current == Some(Open(app, at, at))
      ensures app.Known? && old(current).Some? && old(current).value.app == app ==>
                current == Some(old(current).value.(last := at))
      ensures app.Known? && old(current).Some? && old(current).value.app != app ==>
                var cur := old(current).value;
                completed == old(completed) + [Segment(cur.app, cur.start, cur.last, AtLeastOne(cur.last - cur.start))]
      ensures !(app.Known? && old(current).Some? && old(current).value.app != app) ==> completed == old(completed)
    {
      if app.Unknown? {
        return;
      }
      if current.None? {
        current := Some(Open(app, at, at));
        return;
      }
      var cur := current.value;
      if cur.app != app {
        completed := completed + [Segment(cur.app, cur.start, cur.last, AtLeastOne(cur.last - cur.start))];
        current := Some(Open(app, at, at));
      } else {
        current := Some(cur.(last := at));
      }
    }

    /** The visit-window update: the transition time, not the last tick, ends the old segment. */
    method UpdateSegments(at: real, app: App)
      modifies this`completed, this`current
      ensures View() == Updated(old(View()), at, app, historyLen)
    {
      if current.Some? && app.Known? && current.value.app != app {
        current := Some(current.value.(last := at));
      }
      UpdateBase(at, app);
      completed := LastN(completed, historyLen);
    }

    method ProcessSample(at: real, app: App) returns (accepted: bool)
      modifies this
      ensures View() == Sampled(old(View()), at, app, historyLen)
      ensures accepted <==> !SampleRefused(old(View()), at)
    {
      if previousTime.Some? && at < previousTime.value {
        return false;
      }
      if previousTime.Some? && at - previousTime.value > MAX_GAP {
        ResetHistory();
      }
      UpdateSegments(at, app);
      previousTime := Some(at);
      accepted := true;
    }

    method ProcessEvent(at: real, app: App) returns (accepted: bool)
      modifies this
      ensures View() == Handled(old(View()), at, app, historyLen)
      ensures accepted <==> !EventRefused(old(View()), at)
    {
      if (lastEventTime.Some? && at < lastEventTime.value) || (current.Some? && at < current.value.start) {
        return false;
      }
      if previousTime.Some? && at < previousTime.value {
        previousTime := Some(at);
      }
      accepted := ProcessSample(at, app);
      lastEventTime := Some(at);
    }
  }

  // ----- what the inputs say -----

  function Fold(inputs: seq<Input>, historyLen: nat): State {
    if |inputs| == 0 then EMPTY
    else Step(Fold(inputs[..|inputs| - 1], historyLen), inputs[|inputs| - 1], historyLen)
  }

  datatype Switch = Switch(at: real, app: App)

  /** What the inputs alone tell: the foreground switches since the last long gap, without repeats, and the
      times of the last accepted input, of the last accepted event, and of the last one that named an app. */
  datatype Story = Story(switches: seq<Switch>, last: Option<real>, lastEvent: Option<real>, seen: Option<real>)

  const UNTOLD: Story := Story([], None, None, None)

  /** A tick must not precede the last accepted input; an event only the last event and the last switch. */
  predicate TooLate(story: Story, i: Input) {
    if i.Sample? then story.last.Some? && i.at < story.last.value
    else
      || (story.lastEvent.Some? && i.at < story.lastEvent.value)
      || (|story.switches| > 0 && i.at < story.switches[|story.switches| - 1].at)
  }

  predicate AfterLongGap(story: Story, i: Input) {
    story.last.Some? && i.at - story.last.value > 3600.0
  }

  function SwitchTo(sw: seq<Switch>, at: real, app: App): seq<Switch> {
    if app.Unknown? || (|sw| > 0 && sw[|sw| - 1].app == app) then sw else sw + [Switch(at, app)]
  }

  /** The story after an accepted input; a long gap before it forgets what came earlier. */
  function Ticked(story: Story, gap: bool, at: real, app: App): Story {
    Story(SwitchTo(if gap then [] else story.switches, at, app), Some(at), if gap then None else story.lastEvent,
          if app.Known? then Some(at) else if gap then None else story.seen)
  }

  function Continued(story: Story, i: Input): Story {
    if TooLate(story, i) then story
    else
      var next := Ticked(story, AfterLongGap(story, i), i.at, i.app);
      if i.Event? then next.(lastEvent := Some(i.at)) else next
  }

  function Told(inputs: seq<Input>): Story {
    if |inputs| == 0 then UNTOLD
    else Continued(Told(inputs[..|inputs| - 1]), inputs[|inputs| - 1])
  }

  /** The segments between consecutive switches. */
  function Between(sw: seq<Switch>): (segments: seq<Segment>)
    ensures |segments| == if |sw| == 0 then 0 else |sw| - 1
  {
    if |sw| <= 1 then []
    else
      var a, b := sw[|sw| - 2], sw[|sw| - 1];
      Between(sw[..|sw| - 1]) + [Segment(a.app, a.at, b.at, AtLeastOne(b.at - a.at))]
  }

  predicate Matches(s: State, sw: seq<Switch>, historyLen: nat) {
    && s.completed == LastN(Between(sw), historyLen)
    && (s.current.None? <==> |sw| == 0)
    && (s.current.Some? ==>
          var last := sw[|sw| - 1];
          s.current.value.app == last.app && s.current.value.start == last.at)
  }

  predicate Chronological(sw: seq<Switch>) {
    && (forall i :: 0 <= i < |sw| ==> sw[i].app.Known?)
    && (forall i :: 0 <= i < |sw| - 1 ==> sw[i].at <= sw[i + 1].at && sw[i].app != sw[i + 1].app)
  }

  /** The stored state is what the story says. */
  predicate Follows(s: State, story: Story, historyLen: nat) {
    && Matches(s, story.switches, historyLen) && Chronological(story.switches)
    && s.previousTime == story.last && s.lastEventTime == story.lastEvent
    && (s.current.Some? ==> story.seen == Some(s.current.value.last))
    && (|story.switches| > 0 ==> story.last.Some? && story.switches[|story.switches| - 1].at <= story.last.value)
  }

  lemma LastNAppend<T>(s: seq<T>, x: T, n: nat)
    ensures LastN(LastN(s, n) + [x], n) == LastN(s + [x], n)
  {
  }

  lemma LastNTwice<T>(s: seq<T>, n: nat)
    ensures LastN(LastN(s, n), n) == LastN(s, n)
  {
  }

  /** After any mix of ticks and events, with any timestamps, the stored segments are exactly the last
      ones of the chain of foreground switches, and the clocks those of the last accepted inputs. */
  lemma {:induction false} TimelineFollowsInputs(inputs: seq<Input>, historyLen: nat)
    ensures Follows(Fold(inputs, historyLen), Told(inputs), historyLen)
  {
    if |inputs| > 0 {
      var before := inputs[..|inputs| - 1];
      TimelineFollowsInputs(before, historyLen);
      TimelineStep(Fold(before, historyLen), Told(before), inputs[|inputs| - 1], historyLen);
    }
  }

  lemma TimelineStep(s: State, story: Story, i: Input, historyLen: nat)
    requires Follows(s, story, historyLen)
    ensures Follows(Step(s, i, historyLen), Continued(story, i), historyLen)
  {
    if TooLate(story, i) {
      RefusedWhenLate(s, story, i, historyLen);
    } else if i.Event? {
      EventStep(s, story, i.at, i.app, historyLen);
    } else {
      SampleStep(s, story, i.at, i.app, historyLen);
    }
  }

  lemma RefusedWhenLate(s: State, story: Story, i: Input, historyLen: nat)
    requires Follows(s, story, historyLen) && TooLate(story, i)
    ensures Step(s, i, historyLen) == s
  {
  }

  /** Which inputs the runner turns away is decided by the inputs alone, whatever the history length. */
  lemma RefusedIffTooLate(inputs: seq<Input>, i: Input, historyLen: nat)
    ensures TooLate(Told(inputs), i) <==>
            if i.Event? then EventRefused(Fold(inputs, historyLen), i.at)
            else SampleRefused(Fold(inputs, historyLen), i.at)
  {
    TimelineFollowsInputs(inputs, historyLen);
  }

  lemma SampleStep(s: State, story: Story, at: real, app: App, historyLen: nat)
    requires Follows(s, story, historyLen) && !TooLate(story, Sample(at, app))
    ensures Follows(Sampled(s, at, app, historyLen), Continued(story, Sample(at, app)), historyLen)
  {
    AcceptedStep(s, story, at, app, historyLen);
    assert GapResets(s, at) <==> AfterLongGap(story, Sample(at, app));
  }

  lemma EventStep(s: State, story: Story, at: real, app: App, historyLen: nat)
    requires Follows(s, story, historyLen) && !TooLate(story, Event(at, app))
    ensures Follows(Handled(s, at, app, historyLen), Continued(story, Event(at, app)), historyLen)
  {
    RewoundReady(s, story, at, app, historyLen);
    var s1 := Rewound(s, at);
    AcceptedStep(s1, story, at, app, historyLen);
    NoteEvent(Sampled(s1, at, app, historyLen), Ticked(story, GapResets(s1, at), at, app), at, historyLen);
  }

  lemma NoteEvent(s: State, story: Story, at: real, historyLen: nat)
    requires Follows(s, story, historyLen)
    ensures Follows(s.(lastEventTime := Some(at)), story.(lastEvent := Some(at)), historyLen)
  {
  }

  /** Moving the clock back makes the event acceptable as a tick, and is no long gap. */
  lemma RewoundReady(s: State, story: Story, at: real, app: App, historyLen: nat)
    requires Follows(s, story, historyLen) && !TooLate(story, Event(at, app))
    ensures !EventRefused(s, at) && !SampleRefused(Rewound(s, at), at)
    ensures GapResets(Rewound(s, at), at) <==> AfterLongGap(story, Event(at, app))
    ensures Rewound(s, at) == s.(previousTime := Rewound(s, at).previousTime)
  {
  }

  lemma AcceptedStep(s: State, story: Story, at: real, app: App, historyLen: nat)
    requires Matches(s, story.switches, historyLen) && Chronological(story.switches)
    requires s.lastEventTime == story.lastEvent && (s.current.Some? ==> story.seen == Some(s.current.value.last))
    requires !SampleRefused(s, at)
    requires |story.switches| > 0 ==> story.switches[|story.switches| - 1].at <= at
    ensures Follows(Sampled(s, at, app, historyLen), Ticked(story, GapResets(s, at), at, app), historyLen)
  {
    var base := if GapResets(s, at) then EMPTY else s;
    var kept := if GapResets(s, at) then [] else story.switches;
    assert Matches(base, kept, historyLen);
    UpdateStep(base, kept, at, app, historyLen);
    UpdatedClocks(base, at, app, historyLen);
    SwitchedBy(kept, at, app);
  }

  lemma UpdatedClocks(s: State, at: real, app: App, historyLen: nat)
    ensures
      var s' := Updated(s, at, app, historyLen);
      && s'.previousTime == s.previousTime && s'.lastEventTime == s.lastEventTime
      && (if app.Known? then s'.current.Some? && s'.current.value.last == at else s'.current == s.current)
  {
  }

  lemma SwitchedBy(sw: seq<Switch>, at: real, app: App)
    requires |sw| > 0 ==> sw[|sw| - 1].at <= at
    ensures
      var sw' := SwitchTo(sw, at, app);
      |sw'| > 0 ==> sw'[|sw'| - 1].at <= at
  {
  }

  lemma UpdateStep(s: State, sw: seq<Switch>, at: real, app: App, historyLen: nat)
    requires Matches(s, sw, historyLen) && Chronological(sw) && (|sw| > 0 ==> sw[|sw| - 1].at <= at)
    ensures Matches(Updated(s, at, app, historyLen), SwitchTo(sw, at, app), historyLen)
    ensures Chronological(SwitchTo(sw, at, app))
  {
    LastNTwice(Between(sw), historyLen);
    if app.Known? && |sw| == 0 {
      assert Between(sw + [Switch(at, app)]) == [];
    } else if app.Known? && sw[|sw| - 1].app != app {
      SwitchCloses(s, sw, at, app, historyLen);
    }
  }

  lemma SwitchCloses(s: State, sw: seq<Switch>, at: real, app: App, historyLen: nat)
    requires Matches(s, sw, historyLen) && Chronological(sw)
    requires app.Known? && |sw| > 0 && sw[|sw| - 1].app != app && sw[|sw| - 1].at <= at
    ensures Matches(Updated(s, at, app, historyLen), sw + [Switch(at, app)], historyLen)
    ensures Chronological(sw + [Switch(at, app)])
  {
    BetweenAppend(sw, Switch(at, app));
    LastNAppend(Between(sw), ClosedBy(sw, Switch(at, app)), historyLen);
    ChronologicalAppend(sw, Switch(at, app));
  }

  /** The segment that a switch ends. */
  function ClosedBy(sw: seq<Switch>, next: Switch): Segment
    requires |sw| > 0
  {
    var last := sw[|sw| - 1];
    Segment(last.app, last.at, next.at, AtLeastOne(next.at - last.at))
  }

  lemma {:induction false} BetweenAppend(sw: seq<Switch>, next: Switch)
    requires |sw| > 0
    ensures Between(sw + [next]) == Between(sw) + [ClosedBy(sw, next)]
  {
    var all := sw + [next];
    assert all[..|all| - 1] == sw;
  }

  lemma ChronologicalAppend(sw: seq<Switch>, next: Switch)
    requires Chronological(sw) && next.app.Known?
    requires |sw| > 0 ==> sw[|sw| - 1].app != next.app && sw[|sw| - 1].at <= next.at
    ensures Chronological(sw + [next])
  {
  }

  /** One chain: segments meet, neighbours differ, nothing unknown, dwell is the span but at least one second. */
  predicate Chain(s: State) {
    && (forall i :: 0 <= i < |s.completed| ==>
          var seg := s.completed[i];
          seg.app.Known? && seg.start <= seg.end && seg.dwell == AtLeastOne(seg.end - seg.start))
    && (forall i :: 0 <= i < |s.completed| - 1 ==>
          s.completed[i].end == s.completed[i + 1].start && s.completed[i].app != s.completed[i + 1].app)
    && (|s.completed| > 0 ==>
          && s.current.Some?
          && s.completed[|s.completed| - 1].end == s.current.value.start
          && s.completed[|s.completed| - 1].app != s.current.value.app)
    && (s.current.Some? ==> s.current.value.app.Known?)
  }

  lemma {:induction false} BetweenAt(sw: seq<Switch>, i: nat)
    requires i + 1 < |sw|
    ensures Between(sw)[i] == Segment(sw[i].app, sw[i].at, sw[i + 1].at, AtLeastOne(sw[i + 1].at - sw[i].at))
  {
    if i + 2 < |sw| {
      BetweenAt(sw[..|sw| - 1], i);
    }
  }

  lemma ChainOfSwitches(s: State, sw: seq<Switch>, skip: nat)
    requires Chronological(sw) && (s.current.None? <==> |sw| == 0)
    requires s.current.Some? ==>
               s.current.value.app == sw[|sw| - 1].app && s.current.value.start == sw[|sw| - 1].at
    requires skip + |s.completed| == if |sw| == 0 then 0 else |sw| - 1
    requires forall i :: 0 <= i < |s.completed| ==>
               s.completed[i] == Segment(sw[skip + i].app, sw[skip + i].at, sw[skip + i + 1].at,
                                         AtLeastOne(sw[skip + i + 1].at - sw[skip + i].at))
    ensures Chain(s)
  {
    forall i | 0 <= i < |s.completed| - 1
      ensures s.completed[i].end == s.completed[i + 1].start && s.completed[i].app != s.completed[i + 1].app
    {
      assert sw[skip + i].app != sw[skip + i + 1].app;
    }
  }

  lemma {:induction false} KeptAt(sw: seq<Switch>, kept: seq<Segment>, historyLen: nat, skip: nat)
    requires kept == LastN(Between(sw), historyLen) && skip + |kept| == |Between(sw)|
    ensures forall i :: 0 <= i < |kept| ==>
              kept[i] == Segment(sw[skip + i].app, sw[skip + i].at, sw[skip + i + 1].at,
                                 AtLeastOne(sw[skip + i + 1].at - sw[skip + i].at))
  {
    forall i | 0 <= i < |kept|
      ensures kept[i] == Segment(sw[skip + i].app, sw[skip + i].at, sw[skip + i + 1].at,
                                 AtLeastOne(sw[skip + i + 1].at - sw[skip + i].at))
    {
      LastNEntry(Between(sw), historyLen, skip, i);
      BetweenAt(sw, skip + i);
    }
  }

  lemma LastNEntry<T>(s: seq<T>, n: nat, skip: nat, i: nat)
    requires skip + |LastN(s, n)| == |s| && i < |LastN(s, n)|
    ensures LastN(s, n)[i] == s[skip + i]
  {
  }

  lemma {:induction false} SegmentsChain(inputs: seq<Input>, historyLen: nat)
    ensures Chain(Fold(inputs, historyLen))
  {
    TimelineFollowsInputs(inputs, historyLen);
    MatchesChain(Fold(inputs, historyLen), Told(inputs).switches, historyLen);
  }

  lemma {:induction false} MatchesChain(s: State, sw: seq<Switch>, historyLen: nat)
    requires Matches(s, sw, historyLen) && Chronological(sw)
    ensures Chain(s)
  {
    var skip := |Between(sw)| - |s.completed|;
    KeptAt(sw, s.completed, historyLen, skip);
    ChainOfSwitches(s, sw, skip);
  }

  /** Segments hold their start but not their end. */
  predicate Covers(seg: Segment, x: real) {
    seg.start <= x < seg.end
  }

  predicate CoversAt(s: State, i: int, x: real) {
    0 <= i < |s.completed| && Covers(s.completed[i], x)
  }

  predicate Joined(segments: seq<Segment>) {
    && (forall i :: 0 <= i < |segments| ==> segments[i].start <= segments[i].end)
    && (forall i :: 0 <= i < |segments| - 1 ==> segments[i].end == segments[i + 1].start)
  }

  lemma {:induction false} EndsAscend(segments: seq<Segment>, i: nat, j: nat)
    requires Joined(segments) && i < j < |segments|
    ensures segments[i].end <= segments[j].start
    decreases j - i
  {
    if i + 1 < j {
      EndsAscend(segments, i, j - 1);
    }
  }

  lemma {:induction false} SomeCovers(segments: seq<Segment>, x: real) returns (i: nat)
    requires Joined(segments) && |segments| > 0
    requires segments[0].start <= x < segments[|segments| - 1].end
    ensures i < |segments| && Covers(segments[i], x)
  {
    var last := |segments| - 1;
    if segments[last].start <= x {
      i := last;
    } else {
      i := SomeCovers(segments[..last], x);
    }
  }

  /** The kept segments and the running one tile time from the first kept start on: every instant lies in
      exactly one of them. */
  lemma SegmentsTileTime(inputs: seq<Input>, historyLen: nat, x: real)
    requires Fold(inputs, historyLen).current.Some?
    requires
      var s := Fold(inputs, historyLen);
      (if |s.completed| > 0 then s.completed[0].start else s.current.value.start) <= x
    ensures
      var s := Fold(inputs, historyLen);
      && (s.current.value.start <= x <==> forall i :: !CoversAt(s, i, x))
      && (forall i, j :: CoversAt(s, i, x) && CoversAt(s, j, x) ==> i == j)
  {
    SegmentsChain(inputs, historyLen);
    TileOf(Fold(inputs, historyLen), x);
  }

  lemma TileOf(s: State, x: real)
    requires Chain(s) && s.current.Some?
    requires (if |s.completed| > 0 then s.completed[0].start else s.current.value.start) <= x
    ensures s.current.value.start <= x <==> forall i :: !CoversAt(s, i, x)
    ensures forall i, j :: CoversAt(s, i, x) && CoversAt(s, j, x) ==> i == j
  {
    forall i, j | CoversAt(s, i, x) && CoversAt(s, j, x)
      ensures i == j
    {
      if i < j {
        EndsAscend(s.completed, i, j);
      } else if j < i {
        EndsAscend(s.completed, j, i);
      }
    }
    if x < s.current.value.start {
      var i := SomeCovers(s.completed, x);
      assert CoversAt(s, i, x);
    } else {
      forall i
        ensures !CoversAt(s, i, x)
      {
        CoveredBeforeStart(s, i);
      }
    }
  }

  lemma CoveredBeforeStart(s: State, i: int)
    requires Chain(s) && s.current.Some?
    ensures 0 <= i < |s.completed| ==> s.completed[i].end <= s.current.value.start
  {
    if 0 <= i < |s.completed| - 1 {
      EndsAscend(s.completed, i, |s.completed| - 1);
    }
  }

  /** The history is bounded by its configured length exactly when that length is positive: the slice for
      length zero keeps everything. */
  lemma HistoryBounded(historyLen: nat)
    ensures (forall inputs: seq<Input> :: |Fold(inputs, historyLen).completed| <= historyLen) <==> historyLen >= 1
  {
    if historyLen >= 1 {
      forall inputs: seq<Input>
        ensures |Fold(inputs, historyLen).completed| <= historyLen
      {
        TimelineFollowsInputs(inputs, historyLen);
      }
    } else {
      var a, b := Sample(0.0, Known(1)), Sample(5.0, Known(2));
      assert [a, b][..1] == [a] && [a][..0] == [];
      assert Fold([a], 0) == Step(EMPTY, a, 0);
      assert |Fold([a, b], 0).completed| == 1;
    }
  }

  lemma SampleTakesEffect(s: State, historyLen: nat, at: real, app: App)
    requires app.Known? && !SampleRefused(s, at) && (s.current.Some? ==> s.current.value.start <= at)
    ensures
      var s' := Sampled(s, at, app, historyLen);
      && s'.current.Some? && s'.current.value.app == app && s'.current.value.start <= at
      && s'.previousTime == Some(at)
      && (s.current.Some? && s.current.value.app != app && !GapResets(s, at) ==>
            |s'.completed| > 0 && s'.completed[|s'.completed| - 1].end == at
            && s'.completed[|s'.completed| - 1].app == s.current.value.app)
  {
  }

  /** A late native event is never lost to delivery delay: it is accepted unless it precedes the last event
      or the running segment, and then its app is the foreground from its own time on. */
  lemma LateEventTakesEffect(s: State, historyLen: nat, at: real, app: App)
    requires app.Known?
    ensures
      var s' := Handled(s, at, app, historyLen);
      && (EventRefused(s, at) ==> s' == s)
      && (!EventRefused(s, at) ==>
            && s'.current.Some? && s'.current.value.app == app
            && s'.current.value.start <= at && s'.previousTime == Some(at) && s'.lastEventTime == Some(at)
            && (s.current.Some? && s.current.value.app != app && !GapResets(s, at) ==>
                  |s'.completed| > 0 && s'.completed[|s'.completed| - 1].end == at
                  && s'.completed[|s'.completed| - 1].app == s.current.value.app))
  {
    if !EventRefused(s, at) {
      SampleTakesEffect(Rewound(s, at), historyLen, at, app);
    }
  }

  // ----- padded history -----

  datatype Padded<T> = Padded(apps: seq<Option<App>>, durations: seq<T>, mask: seq<bool>)

  function PaddedHistory<T>(apps: seq<App>, durations: seq<T>, zero: T, historyLen: nat): Padded<T> {
    var apps' := LastN(apps, historyLen);
    var durations' := LastN(durations, historyLen);
    var pad := if historyLen > |apps'| then historyLen - |apps'| else 0;
    Padded(seq(pad, i => None) + seq(|apps'|, i requires 0 <= i < |apps'| => Some(apps'[i])),
           seq(pad, i => zero) + durations',
           seq(pad, i => false) + seq(|apps'|, i => true))
  }

  /** Three aligned lists, padding first; the entries under the mask are the last apps with their own
      durations, and there are exactly `historyLen` of them unless that length is zero. */
  lemma PaddedAligned<T>(apps: seq<App>, durations: seq<T>, zero: T, historyLen: nat)
    requires |apps| == |durations|
    ensures
      var p := PaddedHistory(apps, durations, zero, historyLen);
      var n := |p.mask|;
      var shift := n - |apps|;
      && |p.apps| == |p.durations| == n
      && (n == historyLen <==> historyLen >= 1 || |apps| == 0)
      && (forall i, j :: 0 <= i <= j < n && p.mask[i] ==> p.mask[j])
      && (forall i :: 0 <= i < n ==> (p.mask[i] <==> 0 <= i - shift))
      && (forall i :: 0 <= i < n && p.mask[i] ==>
            p.apps[i] == Some(apps[i - shift]) && p.durations[i] == durations[i - shift])
      && (forall i :: 0 <= i < n && !p.mask[i] ==> p.apps[i] == None && p.durations[i] == zero)
  {
  }

  // ----- the history handed to the model -----

  datatype Stay = Stay(app: App, dwell: real)

  /** The completed segments and the running one, with its dwell so far. */
  function HistorySegments(s: State, now: real): seq<Stay> {
    seq(|s.completed|, i requires 0 <= i < |s.completed| => Stay(s.completed[i].app, s.completed[i].dwell))
    + if s.current.None? then [] else [Stay(s.current.value.app, AtLeastOne(now - s.current.value.start))]
  }

  function HistoryAt(stays: seq<Stay>, historyLen: nat): Padded<real> {
    PaddedHistory(Apps(stays), Dwells(stays), 0.0, historyLen)
  }

  function Apps(stays: seq<Stay>): (apps: seq<App>)
    ensures |apps| == |stays| && forall i :: 0 <= i < |stays| ==> apps[i] == stays[i].app
  {
    seq(|stays|, i requires 0 <= i < |stays| => stays[i].app)
  }

  function Dwells(stays: seq<Stay>): (dwells: seq<real>)
    ensures |dwells| == |stays| && forall i :: 0 <= i < |stays| ==> dwells[i] == stays[i].dwell
  {
    seq(|stays|, i requires 0 <= i < |stays| => stays[i].dwell)
  }

  /** After any inputs the model sees exactly `historyLen` aligned entries: known applications that stayed
      at least a second, no two neighbours equal, the running segment last. */
  lemma {:induction false} ModelHistory(inputs: seq<Input>, historyLen: nat, now: real)
    requires historyLen >= 1
    ensures
      var s := Fold(inputs, historyLen);
      var p := HistoryAt(HistorySegments(s, now), historyLen);
      && |p.apps| == |p.durations| == |p.mask| == historyLen
      && (forall i, j :: 0 <= i <= j < historyLen && p.mask[i] ==> p.mask[j])
      && (forall i :: 0 <= i < historyLen && p.mask[i] ==>
            p.apps[i].Some? && p.apps[i].value.Known? && p.durations[i] >= 1.0)
      && (forall i :: 0 <= i < historyLen - 1 && p.mask[i] ==> p.apps[i] != p.apps[i + 1])
      && (s.current.Some? ==>
            p.mask[historyLen - 1] && p.apps[historyLen - 1] == Some(s.current.value.app)
            && p.durations[historyLen - 1] == AtLeastOne(now - s.current.value.start))
  {
    SegmentsChain(inputs, historyLen);
    var s := Fold(inputs, historyLen);
    StaysDiffer(s, now);
    PaddedStays(HistorySegments(s, now), historyLen);
  }

  /** The entry `back` places before the last is the segment completed as long ago, with its own dwell. */
  predicate EntryIsSegment(s: State, historyLen: nat, now: real, back: nat)
    requires 1 <= back < historyLen && back <= |s.completed|
  {
    var p := HistoryAt(HistorySegments(s, now), historyLen);
    var seg := s.completed[|s.completed| - back];
    && |p.mask| == |p.apps| == |p.durations| == historyLen && p.mask[historyLen - 1 - back]
    && p.apps[historyLen - 1 - back] == Some(seg.app)
    && p.durations[historyLen - 1 - back] == AtLeastOne(seg.end - seg.start)
  }

  /** The entries before the running segment are the completed ones, latest last. */
  lemma {:induction false} ModelHistoryEntries(inputs: seq<Input>, historyLen: nat, now: real, back: nat)
    requires Fold(inputs, historyLen).current.Some?
    requires 1 <= back < historyLen && back <= |Fold(inputs, historyLen).completed|
    ensures EntryIsSegment(Fold(inputs, historyLen), historyLen, now, back)
  {
    SegmentsChain(inputs, historyLen);
    EntryOf(Fold(inputs, historyLen), historyLen, now, back);
  }

  lemma EntryOf(s: State, historyLen: nat, now: real, back: nat)
    requires Chain(s) && s.current.Some? && 1 <= back < historyLen && back <= |s.completed|
    ensures EntryIsSegment(s, historyLen, now, back)
  {
    var i := |s.completed| - back;
    StayAt(s, now, i);
    EntryOfStays(HistorySegments(s, now), historyLen, back,
                 Stay(s.completed[i].app, AtLeastOne(s.completed[i].end - s.completed[i].start)));
  }

  lemma EntryOfStays(stays: seq<Stay>, historyLen: nat, back: nat, stay: Stay)
    requires back < historyLen && back < |stays| && stays[|stays| - 1 - back] == stay
    ensures
      var p := HistoryAt(stays, historyLen);
      && |p.mask| == |p.apps| == |p.durations| == historyLen && p.mask[historyLen - 1 - back]
      && p.apps[historyLen - 1 - back] == Some(stay.app) && p.durations[historyLen - 1 - back] == stay.dwell
  {
    PaddedLengths(stays, historyLen);
    PaddedAt(stays, historyLen, historyLen - 1 - back);
  }

  lemma StayAt(s: State, now: real, i: nat)
    requires Chain(s) && i < |s.completed|
    ensures
      var stays, seg := HistorySegments(s, now), s.completed[i];
      i < |stays| && stays[i] == Stay(seg.app, AtLeastOne(seg.end - seg.start))
      && |stays| == |s.completed| + if s.current.Some? then 1 else 0
  {
  }

  predicate Orderly(stays: seq<Stay>) {
    && (forall i :: 0 <= i < |stays| ==> stays[i].app.Known? && stays[i].dwell >= 1.0)
    && (forall i :: 0 <= i < |stays| - 1 ==> stays[i].app != stays[i + 1].app)
  }

  lemma PaddedStays(stays: seq<Stay>, historyLen: nat)
    requires historyLen >= 1 && Orderly(stays)
    ensures
      var p := HistoryAt(stays, historyLen);
      && |p.apps| == |p.durations| == |p.mask| == historyLen
      && (forall i, j :: 0 <= i <= j < historyLen && p.mask[i] ==> p.mask[j])
      && (forall i :: 0 <= i < historyLen && p.mask[i] ==>
            p.apps[i].Some? && p.apps[i].value.Known? && p.durations[i] >= 1.0)
      && (forall i :: 0 <= i < historyLen - 1 && p.mask[i] ==> p.apps[i] != p.apps[i + 1])
      && (|stays| > 0 ==>
            var last := stays[|stays| - 1];
            && p.mask[historyLen - 1] && p.apps[historyLen - 1] == Some(last.app)
            && p.durations[historyLen - 1] == last.dwell)
  {
    var p := HistoryAt(stays, historyLen);
    PaddedLengths(stays, historyLen);
    forall i | 0 <= i < historyLen && p.mask[i]
      ensures p.apps[i].Some? && p.apps[i].value.Known? && p.durations[i] >= 1.0
    {
      PaddedAt(stays, historyLen, i);
    }
    forall i | 0 <= i < historyLen - 1 && p.mask[i]
      ensures p.apps[i] != p.apps[i + 1]
    {
      PaddedAt(stays, historyLen, i);
      PaddedAt(stays, historyLen, i + 1);
    }
    if |stays| > 0 {
      PaddedAt(stays, historyLen, historyLen - 1);
    }
  }

  lemma PaddedLengths(stays: seq<Stay>, historyLen: nat)
    requires historyLen >= 1
    ensures
      var p := HistoryAt(stays, historyLen);
      && |p.apps| == |p.durations| == |p.mask| == historyLen
      && (forall i :: 0 <= i < historyLen ==> (p.mask[i] <==> 0 <= i - (historyLen - |stays|)))
  {
    PaddedAligned(Apps(stays), Dwells(stays), 0.0, historyLen);
  }

  lemma PaddedEntry<T>(apps: seq<App>, durations: seq<T>, zero: T, historyLen: nat, i: nat, k: nat)
    requires |apps| == |durations| && i < historyLen && k < |apps| && i == historyLen - |apps| + k
    ensures
      var p := PaddedHistory(apps, durations, zero, historyLen);
      i < |p.apps| && i < |p.durations| && p.apps[i] == Some(apps[k]) && p.durations[i] == durations[k]
  {
    PaddedAligned(apps, durations, zero, historyLen);
  }

  lemma {:induction false} PaddedAt(stays: seq<Stay>, historyLen: nat, i: nat)
    requires i < historyLen && 0 <= i - (historyLen - |stays|)
    ensures
      var p := HistoryAt(stays, historyLen);
      var stay := stays[i - (historyLen - |stays|)];
      && i < |p.apps| && i < |p.durations| && p.apps[i] == Some(stay.app) && p.durations[i] == stay.dwell
  {
    var k := i - (historyLen - |stays|);
    var apps, dwells := Apps(stays), Dwells(stays);
    assert apps[k] == stays[k].app && dwells[k] == stays[k].dwell;
    PaddedEntry(apps, dwells, 0.0, historyLen, i, k);
  }

  lemma StaysDiffer(s: State, now: real)
    requires Chain(s)
    ensures Orderly(HistorySegments(s, now))
  {
  }
}
