/** Desktop bookkeeping: which applications are open, how many windows each has, and the recent foreground
    history. The application an event belongs to (after mapping) is part of the event. */
module RuntimeState {
  import opened Common

  datatype Kind = Opened | Switched | Closed | Minimized | Restored | Other

  /** An event with its mapped application (`None` when no mapping is known) and its identification fields,
      already stripped of surrounding blanks. */
  datatype Event = Event(kind: Kind, app: Option<string>, windowId: string, pid: string, wmClass: string, title: string)

  datatype Row = Row(kind: Kind, app: string, openApps: seq<string>)

  datatype Update = Update(
    foreground: Option<string>, openApps: seq<string>, history: seq<string>, shouldPredict: bool, row: Option<Row>)

  datatype State = State(
    openApps: seq<string>, history: seq<string>, foreground: Option<string>,
    windows: map<string, string>, counts: map<string, nat>)

  const EMPTY: State := State([], [], None, map[], map[])

  // ----- the updates, as functions of the state -----

  function WindowKey(e: Event): (key: string)
    ensures key != "" && (e.windowId != "" ==> key == e.windowId)
    ensures e.windowId == "" ==>
              && |key| == |e.pid| + |e.wmClass| + |e.title| + 2
              && e.pid + [':'] <= key && key[|e.pid| + 1..|e.pid| + 1 + |e.wmClass|] == e.wmClass
              && key[|key| - |e.title|..] == e.title && key[|key| - |e.title| - 1] == ':'
  {
    if e.windowId != "" then e.windowId else e.pid + ":" + e.wmClass + ":" + e.title
  }

  function CountOf(s: State, app: string): nat {
    if app in s.counts then s.counts[app] else 0
  }

  function Without(openApps: seq<string>, app: string): (r: seq<string>)
    ensures forall x :: x in r <==> x in openApps && x != app
  {
    if |openApps| == 0 then []
    else if openApps[0] == app then Without(openApps[1..], app)
    else [openApps[0]] + Without(openApps[1..], app)
  }

  lemma {:induction false} WithoutStep(openApps: seq<string>, i: nat, app: string, kept: seq<string>)
    requires i < |openApps|
    ensures kept + Without(openApps[i..], app)
         == (if openApps[i] == app then kept else kept + [openApps[i]]) + Without(openApps[i + 1..], app)
  {
    assert openApps[i..][1..] == openApps[i + 1..];
  }

  function WithOpened(openApps: seq<string>, app: string): seq<string> {
    if app in openApps then openApps else openApps + [app]
  }

  function Remembered(history: seq<string>, app: string, historyLen: nat): seq<string> {
    if |history| > 0 && history[|history| - 1] == app then history
    else if |history| + 1 > historyLen then LastN(history + [app], historyLen)
    else history + [app]
  }

  function AddWindow(s: State, key: string, app: string): State {
    if key in s.windows then s
    else s.(windows := s.windows[key := app], counts := s.counts[app := CountOf(s, app) + 1])
  }

  /** The application whose window a close event takes away: the tracked one, else the one it names. */
  function ClosingApp(s: State, key: string, app: string): string {
    if key in s.windows then s.windows[key] else app
  }

  function RemoveWindow(s: State, key: string, app: string): State {
    var target := ClosingApp(s, key, app);
    s.(windows := s.windows - {key},
       counts := if CountOf(s, target) > 1 then s.counts[target := CountOf(s, target) - 1] else s.counts - {target})
  }

  predicate FirstWindow(s: State, key: string, app: string) {
    key !in s.windows && CountOf(s, app) == 0
  }

  predicate LastWindow(s: State, key: string, app: string) {
    var target := ClosingApp(s, key, app);
    CountOf(s, target) <= 1 && target == app
  }

  function Switch(s: State, app: string, historyLen: nat): State {
    var s' := s.(openApps := WithOpened(s.openApps, app));
    if s.foreground == Some(app) then s'
    else s'.(foreground := Some(app), history := Remembered(s.history, app, historyLen))
  }

  function Step(s: State, e: Event, historyLen: nat): State {
    if e.app.None? then s
    else
      var app := e.app.value;
      var key := WindowKey(e);
      match e.kind
      case Opened =>
        var s' := AddWindow(s, key, app);
        if FirstWindow(s, key, app) then s'.(openApps := WithOpened(s.openApps, app)) else s'
      case Switched => Switch(s, app, historyLen)
      case Closed =>
        var s' := RemoveWindow(s, key, app);
        if !LastWindow(s, key, app) then s'
        else s'.(openApps := Without(s.openApps, app),
                 foreground := if s.foreground == Some(app) then None else s.foreground)
      case _ => s
  }

  /** Whether an event produces a row for the log, judged on the state before it. */
  predicate Logged(s: State, e: Event) {
    e.app.Some? &&
    match e.kind
    case Opened => FirstWindow(s, WindowKey(e), e.app.value)
    case Switched => s.foreground != e.app
    case Closed => LastWindow(s, WindowKey(e), e.app.value)
    case Minimized => true
    case Restored => true
    case Other => false
  }

  function Report(s: State, e: Event, historyLen: nat): Update {
    var s' := Step(s, e, historyLen);
    if e.kind.Other? || e.app.None? then Update(None, s.openApps, s.history, false, None)
    else
      Update(e.app, s'.openApps, s'.history, Logged(s, e) && (e.kind.Opened? || e.kind.Switched?),
             if Logged(s, e) then Some(Row(e.kind, e.app.value, s'.openApps)) else None)
  }

  /** The fields as the monitor updates them. */
  class Runtime {
    const historyLen: nat
    var openApps: seq<string>
    var history: seq<string>
    var foreground: Option<string>
    var windows: map<string, string>
    var counts: map<string, nat>

    function View(): State
      reads this
    {
      State(openApps, history, foreground, windows, counts)
    }

    constructor (historyLen: nat)
      ensures View() == EMPTY && this.historyLen == historyLen
    {
      this.historyLen := historyLen;
      openApps, history, foreground, windows, counts := [], [], None, map[], map[];
    }

    method AddOpened(app: string)
      modifies this`openApps
      ensures openApps == WithOpened(old(openApps), app)
    {
      if app !in openApps {
        openApps := openApps + [app];
      }
    }

    method CloseOpened(app: string)
      modifies this`openApps
      ensures openApps == Without(old(openApps), app)
    {
      var kept: seq<string> := [];
      for i := 0 to |openApps|
        invariant openApps == old(openApps)
        invariant kept + Without(openApps[i..], app) == Without(openApps, app)
      {
        WithoutStep(openApps, i, app, kept);
        if openApps[i] != app {
          kept := kept + [openApps[i]];
        }
      }
      openApps := kept;
    }

    method SetForeground(app: string)
      modifies this`foreground, this`history
      ensures foreground == Some(app) && history == Remembered(old(history), app, historyLen)
    {
      foreground := Some(app);
      if |history| == 0 || history[|history| - 1] != app {
        history := history + [app];
        if |history| > historyLen {
          history := LastN(history, historyLen);
        }
      }
    }

    method TrackWindow(key: string, app: string) returns (first: bool)
      requires key != ""
      modifies this`windows, this`counts
      ensures View() == AddWindow(old(View()), key, app)
      ensures first <==> FirstWindow(old(View()), key, app)
    {
      if key in windows {
        return false;
      }
      var previous := if app in counts then counts[app] else 0;
      windows := windows[key := app];
      counts := counts[app := previous + 1];
      first := previous == 0;
    }

    method ForgetWindow(key: string, app: string) returns (last: bool)
      modifies this`windows, this`counts
      ensures View() == RemoveWindow(old(View()), key, app)
      ensures last <==> LastWindow(old(View()), key, app)
    {
      var tracked := if key in windows then windows[key] else app;
      windows := windows - {key};
      var held := if tracked in counts then counts[tracked] else 0;
      if held > 1 {
        counts := counts[tracked := held - 1];
        return false;
      }
      counts := counts - {tracked};
      last := tracked == app;
    }

    method HandleEvent(e: Event) returns (update: Update)
      modifies this
      ensures View() == Step(old(View()), e, historyLen)
      ensures update == Report(old(View()), e, historyLen)
    {
      var key := WindowKey(e);
      if e.kind.Other? || e.app.None? {
        return Update(None, openApps, history, false, None);
      }
      var app := e.app.value;
      var shouldPredict := false;
      var logged := false;
      match e.kind {
        case Opened =>
          var first := TrackWindow(key, app);
          if first {
            AddOpened(app);
            logged, shouldPredict := true, true;
          }
        case Switched =>
          AddOpened(app);
          if foreground != Some(app) {
            SetForeground(app);
            logged, shouldPredict := true, true;
          }
        case Closed =>
          var last := ForgetWindow(key, app);
          if last {
            CloseOpened(app);
            logged := true;
            if foreground == Some(app) {
              foreground := None;
            }
          }
        case _ =>
          logged := true;
      }
      update := Update(Some(app), openApps, history, shouldPredict,
                       if logged then Some(Row(e.kind, app, openApps)) else None);
    }
  }

  // ----- what any run of events keeps -----

  function Fold(events: seq<Event>, historyLen: nat): State {
    if |events| == 0 then EMPTY
    else Step(Fold(events[..|events| - 1], historyLen), events[|events| - 1], historyLen)
  }

  predicate NoDuplicates(xs: seq<string>) {
    forall i, j :: 0 <= i < j < |xs| ==> xs[i] != xs[j]
  }

  function WindowsOf(windows: map<string, string>, app: string): set<string> {
    set key | key in windows && windows[key] == app
  }

  predicate Consistent(s: State) {
    && NoDuplicates(s.openApps)
    && (forall app :: app in s.counts ==> app in s.openApps && 1 <= s.counts[app] <= |WindowsOf(s.windows, app)|)
    && (s.foreground.Some? ==> s.foreground.value in s.openApps)
  }

  lemma {:induction false} WithoutKeepsDistinct(xs: seq<string>, app: string)
    requires NoDuplicates(xs)
    ensures NoDuplicates(Without(xs, app))
  {
    if |xs| > 0 {
      WithoutKeepsDistinct(xs[1..], app);
      var rest := Without(xs[1..], app);
      assert xs[0] !in rest;
      if xs[0] != app {
        assert forall j :: 1 <= j <= |rest| ==> ([xs[0]] + rest)[j] in rest;
      }
    }
  }

  lemma AddedWindow(windows: map<string, string>, key: string, app: string, other: string)
    requires key !in windows
    ensures |WindowsOf(windows[key := app], other)| == |WindowsOf(windows, other)| + if other == app then 1 else 0
  {
    var after := WindowsOf(windows[key := app], other);
    if other == app {
      assert after == WindowsOf(windows, other) + {key};
    } else {
      assert after == WindowsOf(windows, other);
    }
  }

  lemma RemovedWindow(windows: map<string, string>, key: string, other: string)
    ensures |WindowsOf(windows - {key}, other)|
            == |WindowsOf(windows, other)| - if key in windows && windows[key] == other then 1 else 0
  {
    var after := WindowsOf(windows - {key}, other);
    if key in windows && windows[key] == other {
      assert WindowsOf(windows, other) == after + {key};
    } else {
      assert after == WindowsOf(windows, other);
    }
  }

  lemma CountsAfterOpen(s: State, key: string, app: string)
    requires key !in s.windows
    ensures forall a :: CountOf(AddWindow(s, key, app), a) == CountOf(s, a) + if a == app then 1 else 0
  {
  }

  lemma CountsAfterClose(s: State, key: string, app: string)
    ensures
      var target := ClosingApp(s, key, app);
      forall a :: CountOf(RemoveWindow(s, key, app), a)
                  == if a == target && CountOf(s, a) > 0 then CountOf(s, a) - 1 else CountOf(s, a)
  {
  }

  lemma OpenKeeps(s: State, e: Event, historyLen: nat)
    requires Consistent(s) && e.app.Some? && e.kind.Opened?
    ensures Consistent(Step(s, e, historyLen))
  {
    var key, app := WindowKey(e), e.app.value;
    var s' := Step(s, e, historyLen);
    if key !in s.windows {
      forall a | a in s'.counts
        ensures a in s'.openApps && 1 <= s'.counts[a] <= |WindowsOf(s'.windows, a)|
      {
        AddedWindow(s.windows, key, app, a);
      }
    }
  }

  lemma CloseKeeps(s: State, e: Event, historyLen: nat)
    requires Consistent(s) && e.app.Some? && e.kind.Closed?
    ensures Consistent(Step(s, e, historyLen))
  {
    var key, app := WindowKey(e), e.app.value;
    var s' := Step(s, e, historyLen);
    WithoutKeepsDistinct(s.openApps, app);
    forall a | a in s'.counts
      ensures a in s'.openApps && 1 <= s'.counts[a] <= |WindowsOf(s'.windows, a)|
    {
      RemovedWindow(s.windows, key, a);
      CountsAfterClose(s, key, app);
    }
  }

  /** Open applications are distinct, every counted application is open with a count between one and its
      tracked windows, and the foreground application is open. */
  lemma {:induction false} AlwaysConsistent(events: seq<Event>, historyLen: nat)
    ensures Consistent(Fold(events, historyLen))
  {
    if |events| > 0 {
      var before := events[..|events| - 1];
      AlwaysConsistent(before, historyLen);
      var s, e := Fold(before, historyLen), events[|events| - 1];
      if e.app.Some? && e.kind.Opened? {
        OpenKeeps(s, e, historyLen);
      } else if e.app.Some? && e.kind.Closed? {
        CloseKeeps(s, e, historyLen);
      }
    }
  }

  // ----- when the counts are exact -----

  ghost predicate Exact(s: State) {
    forall app :: CountOf(s, app) == |WindowsOf(s.windows, app)|
  }

  /** A close of a window nobody tracked, for an application with windows left, takes one of its counts. */
  predicate Miscounts(s: State, e: Event) {
    e.kind.Closed? && e.app.Some? && WindowKey(e) !in s.windows && CountOf(s, e.app.value) > 0
  }

  lemma ExactStep(s: State, e: Event, historyLen: nat)
    requires Exact(s)
    ensures Exact(Step(s, e, historyLen)) <==> !Miscounts(s, e)
  {
    if e.app.Some? && e.kind.Opened? {
      ExactAfterOpen(s, e, historyLen);
    } else if e.app.Some? && e.kind.Closed? {
      ExactAfterClose(s, e, historyLen);
    }
  }

  /** Miscounts happen: one window opens, and a close names another one of the same application. */
  lemma MiscountReachable(historyLen: nat) returns (events: seq<Event>, e: Event)
    ensures ClosesTracked(events, historyLen) && Miscounts(Fold(events, historyLen), e)
    ensures Exact(Fold(events, historyLen)) && !Exact(Fold(events + [e], historyLen))
  {
    events := [Event(Opened, Some("editor"), "1", "", "", "")];
    e := Event(Closed, Some("editor"), "2", "", "", "");
    CountsExact(events, historyLen);
    assert events[..0] == [];
    assert Fold(events, historyLen) == Step(EMPTY, events[0], historyLen);
    ExactStep(Fold(events, historyLen), e, historyLen);
    assert (events + [e])[..1] == events;
  }

  lemma ExactAfterOpen(s: State, e: Event, historyLen: nat)
    requires Exact(s) && e.app.Some? && e.kind.Opened?
    ensures Exact(Step(s, e, historyLen))
  {
    var key, app := WindowKey(e), e.app.value;
    if key !in s.windows {
      CountsAfterOpen(s, key, app);
      var s' := Step(s, e, historyLen);
      forall a
        ensures CountOf(s', a) == |WindowsOf(s'.windows, a)|
      {
        AddedWindow(s.windows, key, app, a);
        assert CountOf(s', a) == CountOf(AddWindow(s, key, app), a);
      }
    }
  }

  lemma ExactAfterClose(s: State, e: Event, historyLen: nat)
    requires Exact(s) && e.app.Some? && e.kind.Closed?
    ensures Exact(Step(s, e, historyLen)) <==> !Miscounts(s, e)
  {
    var key, app := WindowKey(e), e.app.value;
    var s' := Step(s, e, historyLen);
    CountsAfterClose(s, key, app);
    if Miscounts(s, e) {
      RemovedWindow(s.windows, key, app);
      assert CountOf(s', app) == CountOf(RemoveWindow(s, key, app), app);
    } else {
      forall a
        ensures CountOf(s', a) == |WindowsOf(s'.windows, a)|
      {
        RemovedWindow(s.windows, key, a);
        assert CountOf(s', a) == CountOf(RemoveWindow(s, key, app), a);
        if key in s.windows && s.windows[key] == a {
          assert key in WindowsOf(s.windows, a);
        }
      }
    }
  }

  /** Every close in the run names a window tracked at that moment. */
  predicate ClosesTracked(events: seq<Event>, historyLen: nat) {
    forall i :: 0 <= i < |events| && events[i].kind.Closed? && events[i].app.Some? ==>
      WindowKey(events[i]) in Fold(events[..i], historyLen).windows
  }

  /** If every close names a tracked window, each application's count is its number of tracked windows. */
  lemma {:induction false} CountsExact(events: seq<Event>, historyLen: nat)
    requires ClosesTracked(events, historyLen)
    ensures Exact(Fold(events, historyLen))
  {
    if |events| == 0 {
      assert forall app :: WindowsOf(EMPTY.windows, app) == {};
    } else {
      var n := |events| - 1;
      var before := events[..n];
      assert forall i :: 0 <= i < n ==> before[..i] == events[..i];
      CountsExact(before, historyLen);
      ExactStep(Fold(before, historyLen), events[n], historyLen);
    }
  }

  /** A close of a tracked window ends its application exactly when that was its last window and the event
      names that same application; nothing else about the open applications changes. An event that names
      another application leaves the tracked one open with no window. */
  lemma CloseEndsApplication(events: seq<Event>, e: Event, historyLen: nat)
    requires ClosesTracked(events, historyLen) && e.kind.Closed? && e.app.Some?
    requires WindowKey(e) in Fold(events, historyLen).windows
    ensures
      var s := Fold(events, historyLen);
      var s' := Step(s, e, historyLen);
      var tracked := s.windows[WindowKey(e)];
      var ended := WindowsOf(s'.windows, tracked) == {} && e.app.value == tracked;
      && (tracked in s'.openApps <==> !ended)
      && (forall app :: app != tracked ==> (app in s'.openApps <==> app in s.openApps))
      && s'.foreground == (if ended && s.foreground == Some(tracked) then None else s.foreground)
      && s'.history == s.history
  {
    AlwaysConsistent(events, historyLen);
    CountsExact(events, historyLen);
    TrackedClose(Fold(events, historyLen), e, historyLen);
  }

  lemma TrackedClose(s: State, e: Event, historyLen: nat)
    requires Consistent(s) && Exact(s) && e.kind.Closed? && e.app.Some? && WindowKey(e) in s.windows
    ensures
      var s' := Step(s, e, historyLen);
      var tracked := s.windows[WindowKey(e)];
      var ended := WindowsOf(s'.windows, tracked) == {} && e.app.value == tracked;
      && (tracked in s'.openApps <==> !ended)
      && (forall app :: app != tracked ==> (app in s'.openApps <==> app in s.openApps))
      && s'.foreground == (if ended && s.foreground == Some(tracked) then None else s.foreground)
      && s'.history == s.history
  {
    var key := WindowKey(e);
    var tracked := s.windows[key];
    RemovedWindow(s.windows, key, tracked);
    assert key in WindowsOf(s.windows, tracked);
    assert CountOf(s, tracked) == |WindowsOf(s.windows, tracked)|;
    assert |WindowsOf(s.windows - {key}, tracked)| == 0 <==> WindowsOf(s.windows - {key}, tracked) == {};
  }

  /** An opening event asks for a prediction exactly when it brings an application its first window. */
  lemma FirstWindowPredicts(events: seq<Event>, e: Event, historyLen: nat)
    requires ClosesTracked(events, historyLen) && e.kind.Opened? && e.app.Some?
    ensures
      var s := Fold(events, historyLen);
      var s' := Step(s, e, historyLen);
      && (Report(s, e, historyLen).shouldPredict <==>
            WindowsOf(s.windows, e.app.value) == {} && WindowsOf(s'.windows, e.app.value) != {})
      && (WindowsOf(s'.windows, e.app.value) != {} ==> e.app.value in s'.openApps)
  {
    var s := Fold(events, historyLen);
    CountsExact(events, historyLen);
    AlwaysConsistent(events, historyLen);
    var key, app := WindowKey(e), e.app.value;
    assert CountOf(s, app) == |WindowsOf(s.windows, app)|;
    assert |WindowsOf(s.windows, app)| == 0 <==> WindowsOf(s.windows, app) == {};
    if key !in s.windows {
      assert key in WindowsOf(s.windows[key := app], app);
    }
  }

  /** Which application a window key belongs to, told by the events: the one that opened it first since it was
      last closed. */
  function Owner(events: seq<Event>, key: string): Option<string> {
    if |events| == 0 then None
    else
      var owner, e := Owner(events[..|events| - 1], key), events[|events| - 1];
      if e.app.None? || WindowKey(e) != key then owner
      else if e.kind.Closed? then None
      else if e.kind.Opened? && owner.None? then e.app
      else owner
  }

  /** The tracked windows are exactly those. */
  lemma {:induction false} WindowsFollowEvents(events: seq<Event>, historyLen: nat, key: string)
    ensures
      var windows := Fold(events, historyLen).windows;
      Owner(events, key) == if key in windows then Some(windows[key]) else None
  {
    if |events| > 0 {
      var before, e := events[..|events| - 1], events[|events| - 1];
      WindowsFollowEvents(before, historyLen, key);
      WindowStep(Fold(before, historyLen), e, historyLen, key);
    }
  }

  lemma WindowStep(s: State, e: Event, historyLen: nat, key: string)
    ensures
      var was := if key in s.windows then Some(s.windows[key]) else None;
      var windows := Step(s, e, historyLen).windows;
      (if key in windows then Some(windows[key]) else None) ==
      if e.app.None? || WindowKey(e) != key then was
      else if e.kind.Closed? then None
      else if e.kind.Opened? && was.None? then e.app
      else was
  {
  }

  /** The list of open applications keeps its order: a new one comes last, an ended one leaves the others as they
      stand. */
  lemma OpenListOrder(s: State, e: Event, historyLen: nat)
    ensures
      var s' := Step(s, e, historyLen);
      || s'.openApps == s.openApps
      || (e.app.Some? && e.app.value !in s.openApps && s'.openApps == s.openApps + [e.app.value])
      || (e.app.Some? && e.kind.Closed? && Drops(s.openApps, s'.openApps, e.app.value))
  {
    if e.app.Some? {
      WithoutDrops(s.openApps, e.app.value);
    }
  }

  /** `kept` is `all` with every `app` taken out: the same list in order, from the front. */
  ghost predicate Drops(all: seq<string>, kept: seq<string>, app: string)
    decreases |all|
  {
    if |all| == 0 then kept == []
    else if all[0] == app then Drops(all[1..], kept, app)
    else |kept| > 0 && kept[0] == all[0] && Drops(all[1..], kept[1..], app)
  }

  lemma {:induction false} WithoutDrops(all: seq<string>, app: string)
    ensures Drops(all, Without(all, app), app)
  {
    if |all| > 0 {
      WithoutDrops(all[1..], app);
    }
  }

  /** A switch opens the application if need be and makes it the foreground; a minimize, a restore, an unknown
      kind or an unmapped application changes nothing. */
  lemma SwitchTakesForeground(s: State, e: Event, historyLen: nat)
    ensures
      var s' := Step(s, e, historyLen);
      && (e.kind.Switched? && e.app.Some? ==>
            s'.foreground == e.app && e.app.value in s'.openApps && s'.windows == s.windows && s'.counts == s.counts)
      && (e.app.None? || e.kind in {Minimized, Restored, Other} ==> s' == s)
      && (e.kind.Opened? ==> s'.foreground == s.foreground && s'.history == s.history)
  {
  }

  /** What an event reports over any run whose closes name tracked windows: an opening is logged with a request to
      predict exactly for an application's first window, a switch exactly when the foreground changes, a close,
      without a request, exactly when it ends its application; minimizing and restoring are always logged. */
  lemma ReportMeans(events: seq<Event>, e: Event, historyLen: nat)
    requires ClosesTracked(events, historyLen) && e.app.Some? && !e.kind.Other?
    requires e.kind.Closed? ==> WindowKey(e) in Fold(events, historyLen).windows
    ensures
      var s := Fold(events, historyLen);
      var s' := Step(s, e, historyLen);
      var u := Report(s, e, historyLen);
      && u.foreground == e.app && u.openApps == s'.openApps && u.history == s'.history
      && (u.row.Some? ==> u.row.value == Row(e.kind, e.app.value, s'.openApps))
      && (u.shouldPredict <==> u.row.Some? && (e.kind.Opened? || e.kind.Switched?))
      && (e.kind.Opened? ==>
            (u.row.Some? <==> WindowKey(e) !in s.windows && WindowsOf(s.windows, e.app.value) == {}))
      && (e.kind.Switched? ==> (u.row.Some? <==> s'.foreground != s.foreground))
      && (e.kind.Closed? ==> (u.row.Some? <==> e.app.value in s.openApps && e.app.value !in s'.openApps))
      && (e.kind in {Minimized, Restored} ==> u.row.Some?)
  {
    var s := Fold(events, historyLen);
    CountsExact(events, historyLen);
    AlwaysConsistent(events, historyLen);
    assert CountOf(s, e.app.value) == |WindowsOf(s.windows, e.app.value)|;
    assert |WindowsOf(s.windows, e.app.value)| == 0 <==> WindowsOf(s.windows, e.app.value) == {};
    if e.kind.Closed? {
      ClosedReport(s, e, historyLen);
    }
  }

  lemma ClosedReport(s: State, e: Event, historyLen: nat)
    requires Consistent(s) && Exact(s) && e.kind.Closed? && e.app.Some? && WindowKey(e) in s.windows
    ensures Report(s, e, historyLen).row.Some? <==>
            e.app.value in s.openApps && e.app.value !in Step(s, e, historyLen).openApps
  {
    var tracked := s.windows[WindowKey(e)];
    assert WindowKey(e) in WindowsOf(s.windows, tracked);
    assert CountOf(s, tracked) == |WindowsOf(s.windows, tracked)|;
  }

  /** An event of no interest reports the lists as they stand and asks for nothing. */
  lemma UnknownReport(s: State, e: Event, historyLen: nat)
    requires e.app.None? || e.kind.Other?
    ensures Report(s, e, historyLen) == Update(None, s.openApps, s.history, false, None)
  {
  }

  // ----- the history -----

  /** The applications switched to, in order, without immediate repeats. */
  function SwitchLog(events: seq<Event>): seq<string> {
    if |events| == 0 then []
    else
      var log := SwitchLog(events[..|events| - 1]);
      var e := events[|events| - 1];
      if e.kind.Switched? && e.app.Some? then Noted(log, e.app.value) else log
  }

  function Noted(log: seq<string>, app: string): seq<string> {
    if |log| == 0 || log[|log| - 1] != app then log + [app] else log
  }

  lemma RememberedNotes(log: seq<string>, app: string, historyLen: nat)
    ensures Remembered(LastN(log, historyLen), app, historyLen) == LastN(Noted(log, app), historyLen)
  {
    var kept := LastN(log, historyLen);
    assert |kept| > 0 <==> |log| > 0;
    assert |log| > 0 ==> kept[|kept| - 1] == log[|log| - 1];
    assert LastN(kept + [app], historyLen) == LastN(log + [app], historyLen);
  }

  predicate StutterFree(log: seq<string>) {
    forall i :: 0 <= i < |log| - 1 ==> log[i] != log[i + 1]
  }

  lemma {:induction false} LogStutterFree(events: seq<Event>)
    ensures StutterFree(SwitchLog(events))
  {
    if |events| > 0 {
      LogStutterFree(events[..|events| - 1]);
    }
  }

  lemma RememberedLast(history: seq<string>, app: string, historyLen: nat)
    ensures |Remembered(history, app, historyLen)| > 0
    ensures
      var after := Remembered(history, app, historyLen);
      after[|after| - 1] == app
  {
  }

  predicate Remembers(s: State, log: seq<string>, historyLen: nat) {
    && s.history == LastN(log, historyLen)
    && (s.foreground.Some? ==> |s.history| > 0 && s.history[|s.history| - 1] == s.foreground.value)
  }

  lemma HistoryStep(s: State, log: seq<string>, e: Event, historyLen: nat)
    requires Remembers(s, log, historyLen)
    ensures
      var log' := if e.kind.Switched? && e.app.Some? then Noted(log, e.app.value) else log;
      Remembers(Step(s, e, historyLen), log', historyLen)
  {
    if e.kind.Switched? && e.app.Some? {
      RememberedNotes(log, e.app.value, historyLen);
      RememberedLast(s.history, e.app.value, historyLen);
      assert s.foreground == e.app ==> Remembered(s.history, e.app.value, historyLen) == s.history;
    }
  }

  /** The stored history is the end of the whole stutter-free log, whatever closes and opens came between,
      and it ends in the foreground application when there is one. */
  lemma {:induction false} HistoryFollowsLog(events: seq<Event>, historyLen: nat)
    ensures Remembers(Fold(events, historyLen), SwitchLog(events), historyLen)
  {
    if |events| > 0 {
      var before, e := events[..|events| - 1], events[|events| - 1];
      HistoryFollowsLog(before, historyLen);
      HistoryStep(Fold(before, historyLen), SwitchLog(before), e, historyLen);
    }
  }

  /** The configured length bounds the history exactly when it is positive: the slice for length zero keeps
      everything. */
  lemma HistoryBounded(historyLen: nat)
    ensures (forall events: seq<Event> :: |Fold(events, historyLen).history| <= historyLen) <==> historyLen >= 1
  {
    if historyLen >= 1 {
      forall events: seq<Event>
        ensures |Fold(events, historyLen).history| <= historyLen
      {
        HistoryFollowsLog(events, historyLen);
      }
    } else {
      var e := Event(Switched, Some("a"), "", "", "", "");
      assert [e][..0] == [];
      assert |Fold([e], 0).history| == 1;
    }
  }

  /** No visible change goes unlogged: without a row, open applications, foreground and history are as before. */
  lemma UnloggedChangesNothing(events: seq<Event>, e: Event, historyLen: nat)
    ensures
      var s := Fold(events, historyLen);
      var s' := Step(s, e, historyLen);
      Report(s, e, historyLen).row.None? ==>
        s'.openApps == s.openApps && s'.foreground == s.foreground && s'.history == s.history
  {
    AlwaysConsistent(events, historyLen);
  }
}
