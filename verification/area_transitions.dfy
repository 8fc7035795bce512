/**
 What a frame logs (controller/veilsight_controller/analytics_engine.py), read off the log alone: every entering, leaving
 and dwelling of every track in every area of the frame is there, once, and nothing else.
 */
module AreaTransitions {
  import opened Types
  import opened Segments
  import opened OrderedKeys
  import opened AreaEventsSpec
  import opened AreaEventsTheorems

  // The log of one track in one area

  ghost function EventsOf(log: seq<Event>, key: Key): seq<Event> {
    if log == [] then []
    else
      var before, e := EventsOf(log[..|log| - 1], key), log[|log| - 1];
      if e.key == key then before + [e] else before
  }

  lemma OneMoreEvent(log: seq<Event>, e: Event, key: Key)
    ensures EventsOf(log + [e], key) == if e.key == key then EventsOf(log, key) + [e] else EventsOf(log, key)
  {
    assert (log + [e])[..|log|] == log;
  }

  lemma {:induction false} SameEvents(s: StreamState, t: StreamState, key: Key)
    requires Unobserved(s, t, key)
    ensures EventsOf(t.log, key) == EventsOf(s.log, key)
    decreases |t.log|
  {
    if |t.log| > |s.log| {
      var shorter := t.(log := t.log[..|t.log| - 1]);
      assert t.log == shorter.log + [t.log[|t.log| - 1]];
      SameEvents(s, shorter, key);
      OneMoreEvent(shorter.log, t.log[|t.log| - 1], key);
    } else {
      assert t.log == s.log;
    }
  }

  /** Seconds since a time, and none before it. */
  function Elapsed(since: int, ts: int): real {
    if ts < since then 0.0 else (ts - since) as real / 1000.0
  }

  /** Since when the log has the track inside, and whether a dwell event was logged since then. */
  ghost function SinceEnter(events: seq<Event>): Option<(int, bool)> {
    if events == [] then None
    else
      var e := events[|events| - 1];
      match e.kind
      case Enter => Some((e.ts, false))
      case Exit(_, _) => None
      case DwellThreshold(_) =>
        var before := SinceEnter(events[..|events| - 1]);
        if before == None then None else Some((before.value.0, true))
  }

  ghost function SinceOf(a: AreaState): Option<(int, bool)> {
    if a.inside && a.enteredAt.Some? then Some((a.enteredAt.value, a.thresholdEmitted)) else None
  }

  /** A log that can be replayed tells the same as the state. */
  lemma {:induction false} ReplayTellsSince(log: seq<Event>, key: Key)
    requires Replay(log, key).Some?
    ensures var a := Replay(log, key).value;
            (a.inside ==> a.enteredAt.Some?) && SinceEnter(EventsOf(log, key)) == SinceOf(a)
    decreases |log|
  {
    if log != [] {
      var before, e := log[..|log| - 1], log[|log| - 1];
      assert log == before + [e];
      OneMoreEvent(before, e, key);
      ReplayTellsSince(before, key);
      if e.key == key {
        assert EventsOf(log, key)[..|EventsOf(before, key)|] == EventsOf(before, key);
      }
    }
  }

  // One observation

  /** What the log of a track in an area becomes when the track is seen at `foot`, after `total` seconds of dwelling. */
  ghost predicate Logs(past: seq<Event>, log: seq<Event>, since: Option<(int, bool)>, total: real, r: Rule, foot: Point,
                       key: Key, ts: int) {
    if since == None then
      log == if r.contains(foot) then past + [Event(key, Enter, ts, foot)] else past
    else
      var dwell := Elapsed(since.value.0, ts);
      if !r.contains(foot) then log == past + [Event(key, Exit(dwell, total + dwell), ts, foot)]
      else if r.threshold.Some? && !since.value.1 && dwell >= r.threshold.value then
        log == past + [Event(key, DwellThreshold(dwell), ts, foot)]
      else log == past
  }

  /** The same about the states before and after, which also tells whether the track is inside now. */
  ghost predicate Seen(s: StreamState, t: StreamState, r: Rule, foot: Point, key: Key, ts: int) {
    && Logs(EventsOf(s.log, key), EventsOf(t.log, key), SinceOf(StateOf(s.areas, key)), StateOf(s.areas, key).totalDwell,
            r, foot, key, ts)
    && (StateOf(t.areas, key).inside <==> r.contains(foot))
  }

  ghost predicate Timed(a: AreaState) {
    a.inside ==> a.enteredAt.Some?
  }

  lemma ObserveLogs(s: StreamState, r: Rule, foot: Point, ts: int, key: Key)
    requires r.isArea && r.id == key.0 && Timed(StateOf(s.areas, key))
    ensures Seen(s, ObserveRule(s, r, key.1, foot, ts), r, foot, key, ts)
  {
    var a, t := StateOf(s.areas, key), ObserveRule(s, r, key.1, foot, ts);
    assert (r.id, key.1) == key;
    if a.inside {
      assert CurrentDwell(a, ts) == Elapsed(a.enteredAt.value, ts);
    }
    if t.log != s.log {
      OneMoreEvent(s.log, t.log[|s.log|], key);
    }
  }

  lemma SeenBetween(s: StreamState, m: StreamState, m': StreamState, t: StreamState, r: Rule, foot: Point, key: Key,
                    ts: int)
    requires Unobserved(s, m, key) && Seen(m, m', r, foot, key, ts) && Unobserved(m', t, key)
    ensures Seen(s, t, r, foot, key, ts)
  {
    SameEvents(s, m, key);
    SameEvents(m', t, key);
  }

  // All rules

  ghost predicate DistinctAreas(rules: seq<Rule>) {
    forall i, j :: 0 <= i < j < |rules| && rules[i].isArea && rules[j].isArea ==> rules[i].id != rules[j].id
  }

  lemma {:induction false} OtherRules(s: StreamState, rules: seq<Rule>, foot: Point, ts: int, key: Key)
    requires forall r :: r in rules && r.isArea ==> r.id != key.0
    ensures Unobserved(s, ObserveAll(s, rules, key.1, foot, ts), key)
    decreases |rules|
  {
    if rules != [] {
      assert rules[0] in rules;
      var s1 := ObserveRule(s, rules[0], key.1, foot, ts);
      assert Unobserved(s, s1, key);
      OtherRules(s1, rules[1..], foot, ts, key);
      UnobservedChain(s, s1, ObserveAll(s, rules, key.1, foot, ts), key);
    }
  }

  lemma UnobservedChain(s: StreamState, t: StreamState, u: StreamState, key: Key)
    requires Unobserved(s, t, key) && Unobserved(t, u, key)
    ensures Unobserved(s, u, key)
  {
    forall n | |s.log| <= n < |u.log| ensures u.log[n].key != key {
      if n < |t.log| {
        assert u.log[n] == t.log[n];
      }
    }
  }

  lemma {:induction false} OneRuleObserves(s: StreamState, rules: seq<Rule>, r: Rule, foot: Point, ts: int, key: Key)
    requires DistinctAreas(rules) && r in rules && r.isArea && r.id == key.0 && Timed(StateOf(s.areas, key))
    ensures Seen(s, ObserveAll(s, rules, key.1, foot, ts), r, foot, key, ts)
    decreases |rules|
  {
    var first, rest := rules[0], rules[1..];
    var s1 := ObserveRule(s, first, key.1, foot, ts);
    var t := ObserveAll(s1, rest, key.1, foot, ts);
    if first == r {
      forall x | x in rest && x.isArea ensures x.id != key.0 {
        var i :| 0 <= i < |rest| && rest[i] == x;
        assert rules[i + 1] == x;
      }
      ObserveLogs(s, r, foot, ts, key);
      OtherRules(s1, rest, foot, ts, key);
      SeenBetween(s, s, s1, t, r, foot, key, ts);
    } else {
      var i :| 0 <= i < |rules| && rules[i] == r;
      assert rest[i - 1] == r && (first.isArea ==> first.id != key.0);
      assert Unobserved(s, s1, key);
      OneRuleObserves(s1, rest, r, foot, ts, key);
      SeenBetween(s, s1, t, t, r, foot, key, ts);
    }
  }

  // All tracks

  /** The id under which a track is processed. */
  predicate Named(t: TrackInput, id: int) {
    t.id == Some(id) || (t.id == None && id == 0)
  }

  ghost predicate DistinctTracks(tracks: seq<TrackInput>) {
    forall i, j, id :: 0 <= i < j < |tracks| && Named(tracks[i], id) ==> !Named(tracks[j], id)
  }

  lemma NamedById(t: TrackInput, id: int)
    ensures Named(t, id) <==> IdOf(t) == id
  {
  }

  lemma OtherTracks(s: StreamState, rules: seq<Rule>, tracks: seq<TrackInput>, ts: int, key: Key)
    requires forall t :: t in tracks ==> !Named(t, key.1)
    ensures Unobserved(s, VisitTracks(s, rules, tracks, ts), key)
  {
    forall t | t in tracks ensures IdOf(t) != key.1 {
      NamedById(t, key.1);
    }
    VisitTracksUnobserved(s, rules, tracks, ts, key);
  }

  lemma RestDiffers(tracks: seq<TrackInput>, id: int)
    requires tracks != [] && DistinctTracks(tracks)
    ensures DistinctTracks(tracks[1..])
    ensures Named(tracks[0], id) ==> forall t :: t in tracks[1..] ==> !Named(t, id)
  {
    forall t | t in tracks[1..] && Named(tracks[0], id) ensures !Named(t, id) {
      var i :| 0 <= i < |tracks[1..]| && tracks[1..][i] == t;
      assert tracks[i + 1] == t;
    }
  }

  lemma VisitIsObserve(s: StreamState, rules: seq<Rule>, t: TrackInput, ts: int, key: Key)
    requires Named(t, key.1)
    ensures Unobserved(ObserveAll(s, rules, key.1, t.foot, ts), VisitTrack(s, rules, t, ts), key)
  {
    NamedById(t, key.1);
  }

  lemma VisitOther(s: StreamState, rules: seq<Rule>, t: TrackInput, ts: int, key: Key)
    requires !Named(t, key.1)
    ensures Unobserved(s, VisitTrack(s, rules, t, ts), key)
  {
    NamedById(t, key.1);
    ObserveAllUntouched(s, rules, IdOf(t), t.foot, ts, key);
  }

  lemma {:induction false} OneTrackObserved(s: StreamState, rules: seq<Rule>, tracks: seq<TrackInput>, r: Rule,
                                            t: TrackInput, ts: int, key: Key)
    requires DistinctAreas(rules) && r in rules && r.isArea && r.id == key.0 && Timed(StateOf(s.areas, key))
    requires DistinctTracks(tracks) && t in tracks && Named(t, key.1)
    ensures Seen(s, VisitTracks(s, rules, tracks, ts), r, t.foot, key, ts)
    decreases |tracks|
  {
    var first, rest := tracks[0], tracks[1..];
    RestDiffers(tracks, key.1);
    var s1 := VisitTrack(s, rules, first, ts);
    var u := VisitTracks(s1, rules, rest, ts);
    if first == t {
      var m := ObserveAll(s, rules, key.1, t.foot, ts);
      OneRuleObserves(s, rules, r, t.foot, ts, key);
      VisitIsObserve(s, rules, t, ts, key);
      OtherTracks(s1, rules, rest, ts, key);
      UnobservedChain(m, s1, u, key);
      SeenBetween(s, s, m, u, r, t.foot, key, ts);
    } else {
      var i :| 0 <= i < |tracks| && tracks[i] == t;
      assert rest[i - 1] == t;
      VisitOther(s, rules, first, ts, key);
      OneTrackObserved(s1, rules, rest, r, t, ts, key);
      SeenBetween(s, s1, u, u, r, t.foot, key, ts);
    }
  }

  // A frame

  ghost predicate Distinct(f: AnalyticsFrame) {
    DistinctAreas(f.rules) && DistinctTracks(f.tracks)
  }

  /** The frame shows the track, and the rule is an area of it. */
  ghost predicate Shows(f: AnalyticsFrame, r: Rule, t: TrackInput, key: Key) {
    r in f.rules && r.isArea && r.id == key.0 && t in f.tracks && Named(t, key.1)
  }

  /** A track that its frame names is not finalized by it; an unnamed one is if id 0 was named in the frame before. */
  ghost predicate Finalized(s: StreamState, t: TrackInput) {
    t.id == None && 0 in s.active
  }

  /** After the exits of missing tracks, which do not concern a track that the frame names. */
  lemma AfterFinalizing(s: StreamState, f: AnalyticsFrame, r: Rule, t: TrackInput, key: Key)
    requires Distinct(f) && Shows(f, r, t, key) && !Finalized(s, t)
    ensures Unobserved(s, FinalizeAll(s, f.rules, SortedKeys(s.active - CurrentIds(f.tracks)), f.ts), key)
  {
    var gone := SortedKeys(s.active - CurrentIds(f.tracks));
    assert t.id.Some? ==> key.1 in CurrentIds(f.tracks);
    assert key.1 !in gone;
    FinalizeUntouched(s, f.rules, gone, f.ts, key);
  }

  /** In any state, a frame does this to the state and the log of every track that it shows, in every area. */
  lemma VisibleTrackSeen(s: StreamState, f: AnalyticsFrame, r: Rule, t: TrackInput, key: Key)
    requires Distinct(f) && Shows(f, r, t, key) && !Finalized(s, t) && Timed(StateOf(s.areas, key))
    ensures Seen(s, ProcessFrame(s, f), r, t.foot, key, f.ts)
  {
    var m := FinalizeAll(s, f.rules, SortedKeys(s.active - CurrentIds(f.tracks)), f.ts);
    AfterFinalizing(s, f, r, t, key);
    OneTrackObserved(m, f.rules, f.tracks, r, t, f.ts, key);
    var u := VisitTracks(m, f.rules, f.tracks, f.ts);
    assert Unobserved(u, ProcessFrame(s, f), key);
    SeenBetween(s, m, u, ProcessFrame(s, f), r, t.foot, key, f.ts);
  }

  /**
   Over any history, for every track that a frame shows and every area of that frame: an enter is logged exactly when the
   log had the track outside and it is inside now, an exit exactly when it had it inside and it is outside now, a dwell
   event exactly when it stays inside, none was logged since the enter, and the time since then has reached the threshold.
   Dwell times are the seconds since the enter.
   */
  lemma VisibleTrackIsLogged(frames: seq<AnalyticsFrame>, f: AnalyticsFrame, r: Rule, t: TrackInput, key: Key)
    requires Distinct(f) && Shows(f, r, t, key) && !Finalized(Process(frames), t)
    ensures var past, log := EventsOf(Process(frames).log, key), EventsOf(Process(frames + [f]).log, key);
            && Logs(past, log, SinceEnter(past), ExitDwells(Process(frames).log, key), r, t.foot, key, f.ts)
            && (SinceEnter(log).Some? <==> r.contains(t.foot))
  {
    var s := Process(frames);
    assert (frames + [f])[..|frames|] == frames && (frames + [f])[|frames|] == f;
    SinceTold(frames, key);
    SinceTold(frames + [f], key);
    TotalIsSumOfExits(frames, key);
    VisibleTrackSeen(s, f, r, t, key);
  }

  lemma SinceTold(frames: seq<AnalyticsFrame>, key: Key)
    ensures var s := Process(frames);
            Timed(StateOf(s.areas, key)) && SinceEnter(EventsOf(s.log, key)) == SinceOf(StateOf(s.areas, key))
  {
    LogIsReplayable(frames);
    assert Replay(Process(frames).log, key) == Some(StateOf(Process(frames).areas, key));
    ReplayTellsSince(Process(frames).log, key);
  }

  // Tracks that are gone

  ghost predicate InsideAt(s: StreamState, key: Key) {
    StateOf(s.areas, key).inside && Timed(StateOf(s.areas, key)) && key.1 in s.feet
  }

  /** The track has left the area: one exit, at its last position, with the seconds since the enter. */
  ghost predicate LeftOnce(s: StreamState, t: StreamState, key: Key, ts: int)
    requires InsideAt(s, key)
  {
    var a := s.areas[key];
    var dwell := Elapsed(a.enteredAt.value, ts);
    && EventsOf(t.log, key)
    == EventsOf(s.log, key) + [Event(key, Exit(dwell, a.totalDwell + dwell), ts, s.feet[key.1])]
    && StateOf(t.areas, key) == AreaState(false, None, a.totalDwell + dwell, false)
  }

  lemma {:induction false} OutsideStays(s: StreamState, rules: seq<Rule>, id: int, ts: int, key: Key)
    requires !StateOf(s.areas, key).inside
    ensures Untouched(s, LeaveAll(s, rules, id, ts), key)
    decreases |rules|
  {
    if rules != [] {
      var s1 := LeaveRule(s, rules[0], id, ts);
      assert Untouched(s, s1, key);
      OutsideStays(s1, rules[1..], id, ts, key);
      UntouchedChain(s, s1, LeaveAll(s, rules, id, ts), key);
    }
  }

  lemma {:induction false} OutsideStaysForAll(s: StreamState, rules: seq<Rule>, gone: seq<int>, ts: int, key: Key)
    requires !StateOf(s.areas, key).inside
    ensures Untouched(s, FinalizeAll(s, rules, gone, ts), key)
    decreases |gone|
  {
    if gone != [] {
      var s1 := LeaveAll(s, rules, gone[0], ts);
      OutsideStays(s, rules, gone[0], ts, key);
      OutsideStaysForAll(s1, rules, gone[1..], ts, key);
      UntouchedChain(s, s1, FinalizeAll(s, rules, gone, ts), key);
    }
  }

  lemma LeftThenStays(s: StreamState, m: StreamState, t: StreamState, key: Key, ts: int)
    requires InsideAt(s, key) && LeftOnce(s, m, key, ts) && Unobserved(m, t, key)
    ensures LeftOnce(s, t, key, ts)
  {
    SameEvents(m, t, key);
  }

  lemma StaysThenLeaves(s: StreamState, m: StreamState, t: StreamState, key: Key, ts: int)
    requires InsideAt(s, key) && Untouched(s, m, key) && LeftOnce(m, t, key, ts)
    ensures LeftOnce(s, t, key, ts)
  {
    SameEvents(s, m, key);
  }

  lemma {:induction false} LeavesOnce(s: StreamState, rules: seq<Rule>, ts: int, key: Key)
    requires InsideAt(s, key) && HasArea(rules, key.0)
    ensures LeftOnce(s, LeaveAll(s, rules, key.1, ts), key, ts)
    decreases |rules|
  {
    var first, rest := rules[0], rules[1..];
    var s1 := LeaveRule(s, first, key.1, ts);
    if first.isArea && first.id == key.0 {
      assert key == (first.id, key.1);
      OneMoreEvent(s.log, s1.log[|s.log|], key);
      assert s1.log == s.log + [s1.log[|s.log|]];
      OutsideStays(s1, rest, key.1, ts, key);
      LeftThenStays(s, s1, LeaveAll(s1, rest, key.1, ts), key, ts);
    } else {
      var r :| r in rules && r.isArea && r.id == key.0;
      assert r in rest;
      assert Untouched(s, s1, key);
      LeavesOnce(s1, rest, ts, key);
      StaysThenLeaves(s, s1, LeaveAll(s1, rest, key.1, ts), key, ts);
    }
  }

  lemma {:induction false} FinalizedOnce(s: StreamState, rules: seq<Rule>, gone: seq<int>, ts: int, key: Key)
    requires InsideAt(s, key) && HasArea(rules, key.0) && key.1 in gone
    ensures LeftOnce(s, FinalizeAll(s, rules, gone, ts), key, ts)
    decreases |gone|
  {
    var s1 := LeaveAll(s, rules, gone[0], ts);
    if gone[0] == key.1 {
      LeavesOnce(s, rules, ts, key);
      OutsideStaysForAll(s1, rules, gone[1..], ts, key);
      LeftThenStays(s, s1, FinalizeAll(s1, rules, gone[1..], ts), key, ts);
    } else {
      assert key.1 in gone[1..];
      LeaveAllUntouched(s, rules, gone[0], ts, key);
      FinalizedOnce(s1, rules, gone[1..], ts, key);
      StaysThenLeaves(s, s1, FinalizeAll(s1, rules, gone[1..], ts), key, ts);
    }
  }

  /** The last frame names the track. */
  ghost predicate ShownLast(frames: seq<AnalyticsFrame>, t: TrackInput, id: int) {
    frames != [] && t in frames[|frames| - 1].tracks && t.id == Some(id)
  }

  lemma ActiveMeansShown(frames: seq<AnalyticsFrame>, id: int)
    ensures id in Process(frames).active <==> exists t :: ShownLast(frames, t, id)
  {
    if frames != [] {
      var tracks := frames[|frames| - 1].tracks;
      assert id in CurrentIds(tracks) <==> exists t :: t in tracks && t.id == Some(id);
      if t :| t in tracks && t.id == Some(id) {
        assert ShownLast(frames, t, id);
      }
    }
  }

  lemma {:induction false} VisitedHasFoot(s: StreamState, rules: seq<Rule>, tracks: seq<TrackInput>, ts: int, id: int)
    ensures var t := VisitTracks(s, rules, tracks, ts);
            id in s.feet || (exists t :: t in tracks && Named(t, id)) ==> id in t.feet
    ensures (forall t :: t in tracks ==> !Named(t, id)) && id in s.feet ==>
              VisitTracks(s, rules, tracks, ts).feet[id] == s.feet[id]
    decreases |tracks|
  {
    if tracks != [] {
      NamedById(tracks[0], id);
      ObserveKeepsFeet(s, rules, IdOf(tracks[0]), tracks[0].foot, ts);
      assert tracks[0] in tracks;
      VisitedHasFoot(VisitTrack(s, rules, tracks[0], ts), rules, tracks[1..], ts, id);
    }
  }

  lemma {:induction false} ObserveKeepsFeet(s: StreamState, rules: seq<Rule>, id: int, foot: Point, ts: int)
    ensures ObserveAll(s, rules, id, foot, ts).feet == s.feet
    decreases |rules|
  {
    if rules != [] {
      ObserveKeepsFeet(ObserveRule(s, rules[0], id, foot, ts), rules[1..], id, foot, ts);
    }
  }

  lemma {:induction false} FootOfVisited(s: StreamState, rules: seq<Rule>, tracks: seq<TrackInput>, t: TrackInput,
                                         ts: int, id: int)
    requires DistinctTracks(tracks) && t in tracks && Named(t, id)
    ensures var u := VisitTracks(s, rules, tracks, ts); id in u.feet && u.feet[id] == t.foot
    decreases |tracks|
  {
    var first, rest := tracks[0], tracks[1..];
    RestDiffers(tracks, id);
    NamedById(first, id);
    var s1 := VisitTrack(s, rules, first, ts);
    if first == t {
      VisitedHasFoot(s1, rules, rest, ts, id);
    } else {
      assert t in rest;
      FootOfVisited(s1, rules, rest, t, ts, id);
    }
  }

  lemma LastFoot(frames: seq<AnalyticsFrame>, t: TrackInput, id: int)
    requires frames != [] && DistinctTracks(frames[|frames| - 1].tracks)
    requires t in frames[|frames| - 1].tracks && t.id == Some(id)
    ensures var s := Process(frames); id in s.feet && s.feet[id] == t.foot
  {
    var s, f := Process(frames[..|frames| - 1]), frames[|frames| - 1];
    var gone := FinalizeAll(s, f.rules, SortedKeys(s.active - CurrentIds(f.tracks)), f.ts);
    FootOfVisited(gone, f.rules, f.tracks, t, f.ts, id);
  }

  ghost predicate LogsExit(past: seq<Event>, log: seq<Event>, since: int, total: real, foot: Point, key: Key, ts: int) {
    log == past + [Event(key, Exit(Elapsed(since, ts), total + Elapsed(since, ts)), ts, foot)]
  }

  lemma LeftIsLogged(s: StreamState, t: StreamState, key: Key, ts: int, since: int, total: real, foot: Point)
    requires InsideAt(s, key) && LeftOnce(s, t, key, ts)
    requires s.areas[key].enteredAt.value == since && s.areas[key].totalDwell == total && s.feet[key.1] == foot
    ensures LogsExit(EventsOf(s.log, key), EventsOf(t.log, key), since, total, foot, key, ts)
  {
  }

  lemma MissingIsLogged(frames: seq<AnalyticsFrame>, f: AnalyticsFrame, key: Key, t: TrackInput)
    requires forall t :: t in f.tracks ==> !Named(t, key.1)
    requires ShownLast(frames, t, key.1) && DistinctTracks(frames[|frames| - 1].tracks)
    requires HasArea(f.rules, key.0) && SinceEnter(EventsOf(Process(frames).log, key)).Some?
    ensures var past := EventsOf(Process(frames).log, key);
            LogsExit(past, EventsOf(ProcessFrame(Process(frames), f).log, key), SinceEnter(past).value.0,
                     ExitDwells(Process(frames).log, key), t.foot, key, f.ts)
  {
    SinceTold(frames, key);
    TotalIsSumOfExits(frames, key);
    ActiveMeansShown(frames, key.1);
    LastFoot(frames, t, key.1);
    MissingLeaves(Process(frames), f, key);
    LeftIsLogged(Process(frames), ProcessFrame(Process(frames), f), key, f.ts,
                 SinceEnter(EventsOf(Process(frames).log, key)).value.0, ExitDwells(Process(frames).log, key), t.foot);
  }

  lemma MissingIsNotLogged(frames: seq<AnalyticsFrame>, f: AnalyticsFrame, key: Key)
    requires forall t :: t in f.tracks ==> !Named(t, key.1)
    requires || SinceEnter(EventsOf(Process(frames).log, key)) == None || !HasArea(f.rules, key.0)
             || forall t :: !ShownLast(frames, t, key.1)
    ensures EventsOf(ProcessFrame(Process(frames), f).log, key) == EventsOf(Process(frames).log, key)
  {
    SinceTold(frames, key);
    ActiveMeansShown(frames, key.1);
    MissingStays(Process(frames), f, key);
    SameEvents(Process(frames), ProcessFrame(Process(frames), f), key);
  }

  lemma ProcessOneMore(frames: seq<AnalyticsFrame>, f: AnalyticsFrame)
    ensures Process(frames + [f]) == ProcessFrame(Process(frames), f)
  {
    assert (frames + [f])[..|frames|] == frames;
  }

  /**
   Over any history, for every track that a frame does not show: if the frame before named it, the log has it inside and
   the area is still there, its exit is logged, at its last position. Otherwise nothing is logged for it.
   */
  lemma MissingTrackIsLogged(frames: seq<AnalyticsFrame>, f: AnalyticsFrame, key: Key)
    requires forall t :: t in f.tracks ==> !Named(t, key.1)
    requires frames != [] ==> DistinctTracks(frames[|frames| - 1].tracks)
    ensures var past, log := EventsOf(Process(frames).log, key), EventsOf(Process(frames + [f]).log, key);
            if SinceEnter(past).Some? && HasArea(f.rules, key.0) && exists t :: ShownLast(frames, t, key.1) then
              exists t :: ShownLast(frames, t, key.1)
                          && LogsExit(past, log, SinceEnter(past).value.0, ExitDwells(Process(frames).log, key), t.foot,
                                      key, f.ts)
            else log == past
  {
    ProcessOneMore(frames, f);
    if SinceEnter(EventsOf(Process(frames).log, key)).Some? && HasArea(f.rules, key.0)
       && exists t :: ShownLast(frames, t, key.1) {
      var t :| ShownLast(frames, t, key.1);
      MissingIsLogged(frames, f, key, t);
    } else {
      MissingIsNotLogged(frames, f, key);
    }
  }

  lemma MissingLeaves(s: StreamState, f: AnalyticsFrame, key: Key)
    requires InsideAt(s, key) && HasArea(f.rules, key.0) && key.1 in s.active
    requires forall t :: t in f.tracks ==> !Named(t, key.1)
    ensures LeftOnce(s, ProcessFrame(s, f), key, f.ts)
  {
    var gone := SortedKeys(s.active - CurrentIds(f.tracks));
    var m := FinalizeAll(s, f.rules, gone, f.ts);
    assert key.1 !in CurrentIds(f.tracks);
    FinalizedOnce(s, f.rules, gone, f.ts, key);
    OtherTracks(m, f.rules, f.tracks, f.ts, key);
    LeftThenStays(s, m, ProcessFrame(s, f), key, f.ts);
  }

  lemma MissingStays(s: StreamState, f: AnalyticsFrame, key: Key)
    requires !StateOf(s.areas, key).inside || !HasArea(f.rules, key.0) || key.1 !in s.active
    requires forall t :: t in f.tracks ==> !Named(t, key.1)
    ensures Unobserved(s, ProcessFrame(s, f), key)
  {
    var gone := SortedKeys(s.active - CurrentIds(f.tracks));
    var m := FinalizeAll(s, f.rules, gone, f.ts);
    if StateOf(s.areas, key).inside {
      FinalizeUntouched(s, f.rules, gone, f.ts, key);
    } else {
      OutsideStaysForAll(s, f.rules, gone, f.ts, key);
    }
    OtherTracks(m, f.rules, f.tracks, f.ts, key);
    UnobservedChain(s, m, ProcessFrame(s, f), key);
  }

  // Tracks without an id

  ghost predicate LeavesFirst(s: StreamState, m: StreamState, key: Key, ts: int) {
    if InsideAt(s, key) then LeftOnce(s, m, key, ts) else Unobserved(s, m, key)
  }

  /**
   The remaining case: a track without an id, when the frame before named a track 0. It is finalized as missing, which
   logs its exit if it was inside, and then seen like any other.
   */
  lemma UnnamedTrackLeavesFirst(s: StreamState, f: AnalyticsFrame, r: Rule, t: TrackInput, key: Key)
    requires Distinct(f) && Shows(f, r, t, key) && Finalized(s, t) && Timed(StateOf(s.areas, key))
    ensures exists m :: LeavesFirst(s, m, key, f.ts) && Seen(m, ProcessFrame(s, f), r, t.foot, key, f.ts)
  {
    var gone := SortedKeys(s.active - CurrentIds(f.tracks));
    var m := FinalizeAll(s, f.rules, gone, f.ts);
    NotNamedZero(f.tracks, t);
    assert 0 in gone;
    if InsideAt(s, key) {
      FinalizedOnce(s, f.rules, gone, f.ts, key);
    } else if StateOf(s.areas, key).inside {
      FinalizeUntouched(s, f.rules, gone, f.ts, key);
    } else {
      OutsideStaysForAll(s, f.rules, gone, f.ts, key);
    }
    OneTrackObserved(m, f.rules, f.tracks, r, t, f.ts, key);
    var u := VisitTracks(m, f.rules, f.tracks, f.ts);
    assert Unobserved(u, ProcessFrame(s, f), key);
    SeenBetween(m, m, u, ProcessFrame(s, f), r, t.foot, key, f.ts);
  }

  lemma NotNamedZero(tracks: seq<TrackInput>, t: TrackInput)
    requires DistinctTracks(tracks) && t in tracks && t.id == None
    ensures 0 !in CurrentIds(tracks)
  {
    forall x | x in tracks ensures x.id != Some(0) {
      var i :| 0 <= i < |tracks| && tracks[i] == t;
      var j :| 0 <= j < |tracks| && tracks[j] == x;
      assert Named(tracks[i], 0) && (Named(tracks[j], 0) || x.id != Some(0));
    }
  }
}
