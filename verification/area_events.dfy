/**
 Entering, dwelling in and leaving areas (controller/veilsight_controller/analytics_engine.py). Times are milliseconds,
 dwell times seconds.
 */
module AreaEventsSpec {
  import opened Types
  import opened Segments
  import opened OrderedKeys

  /** An enabled rule of the stream; `contains` is the point-in-polygon test of its geometry. */
  datatype Rule = Rule(id: string, isArea: bool, contains: Point -> bool, threshold: Option<real>)

  datatype AreaState = AreaState(inside: bool, enteredAt: Option<int>, totalDwell: real, thresholdEmitted: bool)

  const NEW_AREA_STATE := AreaState(false, None, 0.0, false)

  type Key = (string, int)

  datatype Kind = Enter | Exit(dwell: real, total: real) | DwellThreshold(dwell: real)

  datatype Event = Event(key: Key, kind: Kind, ts: int, position: Point)

  /** `id` is missing when the frame gives none; such a track is processed under id 0. */
  datatype TrackInput = TrackInput(id: Option<int>, foot: Point)

  datatype AnalyticsFrame = AnalyticsFrame(rules: seq<Rule>, tracks: seq<TrackInput>, ts: int)

  datatype StreamState = StreamState(
    areas: map<Key, AreaState>,
    feet: map<int, Point>,
    active: set<int>,
    log: seq<Event>)

  function StateOf(areas: map<Key, AreaState>, key: Key): AreaState {
    if key in areas then areas[key] else NEW_AREA_STATE
  }

  /** `_area_current_dwell`. */
  function CurrentDwell(a: AreaState, ts: int): real {
    if a.enteredAt == None then 0.0
    else if ts < a.enteredAt.value then 0.0
    else (ts - a.enteredAt.value) as real / 1000.0
  }

  function Leave(a: AreaState, ts: int): (AreaState, Kind) {
    var dwell := CurrentDwell(a, ts);
    (AreaState(false, None, a.totalDwell + dwell, false), Exit(dwell, a.totalDwell + dwell))
  }

  /** What one observation of a track does to one area. */
  function Observe(a: AreaState, rule: Rule, foot: Point, ts: int): (AreaState, Option<Kind>) {
    var inside := rule.contains(foot);
    if inside && !a.inside then (AreaState(true, Some(ts), a.totalDwell, false), Some(Enter))
    else if !inside && a.inside then (Leave(a, ts).0, Some(Leave(a, ts).1))
    else if inside && rule.threshold.Some? && !a.thresholdEmitted && CurrentDwell(a, ts) >= rule.threshold.value then
      (a.(thresholdEmitted := true), Some(DwellThreshold(CurrentDwell(a, ts))))
    else (a, None)
  }

  function ObserveRule(s: StreamState, rule: Rule, id: int, foot: Point, ts: int): StreamState {
    if !rule.isArea then s
    else
      var key := (rule.id, id);
      var r := Observe(StateOf(s.areas, key), rule, foot, ts);
      s.(areas := s.areas[key := r.0], log := if r.1.Some? then s.log + [Event(key, r.1.value, ts, foot)] else s.log)
  }

  /** `_area_events`. */
  function ObserveAll(s: StreamState, rules: seq<Rule>, id: int, foot: Point, ts: int): StreamState
    decreases |rules|
  {
    if rules == [] then s else ObserveAll(ObserveRule(s, rules[0], id, foot, ts), rules[1..], id, foot, ts)
  }

  function LeaveRule(s: StreamState, rule: Rule, id: int, ts: int): StreamState {
    var key := (rule.id, id);
    if !rule.isArea || key !in s.areas || !s.areas[key].inside || id !in s.feet then s
    else
      var r := Leave(s.areas[key], ts);
      s.(areas := s.areas[key := r.0], log := s.log + [Event(key, r.1, ts, s.feet[id])])
  }

  /** The area part of `_finalize_missing_track`. */
  function LeaveAll(s: StreamState, rules: seq<Rule>, id: int, ts: int): StreamState
    decreases |rules|
  {
    if rules == [] then s else LeaveAll(LeaveRule(s, rules[0], id, ts), rules[1..], id, ts)
  }

  function FinalizeAll(s: StreamState, rules: seq<Rule>, ids: seq<int>, ts: int): StreamState
    decreases |ids|
  {
    if ids == [] then s else FinalizeAll(LeaveAll(s, rules, ids[0], ts), rules, ids[1..], ts)
  }

  function IdOf(t: TrackInput): int {
    if t.id.Some? then t.id.value else 0
  }

  function VisitTrack(s: StreamState, rules: seq<Rule>, t: TrackInput, ts: int): StreamState {
    var s1 := ObserveAll(s, rules, IdOf(t), t.foot, ts);
    s1.(feet := s1.feet[IdOf(t) := t.foot])
  }

  function VisitTracks(s: StreamState, rules: seq<Rule>, tracks: seq<TrackInput>, ts: int): StreamState
    decreases |tracks|
  {
    if tracks == [] then s else VisitTracks(VisitTrack(s, rules, tracks[0], ts), rules, tracks[1..], ts)
  }

  function CurrentIds(tracks: seq<TrackInput>): set<int> {
    set t | t in tracks && t.id.Some? :: t.id.value
  }

  function ProcessFrame(s: StreamState, f: AnalyticsFrame): StreamState {
    var current := CurrentIds(f.tracks);
    var s1 := FinalizeAll(s, f.rules, SortedKeys(s.active - current), f.ts);
    VisitTracks(s1, f.rules, f.tracks, f.ts).(active := current)
  }

  function Process(frames: seq<AnalyticsFrame>): StreamState {
    if frames == [] then StreamState(map[], map[], {}, [])
    else ProcessFrame(Process(frames[..|frames| - 1]), frames[|frames| - 1])
  }
}

module AreaEvents {
  import opened Types
  import opened Segments
  import opened OrderedKeys
  import opened AreaEventsSpec

  class StreamAnalytics {
    var areas: map<Key, AreaState>
    var feet: map<int, Point>
    var active: set<int>
    var log: seq<Event>

    ghost function Abs(): StreamState
      reads this
    {
      StreamState(areas, feet, active, log)
    }

    constructor ()
      ensures Abs() == Process([])
    {
      areas, feet, active, log := map[], map[], {}, [];
    }

    method AreaEvents(rules: seq<Rule>, id: int, foot: Point, ts: int)
      modifies this`areas, this`log
      ensures Abs() == ObserveAll(old(Abs()), rules, id, foot, ts)
    {
      ghost var goal := ObserveAll(Abs(), rules, id, foot, ts);
      for i := 0 to |rules|
        invariant ObserveAll(Abs(), rules[i..], id, foot, ts) == goal
      {
        assert rules[i..][1..] == rules[i + 1..];
        AreaEvent(rules[i], id, foot, ts);
      }
    }

    method AreaEvent(rule: Rule, id: int, foot: Point, ts: int)
      modifies this`areas, this`log
      ensures Abs() == ObserveRule(old(Abs()), rule, id, foot, ts)
    {
      if !rule.isArea { return; }
      var key := (rule.id, id);
      var a := if key in areas then areas[key] else NEW_AREA_STATE;
      var inside := rule.contains(foot);
      if inside && !a.inside {
        a := AreaState(true, Some(ts), a.totalDwell, false);
        log := log + [Event(key, Enter, ts, foot)];
      } else if !inside && a.inside {
        var dwell := CurrentDwell(a, ts);
        a := AreaState(false, None, a.totalDwell + dwell, false);
        log := log + [Event(key, Exit(dwell, a.totalDwell), ts, foot)];
      } else if inside && a.inside {
        if rule.threshold.Some? && !a.thresholdEmitted {
          var dwell := CurrentDwell(a, ts);
          if dwell >= rule.threshold.value {
            a := a.(thresholdEmitted := true);
            log := log + [Event(key, DwellThreshold(dwell), ts, foot)];
          }
        }
      }
      areas := areas[key := a];
    }

    method FinalizeMissingTrack(rules: seq<Rule>, id: int, ts: int)
      modifies this`areas, this`log
      ensures Abs() == LeaveAll(old(Abs()), rules, id, ts)
    {
      ghost var goal := LeaveAll(Abs(), rules, id, ts);
      for i := 0 to |rules|
        invariant LeaveAll(Abs(), rules[i..], id, ts) == goal
      {
        assert rules[i..][1..] == rules[i + 1..];
        LeaveArea(rules[i], id, ts);
      }
    }

    method LeaveArea(rule: Rule, id: int, ts: int)
      modifies this`areas, this`log
      ensures Abs() == LeaveRule(old(Abs()), rule, id, ts)
    {
      var key := (rule.id, id);
      if !rule.isArea || key !in areas || !areas[key].inside || id !in feet { return; }
      var a := areas[key];
      var dwell := CurrentDwell(a, ts);
      areas := areas[key := AreaState(false, None, a.totalDwell + dwell, false)];
      log := log + [Event(key, Exit(dwell, a.totalDwell + dwell), ts, feet[id])];
    }

    method ProcessFrame(f: AnalyticsFrame)
      modifies this
      ensures Abs() == AreaEventsSpec.ProcessFrame(old(Abs()), f)
    {
      var current := CurrentIds(f.tracks);
      var missing := SortedKeys(active - current);
      ghost var gone := FinalizeAll(Abs(), f.rules, missing, f.ts);
      for i := 0 to |missing|
        invariant FinalizeAll(Abs(), f.rules, missing[i..], f.ts) == gone
      {
        assert missing[i..][1..] == missing[i + 1..];
        FinalizeMissingTrack(f.rules, missing[i], f.ts);
      }
      ghost var goal := VisitTracks(Abs(), f.rules, f.tracks, f.ts);
      for i := 0 to |f.tracks|
        invariant VisitTracks(Abs(), f.rules, f.tracks[i..], f.ts) == goal
      {
        assert f.tracks[i..][1..] == f.tracks[i + 1..];
        var id := if f.tracks[i].id.Some? then f.tracks[i].id.value else 0;
        AreaEvents(f.rules, id, f.tracks[i].foot, f.ts);
        feet := feet[id := f.tracks[i].foot];
      }
      active := current;
    }
  }
}

module AreaEventsTheorems {
  import opened Types
  import opened Segments
  import opened OrderedKeys
  import opened AreaEventsSpec

  /**
   Reads the events of one track in one area as a reader of the log would: an enter only outside, then at most one dwell
   event, then an exit, each with the time since the enter. There is no result when the log breaks these rules.
   */
  ghost function Replay(log: seq<Event>, key: Key): Option<AreaState> {
    if log == [] then Some(NEW_AREA_STATE)
    else
      var before, e := Replay(log[..|log| - 1], key), log[|log| - 1];
      if before == None || e.key != key then before
      else
        var a := before.value;
        match e.kind
        case Enter => if a.inside then None else Some(AreaState(true, Some(e.ts), a.totalDwell, false))
        case DwellThreshold(dwell) =>
          if a.inside && !a.thresholdEmitted && dwell == CurrentDwell(a, e.ts) then Some(a.(thresholdEmitted := true))
          else None
        case Exit(dwell, total) =>
          if a.inside && dwell == CurrentDwell(a, e.ts) && total == a.totalDwell + dwell then
            Some(AreaState(false, None, total, false))
          else None
  }

  ghost function ExitDwells(log: seq<Event>, key: Key): real {
    if log == [] then 0.0
    else
      var e := log[|log| - 1];
      ExitDwells(log[..|log| - 1], key) + if e.key == key && e.kind.Exit? then e.kind.dwell else 0.0
  }

  ghost predicate LogExplains(s: StreamState) {
    forall key :: Replay(s.log, key) == Some(StateOf(s.areas, key))
  }

  lemma ObserveRuleLog(s: StreamState, rule: Rule, id: int, foot: Point, ts: int)
    requires LogExplains(s)
    ensures LogExplains(ObserveRule(s, rule, id, foot, ts))
  {
    var t := ObserveRule(s, rule, id, foot, ts);
    if t.log != s.log {
      var e := t.log[|s.log|];
      assert t.log == s.log + [e] && t.log[..|s.log|] == s.log;
      forall key ensures Replay(t.log, key) == Some(StateOf(t.areas, key)) {
        assert Replay(s.log, key) == Some(StateOf(s.areas, key));
      }
    }
  }

  lemma LeaveRuleLog(s: StreamState, rule: Rule, id: int, ts: int)
    requires LogExplains(s)
    ensures LogExplains(LeaveRule(s, rule, id, ts))
  {
    var t := LeaveRule(s, rule, id, ts);
    if t.log != s.log {
      var e := t.log[|s.log|];
      assert t.log == s.log + [e] && t.log[..|s.log|] == s.log;
      forall key ensures Replay(t.log, key) == Some(StateOf(t.areas, key)) {
        assert Replay(s.log, key) == Some(StateOf(s.areas, key));
      }
    }
  }

  lemma {:induction false} ObserveAllLog(s: StreamState, rules: seq<Rule>, id: int, foot: Point, ts: int)
    requires LogExplains(s)
    ensures LogExplains(ObserveAll(s, rules, id, foot, ts))
    decreases |rules|
  {
    if rules != [] {
      ObserveRuleLog(s, rules[0], id, foot, ts);
      ObserveAllLog(ObserveRule(s, rules[0], id, foot, ts), rules[1..], id, foot, ts);
    }
  }

  lemma {:induction false} LeaveAllLog(s: StreamState, rules: seq<Rule>, id: int, ts: int)
    requires LogExplains(s)
    ensures LogExplains(LeaveAll(s, rules, id, ts))
    decreases |rules|
  {
    if rules != [] {
      LeaveRuleLog(s, rules[0], id, ts);
      LeaveAllLog(LeaveRule(s, rules[0], id, ts), rules[1..], id, ts);
    }
  }

  lemma {:induction false} FinalizeAllLog(s: StreamState, rules: seq<Rule>, ids: seq<int>, ts: int)
    requires LogExplains(s)
    ensures LogExplains(FinalizeAll(s, rules, ids, ts))
    decreases |ids|
  {
    if ids != [] {
      LeaveAllLog(s, rules, ids[0], ts);
      FinalizeAllLog(LeaveAll(s, rules, ids[0], ts), rules, ids[1..], ts);
    }
  }

  lemma {:induction false} VisitTracksLog(s: StreamState, rules: seq<Rule>, tracks: seq<TrackInput>, ts: int)
    requires LogExplains(s)
    ensures LogExplains(VisitTracks(s, rules, tracks, ts))
    decreases |tracks|
  {
    if tracks != [] {
      ObserveAllLog(s, rules, IdOf(tracks[0]), tracks[0].foot, ts);
      VisitTracksLog(VisitTrack(s, rules, tracks[0], ts), rules, tracks[1..], ts);
    }
  }

  /**
   Whatever frames arrive and however the rules change, the state of every track in every area is what its log says: enter
   and exit alternate, at most one dwell event lies between them, and every exit accounts for the time since its enter.
   */
  lemma {:induction false} LogIsReplayable(frames: seq<AnalyticsFrame>)
    ensures LogExplains(Process(frames))
    decreases |frames|
  {
    if frames != [] {
      var s, f := Process(frames[..|frames| - 1]), frames[|frames| - 1];
      LogIsReplayable(frames[..|frames| - 1]);
      var gone := FinalizeAll(s, f.rules, SortedKeys(s.active - CurrentIds(f.tracks)), f.ts);
      FinalizeAllLog(s, f.rules, SortedKeys(s.active - CurrentIds(f.tracks)), f.ts);
      VisitTracksLog(gone, f.rules, f.tracks, f.ts);
    }
  }

  lemma {:induction false} ReplayTotals(log: seq<Event>, key: Key)
    ensures Replay(log, key).Some? ==> Replay(log, key).value.totalDwell == ExitDwells(log, key)
    decreases |log|
  {
    if log != [] {
      ReplayTotals(log[..|log| - 1], key);
    }
  }

  /** The total dwell time is the sum of the dwell times of the exits. */
  lemma TotalIsSumOfExits(frames: seq<AnalyticsFrame>, key: Key)
    ensures StateOf(Process(frames).areas, key).totalDwell == ExitDwells(Process(frames).log, key)
  {
    LogIsReplayable(frames);
    assert Replay(Process(frames).log, key) == Some(StateOf(Process(frames).areas, key));
    ReplayTotals(Process(frames).log, key);
  }

  // Inside means active

  /** Everything inside is a track of the last frame that has been seen with its position, in one of the rules. */
  ghost predicate InsideIsKnown(s: StreamState, rules: seq<Rule>, ids: set<int>) {
    forall key :: key in s.areas && s.areas[key].inside ==>
      key.1 in ids && key.1 in s.feet && exists r :: r in rules && r.isArea && r.id == key.0
  }

  ghost predicate Quiet(s: StreamState, t: StreamState, id: int) {
    && t.feet == s.feet && t.active == s.active
    && (forall key :: key in t.areas && t.areas[key].inside ==> key in s.areas && s.areas[key].inside)
  }

  /** After a track has been finalized it is inside none of the rules. */
  lemma {:induction false} LeavesAll(s: StreamState, rules: seq<Rule>, id: int, ts: int)
    requires id in s.feet
    ensures Quiet(s, LeaveAll(s, rules, id, ts), id)
    ensures forall r :: r in rules && r.isArea ==> !StateOf(LeaveAll(s, rules, id, ts).areas, (r.id, id)).inside
    decreases |rules|
  {
    if rules != [] {
      var s1 := LeaveRule(s, rules[0], id, ts);
      assert Quiet(s, s1, id);
      LeavesAll(s1, rules[1..], id, ts);
      var t := LeaveAll(s, rules, id, ts);
      forall r | r in rules && r.isArea ensures !StateOf(t.areas, (r.id, id)).inside {
        if r == rules[0] {
          assert !StateOf(s1.areas, (r.id, id)).inside;
        } else {
          assert r in rules[1..];
        }
      }
    }
  }

  lemma LeavesKnown(s: StreamState, rules: seq<Rule>, id: int, ts: int, ids: set<int>)
    requires InsideIsKnown(s, rules, ids) && id in s.feet
    ensures InsideIsKnown(LeaveAll(s, rules, id, ts), rules, ids - {id})
  {
    LeavesAll(s, rules, id, ts);
    var t := LeaveAll(s, rules, id, ts);
    forall key | key in t.areas && t.areas[key].inside
      ensures key.1 in ids - {id} && key.1 in t.feet && exists r :: r in rules && r.isArea && r.id == key.0
    {
      var r :| r in rules && r.isArea && r.id == key.0;
      assert key == (r.id, key.1);
    }
  }

  lemma {:induction false} FinalizeKnown(s: StreamState, rules: seq<Rule>, gone: seq<int>, ts: int, ids: set<int>)
    requires InsideIsKnown(s, rules, ids) && forall id :: id in gone ==> id in s.feet
    ensures var t := FinalizeAll(s, rules, gone, ts);
            InsideIsKnown(t, rules, ids - (set id | id in gone)) && t.feet == s.feet
    decreases |gone|
  {
    if gone != [] {
      assert gone[0] in gone;
      LeavesKnown(s, rules, gone[0], ts, ids);
      LeavesAll(s, rules, gone[0], ts);
      FinalizeKnown(LeaveAll(s, rules, gone[0], ts), rules, gone[1..], ts, ids - {gone[0]});
      assert ids - {gone[0]} - (set id | id in gone[1..]) == ids - (set id | id in gone);
    } else {
      assert ids - (set id | id in gone) == ids;
    }
  }

  /** An observation makes a track at most inside of the rules observed. */
  lemma {:induction false} ObserveKnown(s: StreamState, seen: seq<Rule>, rules: seq<Rule>, id: int, foot: Point, ts: int,
                                        ids: set<int>)
    requires forall r :: r in seen ==> r in rules
    requires id in ids && forall key :: key in s.areas && s.areas[key].inside ==>
      key.1 in ids && (key.1 == id || key.1 in s.feet) && exists r :: r in rules && r.isArea && r.id == key.0
    ensures var t := ObserveAll(s, seen, id, foot, ts);
            && t.feet == s.feet && t.active == s.active
            && (forall key :: key in t.areas && t.areas[key].inside ==>
                  key.1 in ids && (key.1 == id || key.1 in t.feet) && exists r :: r in rules && r.isArea && r.id == key.0)
    decreases |seen|
  {
    if seen != [] {
      assert seen[0] in seen;
      ObserveKnown(ObserveRule(s, seen[0], id, foot, ts), seen[1..], rules, id, foot, ts, ids);
    }
  }

  lemma VisitKnown(s: StreamState, rules: seq<Rule>, t: TrackInput, ts: int, ids: set<int>)
    requires InsideIsKnown(s, rules, ids) && IdOf(t) in ids
    ensures InsideIsKnown(VisitTrack(s, rules, t, ts), rules, ids)
    ensures VisitTrack(s, rules, t, ts).feet.Keys == s.feet.Keys + {IdOf(t)}
  {
    ObserveKnown(s, rules, rules, IdOf(t), t.foot, ts, ids);
  }

  lemma {:induction false} VisitAllKnown(s: StreamState, rules: seq<Rule>, tracks: seq<TrackInput>, ts: int,
                                         ids: set<int>)
    requires InsideIsKnown(s, rules, ids) && forall t :: t in tracks ==> IdOf(t) in ids
    ensures var r := VisitTracks(s, rules, tracks, ts);
            InsideIsKnown(r, rules, ids) && s.feet.Keys <= r.feet.Keys && (forall t :: t in tracks ==> IdOf(t) in r.feet)
    decreases |tracks|
  {
    if tracks != [] {
      assert tracks[0] in tracks;
      VisitKnown(s, rules, tracks[0], ts, ids);
      VisitAllKnown(VisitTrack(s, rules, tracks[0], ts), rules, tracks[1..], ts, ids);
      forall t | t in tracks ensures IdOf(t) in VisitTracks(s, rules, tracks, ts).feet {
        assert t == tracks[0] || t in tracks[1..];
      }
    }
  }

  ghost predicate Explicit(f: AnalyticsFrame) {
    forall t :: t in f.tracks ==> t.id.Some?
  }

  /** The rules stay the same and every track has an id. */
  ghost predicate Steady(frames: seq<AnalyticsFrame>, rules: seq<Rule>) {
    forall n :: 0 <= n < |frames| ==> frames[n].rules == rules && Explicit(frames[n])
  }

  ghost predicate ActiveInv(s: StreamState, rules: seq<Rule>) {
    InsideIsKnown(s, rules, s.active) && s.active <= s.feet.Keys
  }

  lemma Missing(s: StreamState, f: AnalyticsFrame, rules: seq<Rule>)
    requires ActiveInv(s, rules) && f.rules == rules
    ensures var t := FinalizeAll(s, rules, SortedKeys(s.active - CurrentIds(f.tracks)), f.ts);
            InsideIsKnown(t, rules, CurrentIds(f.tracks)) && t.feet == s.feet
  {
    var gone := SortedKeys(s.active - CurrentIds(f.tracks));
    FinalizeKnown(s, rules, gone, f.ts, s.active);
    assert s.active - (set id | id in gone) <= CurrentIds(f.tracks);
  }

  lemma FrameActive(s: StreamState, f: AnalyticsFrame, rules: seq<Rule>)
    requires ActiveInv(s, rules) && f.rules == rules && Explicit(f)
    ensures ActiveInv(ProcessFrame(s, f), rules)
  {
    var current := CurrentIds(f.tracks);
    var t := FinalizeAll(s, rules, SortedKeys(s.active - current), f.ts);
    Missing(s, f, rules);
    forall x | x in f.tracks ensures IdOf(x) in current {
    }
    VisitAllKnown(t, rules, f.tracks, f.ts, current);
    var r := VisitTracks(t, rules, f.tracks, f.ts);
    forall id | id in current ensures id in r.feet {
      var x :| x in f.tracks && x.id.Some? && x.id.value == id;
      assert IdOf(x) == id;
    }
  }

  /** With steady rules and explicit ids every track that is inside an area is active. */
  lemma {:induction false} InsideMeansActive(frames: seq<AnalyticsFrame>, rules: seq<Rule>)
    requires Steady(frames, rules)
    ensures ActiveInv(Process(frames), rules)
    decreases |frames|
  {
    if frames != [] {
      InsideMeansActive(frames[..|frames| - 1], rules);
      FrameActive(Process(frames[..|frames| - 1]), frames[|frames| - 1], rules);
    }
  }

  /** So a track that is inside gets its exit with the first frame from which it is missing. */
  lemma ExitOnFirstMissingFrame(frames: seq<AnalyticsFrame>, f: AnalyticsFrame, rules: seq<Rule>, key: Key)
    requires Steady(frames + [f], rules) && StateOf(Process(frames).areas, key).inside
    requires forall t :: t in f.tracks ==> IdOf(t) != key.1
    ensures var s, t := Process(frames), Process(frames + [f]);
            && !StateOf(t.areas, key).inside
            && StateOf(t.areas, key).totalDwell == s.areas[key].totalDwell + CurrentDwell(s.areas[key], f.ts)
            && Exited(t.log, key, CurrentDwell(s.areas[key], f.ts), f.ts)
  {
    assert (frames + [f])[..|frames|] == frames && (frames + [f])[|frames|] == f;
    forall n | 0 <= n < |frames| ensures frames[n].rules == rules && Explicit(frames[n]) {
      assert (frames + [f])[n] == frames[n];
    }
    InsideMeansActive(frames, rules);
    FrameExits(Process(frames), f, rules, key);
  }

  ghost predicate Exited(log: seq<Event>, key: Key, dwell: real, ts: int) {
    exists e :: e in log && e.key == key && e.ts == ts && e.kind.Exit? && e.kind.dwell == dwell
  }

  lemma ExitedStays(log: seq<Event>, key: Key, dwell: real, ts: int, e: Event)
    requires Exited(log, key, dwell, ts)
    ensures Exited(log + [e], key, dwell, ts)
  {
    var x :| x in log && x.key == key && x.ts == ts && x.kind.Exit? && x.kind.dwell == dwell;
    assert x in log + [e];
  }

  /** The area state and the log of `key` after it has left. */
  ghost predicate Left(s: StreamState, key: Key, total: real, dwell: real, ts: int) {
    !StateOf(s.areas, key).inside && StateOf(s.areas, key).totalDwell == total && Exited(s.log, key, dwell, ts)
  }

  lemma LeaveRuleKeeps(s: StreamState, rule: Rule, id: int, ts: int, key: Key, total: real, dwell: real)
    requires Left(s, key, total, dwell, ts)
    ensures Left(LeaveRule(s, rule, id, ts), key, total, dwell, ts)
  {
    var t := LeaveRule(s, rule, id, ts);
    if t.log != s.log {
      ExitedStays(s.log, key, dwell, ts, t.log[|s.log|]);
    }
  }

  lemma {:induction false} LeaveAllKeeps(s: StreamState, rules: seq<Rule>, id: int, ts: int, key: Key, total: real,
                                         dwell: real)
    requires Left(s, key, total, dwell, ts)
    ensures Left(LeaveAll(s, rules, id, ts), key, total, dwell, ts)
    decreases |rules|
  {
    if rules != [] {
      LeaveRuleKeeps(s, rules[0], id, ts, key, total, dwell);
      LeaveAllKeeps(LeaveRule(s, rules[0], id, ts), rules[1..], id, ts, key, total, dwell);
    }
  }

  lemma {:induction false} LeaveAllExits(s: StreamState, rules: seq<Rule>, ts: int, key: Key)
    requires key in s.areas && s.areas[key].inside && key.1 in s.feet
    requires exists r :: r in rules && r.isArea && r.id == key.0
    ensures var dwell := CurrentDwell(s.areas[key], ts);
            Left(LeaveAll(s, rules, key.1, ts), key, s.areas[key].totalDwell + dwell, dwell, ts)
    decreases |rules|
  {
    var dwell := CurrentDwell(s.areas[key], ts);
    var s1 := LeaveRule(s, rules[0], key.1, ts);
    if rules[0].isArea && rules[0].id == key.0 {
      assert key == (rules[0].id, key.1);
      assert s1.log[|s.log|] in s1.log;
      LeaveAllKeeps(s1, rules[1..], key.1, ts, key, s.areas[key].totalDwell + dwell, dwell);
    } else {
      var r :| r in rules && r.isArea && r.id == key.0;
      assert r in rules[1..];
      LeaveAllExits(s1, rules[1..], ts, key);
    }
  }

  lemma {:induction false} LeaveAllOthers(s: StreamState, rules: seq<Rule>, id: int, ts: int, key: Key)
    requires id != key.1
    ensures var t := LeaveAll(s, rules, id, ts); (key in t.areas <==> key in s.areas) && t.feet == s.feet
    ensures key in s.areas ==> LeaveAll(s, rules, id, ts).areas[key] == s.areas[key]
    decreases |rules|
  {
    if rules != [] {
      LeaveAllOthers(LeaveRule(s, rules[0], id, ts), rules[1..], id, ts, key);
    }
  }

  lemma {:induction false} FinalizeKeeps(s: StreamState, rules: seq<Rule>, gone: seq<int>, ts: int, key: Key, total: real,
                                         dwell: real)
    requires Left(s, key, total, dwell, ts)
    ensures Left(FinalizeAll(s, rules, gone, ts), key, total, dwell, ts)
    decreases |gone|
  {
    if gone != [] {
      LeaveAllKeeps(s, rules, gone[0], ts, key, total, dwell);
      FinalizeKeeps(LeaveAll(s, rules, gone[0], ts), rules, gone[1..], ts, key, total, dwell);
    }
  }

  lemma {:induction false} FinalizeExits(s: StreamState, rules: seq<Rule>, gone: seq<int>, ts: int, key: Key)
    requires key in s.areas && s.areas[key].inside && key.1 in s.feet && key.1 in gone
    requires exists r :: r in rules && r.isArea && r.id == key.0
    ensures var dwell := CurrentDwell(s.areas[key], ts);
            Left(FinalizeAll(s, rules, gone, ts), key, s.areas[key].totalDwell + dwell, dwell, ts)
    decreases |gone|
  {
    var dwell := CurrentDwell(s.areas[key], ts);
    var s1 := LeaveAll(s, rules, gone[0], ts);
    if gone[0] == key.1 {
      LeaveAllExits(s, rules, ts, key);
      FinalizeKeeps(s1, rules, gone[1..], ts, key, s.areas[key].totalDwell + dwell, dwell);
    } else {
      assert key.1 in gone[1..];
      LeaveAllOthers(s, rules, gone[0], ts, key);
      FinalizeExits(s1, rules, gone[1..], ts, key);
    }
  }

  lemma ObserveRuleKeeps(s: StreamState, rule: Rule, id: int, foot: Point, ts: int, key: Key, total: real, dwell: real)
    requires Left(s, key, total, dwell, ts) && id != key.1
    ensures Left(ObserveRule(s, rule, id, foot, ts), key, total, dwell, ts)
  {
    var t := ObserveRule(s, rule, id, foot, ts);
    if t.log != s.log {
      ExitedStays(s.log, key, dwell, ts, t.log[|s.log|]);
    }
  }

  lemma {:induction false} ObserveAllKeeps(s: StreamState, rules: seq<Rule>, id: int, foot: Point, ts: int, key: Key,
                                           total: real, dwell: real)
    requires Left(s, key, total, dwell, ts) && id != key.1
    ensures Left(ObserveAll(s, rules, id, foot, ts), key, total, dwell, ts)
    decreases |rules|
  {
    if rules != [] {
      ObserveRuleKeeps(s, rules[0], id, foot, ts, key, total, dwell);
      ObserveAllKeeps(ObserveRule(s, rules[0], id, foot, ts), rules[1..], id, foot, ts, key, total, dwell);
    }
  }

  lemma {:induction false} VisitTracksKeeps(s: StreamState, rules: seq<Rule>, tracks: seq<TrackInput>, ts: int, key: Key,
                                            total: real, dwell: real)
    requires Left(s, key, total, dwell, ts) && forall t :: t in tracks ==> IdOf(t) != key.1
    ensures Left(VisitTracks(s, rules, tracks, ts), key, total, dwell, ts)
    decreases |tracks|
  {
    if tracks != [] {
      assert tracks[0] in tracks;
      ObserveAllKeeps(s, rules, IdOf(tracks[0]), tracks[0].foot, ts, key, total, dwell);
      VisitTracksKeeps(VisitTrack(s, rules, tracks[0], ts), rules, tracks[1..], ts, key, total, dwell);
    }
  }

  lemma FrameExits(s: StreamState, f: AnalyticsFrame, rules: seq<Rule>, key: Key)
    requires ActiveInv(s, rules) && f.rules == rules && key in s.areas && s.areas[key].inside
    requires forall t :: t in f.tracks ==> IdOf(t) != key.1
    ensures var dwell := CurrentDwell(s.areas[key], f.ts);
            Left(ProcessFrame(s, f), key, s.areas[key].totalDwell + dwell, dwell, f.ts)
  {
    var dwell := CurrentDwell(s.areas[key], f.ts);
    var gone := SortedKeys(s.active - CurrentIds(f.tracks));
    assert key.1 !in CurrentIds(f.tracks);
    assert key.1 in gone;
    FinalizeExits(s, rules, gone, f.ts, key);
    VisitTracksKeeps(FinalizeAll(s, rules, gone, f.ts), rules, f.tracks, f.ts, key, s.areas[key].totalDwell + dwell,
                     dwell);
  }

  // Exactly when a missing track gets its exit

  /** Nothing has happened to `key`. */
  ghost predicate Untouched(s: StreamState, t: StreamState, key: Key) {
    && t.feet == s.feet && StateOf(t.areas, key) == StateOf(s.areas, key)
    && s.log <= t.log && forall n :: |s.log| <= n < |t.log| ==> t.log[n].key != key
  }

  lemma UntouchedChain(s: StreamState, t: StreamState, u: StreamState, key: Key)
    requires Untouched(s, t, key) && Untouched(t, u, key)
    ensures Untouched(s, u, key)
  {
    forall n | |s.log| <= n < |u.log| ensures u.log[n].key != key {
      if n < |t.log| {
        assert u.log[n] == t.log[n];
      }
    }
  }

  /** The rules have an area of this id. */
  ghost predicate HasArea(rules: seq<Rule>, id: string) {
    exists r :: r in rules && r.isArea && r.id == id
  }

  lemma {:induction false} LeaveAllUntouched(s: StreamState, rules: seq<Rule>, id: int, ts: int, key: Key)
    requires id != key.1 || id !in s.feet || !HasArea(rules, key.0)
    ensures Untouched(s, LeaveAll(s, rules, id, ts), key)
    decreases |rules|
  {
    if rules != [] {
      assert rules[0] in rules;
      var s1 := LeaveRule(s, rules[0], id, ts);
      assert Untouched(s, s1, key);
      LeaveAllUntouched(s1, rules[1..], id, ts, key);
      UntouchedChain(s, s1, LeaveAll(s, rules, id, ts), key);
    }
  }

  lemma {:induction false} FinalizeUntouched(s: StreamState, rules: seq<Rule>, gone: seq<int>, ts: int, key: Key)
    requires key.1 !in gone || key.1 !in s.feet || !HasArea(rules, key.0)
    ensures Untouched(s, FinalizeAll(s, rules, gone, ts), key)
    decreases |gone|
  {
    if gone != [] {
      var s1 := LeaveAll(s, rules, gone[0], ts);
      LeaveAllUntouched(s, rules, gone[0], ts, key);
      FinalizeUntouched(s1, rules, gone[1..], ts, key);
      UntouchedChain(s, s1, FinalizeAll(s, rules, gone, ts), key);
    }
  }

  /** The same, but positions of other tracks may be new. */
  ghost predicate Unobserved(s: StreamState, t: StreamState, key: Key) {
    && StateOf(t.areas, key) == StateOf(s.areas, key)
    && s.log <= t.log && forall n :: |s.log| <= n < |t.log| ==> t.log[n].key != key
  }

  lemma {:induction false} ObserveAllUntouched(s: StreamState, rules: seq<Rule>, id: int, foot: Point, ts: int, key: Key)
    requires id != key.1
    ensures Untouched(s, ObserveAll(s, rules, id, foot, ts), key)
    decreases |rules|
  {
    if rules != [] {
      var s1 := ObserveRule(s, rules[0], id, foot, ts);
      assert Untouched(s, s1, key);
      ObserveAllUntouched(s1, rules[1..], id, foot, ts, key);
      UntouchedChain(s, s1, ObserveAll(s, rules, id, foot, ts), key);
    }
  }

  lemma {:induction false} VisitTracksUnobserved(s: StreamState, rules: seq<Rule>, tracks: seq<TrackInput>, ts: int,
                                                 key: Key)
    requires forall t :: t in tracks ==> IdOf(t) != key.1
    ensures Unobserved(s, VisitTracks(s, rules, tracks, ts), key)
    decreases |tracks|
  {
    if tracks != [] {
      assert tracks[0] in tracks;
      var s1, t := VisitTrack(s, rules, tracks[0], ts), VisitTracks(s, rules, tracks, ts);
      ObserveAllUntouched(s, rules, IdOf(tracks[0]), tracks[0].foot, ts, key);
      VisitTracksUnobserved(s1, rules, tracks[1..], ts, key);
      forall n | |s.log| <= n < |t.log| ensures t.log[n].key != key {
        if n < |s1.log| {
          assert t.log[n] == s1.log[n];
        }
      }
    }
  }

  /**
   In any state, a track that is inside an area and missing from a frame gets its exit with that frame if and only if it
   was active, its position is known and the area is still among the enabled rules. Otherwise nothing happens to it.
   */
  lemma ExitExactlyWhenActive(s: StreamState, f: AnalyticsFrame, key: Key)
    requires StateOf(s.areas, key).inside && forall t :: t in f.tracks ==> IdOf(t) != key.1
    ensures var t, dwell := ProcessFrame(s, f), CurrentDwell(s.areas[key], f.ts);
            if key.1 in s.active && key.1 in s.feet && HasArea(f.rules, key.0) then
              Left(t, key, s.areas[key].totalDwell + dwell, dwell, f.ts)
            else Unobserved(s, t, key)
  {
    var gone := SortedKeys(s.active - CurrentIds(f.tracks));
    var s1 := FinalizeAll(s, f.rules, gone, f.ts);
    assert key.1 !in CurrentIds(f.tracks);
    if key.1 in s.active && key.1 in s.feet && HasArea(f.rules, key.0) {
      var dwell := CurrentDwell(s.areas[key], f.ts);
      FinalizeExits(s, f.rules, gone, f.ts, key);
      VisitTracksKeeps(s1, f.rules, f.tracks, f.ts, key, s.areas[key].totalDwell + dwell, dwell);
    } else {
      FinalizeUntouched(s, f.rules, gone, f.ts, key);
      VisitTracksUnobserved(s1, f.rules, f.tracks, f.ts, key);
    }
  }

  // Tracks without an id

  /** An unnamed track is processed under id 0, which is active only if some track of the frame names it. */
  lemma UnnamedTrackIsNotActive(r: Rule, foot: Point, ts: int)
    requires r.isArea && r.contains(foot)
    ensures var s := Process([AnalyticsFrame([r], [TrackInput(None, foot)], ts)]);
            StateOf(s.areas, (r.id, 0)).inside && s.active == {} && s.log == [Event((r.id, 0), Enter, ts, foot)]
  {
    var f := AnalyticsFrame([r], [TrackInput(None, foot)], ts);
    assert [f][..0] == [];
    var s0 := Process([]);
    assert CurrentIds(f.tracks) == {};
    assert SortedKeys(s0.active - {}) == [];
    var s1 := ObserveRule(s0, r, 0, foot, ts);
    assert ObserveAll(s0, f.rules, 0, foot, ts) == s1;
    assert VisitTracks(s0, f.rules, f.tracks, ts).areas == s1.areas;
  }

  /** So it can stay inside for ever: it enters, it is gone in every later frame, and no exit is logged. */
  lemma {:induction false} UnnamedTrackGetsNoExit(r: Rule, foot: Point, ts: int, later: seq<AnalyticsFrame>)
    requires r.isArea && r.contains(foot)
    requires forall n, t :: 0 <= n < |later| && t in later[n].tracks ==> IdOf(t) != 0
    ensures var s := Process([AnalyticsFrame([r], [TrackInput(None, foot)], ts)] + later);
            && StateOf(s.areas, (r.id, 0)).inside && 0 !in s.active
            && (forall n :: 0 <= n < |s.log| && s.log[n].key == (r.id, 0) ==> s.log[n].kind == Enter)
    decreases |later|
  {
    var frames := [AnalyticsFrame([r], [TrackInput(None, foot)], ts)];
    if later == [] {
      assert frames + later == frames;
      UnnamedTrackIsNotActive(r, foot, ts);
    } else {
      var most, last := later[..|later| - 1], later[|later| - 1];
      var all := frames + later;
      assert all[..|all| - 1] == frames + most && all[|all| - 1] == last;
      forall n, t | 0 <= n < |most| && t in most[n].tracks ensures IdOf(t) != 0 {
        assert most[n] == later[n];
      }
      UnnamedTrackGetsNoExit(r, foot, ts, most);
      var s, t := Process(frames + most), Process(all);
      ExitExactlyWhenActive(s, last, (r.id, 0));
      forall n | 0 <= n < |t.log| && t.log[n].key == (r.id, 0) ensures t.log[n].kind == Enter {
        assert n < |s.log| ==> t.log[n] == s.log[n];
      }
      assert 0 !in CurrentIds(last.tracks);
    }
  }
}
