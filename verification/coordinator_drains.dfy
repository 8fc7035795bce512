/**
 Every stage of a drain keeps the invariants, and what each stage leaves behind when it stops.
 */
module CoordinatorDrains {
  import opened Types
  import opened OrderedKeys
  import opened CoordinatorSpec
  import opened CoordinatorInvariants

  // drain_independent_face_probes_

  lemma EntriesGrow(faceFrames: map<int, PendingFaceFrame>, latestFace: int, latestFace': int)
    requires EntriesInv(faceFrames, latestFace) && latestFace <= latestFace'
    ensures EntriesInv(faceFrames, latestFace')
  {
    forall x | x in faceFrames ensures EntryInv(x, faceFrames[x], latestFace') {
      assert EntryInv(x, faceFrames[x], latestFace);
    }
  }

  lemma MoreProbes(s: State, queuedProbes: map<int, set<string>>, latestFace: int, probed: seq<int>)
    requires Inv(s) && latestFace >= s.latestFace
    requires ProbesInv(queuedProbes, s.intake.frames.Keys + UpdateIds([]), latestFace, s.cfg)
    ensures Inv(s.(queuedProbes := queuedProbes, latestFace := latestFace, calls := s.calls.(probed := probed)))
  {
    EntriesGrow(s.faceFrames, s.latestFace, latestFace);
  }

  ghost predicate SameIntake(s: State, t: State) {
    t.cfg == s.cfg && t.intake == s.intake && t.calls.tracked == s.calls.tracked
  }

  lemma ProbeStepInv(s: State, k: int)
    requires Inv(s) && k in s.intake.frames && s.cfg.faceDetection && s.cfg.independent
    ensures Inv(ProbeStep(s, k)) && SameIntake(s, ProbeStep(s, k))
  {
    var t := ProbeStep(s, k);
    if t != s {
      assert ProbesInv(t.queuedProbes, s.intake.frames.Keys + UpdateIds([]), t.latestFace, s.cfg);
      MoreProbes(s, t.queuedProbes, t.latestFace, t.calls.probed);
    }
  }

  lemma {:induction false} ProbeFoldInv(s: State, keys: seq<int>)
    requires Inv(s) && s.cfg.faceDetection && s.cfg.independent
    requires forall k :: k in keys ==> k in s.intake.frames
    ensures Inv(ProbeFold(s, keys)) && SameIntake(s, ProbeFold(s, keys))
    decreases |keys|
  {
    if keys != [] {
      ProbeStepInv(s, keys[0]);
      ProbeFoldInv(ProbeStep(s, keys[0]), keys[1..]);
    }
  }

  lemma DrainProbesInv(s: State)
    requires Inv(s)
    ensures Inv(DrainProbes(s)) && SameIntake(s, DrainProbes(s))
  {
    if s.cfg.faceDetection && s.cfg.independent {
      ProbeFoldInv(s, SortedKeys(s.intake.frames.Keys));
    }
  }

  // drain_tracking_: the intake loop

  /** When the loop stops, nothing is queued or the frame at the frontier is neither matched nor overdue. */
  ghost predicate IntakeSettled(q: Intake, window: int) {
    q.frames != map[] ==>
      && q.next in q.frames && q.next !in q.detections
      && (forall k :: k in q.frames || k in q.detections ==> k - q.next <= window)
  }

  lemma TrackInvAdvance(q: Intake, tracked: seq<TrackerUpdate>, u: TrackerUpdate)
    requires TrackInv(q.next, q.frames, tracked) && q.next in q.frames && u.frame == q.frames[q.next]
    ensures TrackInv(q.next + 1, q.frames - {q.next}, tracked + [u])
  {
    UpdateIdsAppend(tracked, u);
    var longer := tracked + [u];
    forall i, j | 0 <= i < j < |longer| ensures longer[i].frame.id < longer[j].frame.id {
      assert longer[i] == tracked[i];
      assert tracked[i].frame.id in UpdateIds(tracked);
    }
  }

  lemma LoopUnrolls(q: Intake, window: int)
    requires q.next >= 0
    ensures q.next in q.frames && (q.next in q.detections || LatestSeen(q) - q.next > window) ==>
              IntakeLoop(q, window)
              == (IntakeLoop(Advance(q), window).0, [NextUpdate(q)] + IntakeLoop(Advance(q), window).1)
    ensures q.next in q.frames && !(q.next in q.detections || LatestSeen(q) - q.next > window) ==>
              IntakeLoop(q, window) == (q, [])
    ensures q.frames == map[] ==> IntakeLoop(q, window) == (q, [])
    ensures q.next !in q.frames && q.frames != map[] && Least(q.frames.Keys) > q.next ==>
              IntakeLoop(q, window) == IntakeLoop(q.(next := Least(q.frames.Keys)), window)
  {
  }

  /** None of the loop's branches applies. */
  ghost predicate Stuck(q: Intake, window: int) {
    || q.next < 0
    || (q.next in q.frames && q.next !in q.detections && LatestSeen(q) - q.next <= window)
    || (q.next !in q.frames && (q.frames == map[] || Least(q.frames.Keys) <= q.next))
  }

  lemma {:induction false} IntakeLoopStops(q: Intake, window: int)
    ensures Stuck(IntakeLoop(q, window).0, window)
    ensures IntakeLoop(q, window).0.next >= q.next
    decreases |q.frames|, if q.next in q.frames then 0 else 1
  {
    if q.next < 0 {
    } else if q.next in q.frames {
      if q.next in q.detections || LatestSeen(q) - q.next > window {
        assert (q.frames - {q.next}).Keys == q.frames.Keys - {q.next};
        IntakeLoopStops(Advance(q), window);
      }
    } else if q.frames != map[] && Least(q.frames.Keys) > q.next {
      IntakeLoopStops(q.(next := Least(q.frames.Keys)), window);
    }
  }

  lemma StuckSettled(q: Intake, window: int)
    requires Stuck(q, window) && (q.frames != map[] ==> q.next >= 0)
    requires forall k :: k in q.frames ==> k >= q.next
    ensures IntakeSettled(q, window)
  {
    if q.frames != map[] {
      assert Least(q.frames.Keys) in q.frames;
    }
  }

  /** The loop tracks frames in increasing id order. */
  lemma {:induction false} IntakeLoopInv(q: Intake, window: int, tracked: seq<TrackerUpdate>)
    requires TrackInv(q.next, q.frames, tracked)
    ensures var r := IntakeLoop(q, window); TrackInv(r.0.next, r.0.frames, tracked + r.1)
    decreases |q.frames|, if q.next in q.frames then 0 else 1
  {
    assert tracked + [] == tracked;
    if q.next < 0 {
    } else if q.next in q.frames {
      if q.next in q.detections || LatestSeen(q) - q.next > window {
        assert (q.frames - {q.next}).Keys == q.frames.Keys - {q.next};
        TrackInvAdvance(q, tracked, NextUpdate(q));
        IntakeLoopInv(Advance(q), window, tracked + [NextUpdate(q)]);
        var rest := IntakeLoop(Advance(q), window);
        assert IntakeLoop(q, window) == (rest.0, [NextUpdate(q)] + rest.1);
        PrependUpdate(tracked, NextUpdate(q), rest.1);
      }
    } else if q.frames != map[] && Least(q.frames.Keys) > q.next {
      IntakeLoopInv(q.(next := Least(q.frames.Keys)), window, tracked);
    }
  }

  lemma PrependUpdate(tracked: seq<TrackerUpdate>, u: TrackerUpdate, rest: seq<TrackerUpdate>)
    ensures tracked + ([u] + rest) == tracked + [u] + rest
    ensures UpdateIds([u] + rest) == {u.frame.id} + UpdateIds(rest)
  {
    UpdateIdsConcat([u], rest);
    UpdateIdsAppend([], u);
    assert [] + [u] == [u];
  }

  /** No frame is lost on the way from these frames to the ones that are left and the updates made. */
  ghost predicate Keeps(frames: map<int, Frame>, left: map<int, Frame>, updates: seq<TrackerUpdate>) {
    frames.Keys == left.Keys + UpdateIds(updates)
  }

  lemma KeepsAfterUpdate(frames: map<int, Frame>, u: TrackerUpdate, left: map<int, Frame>, us: seq<TrackerUpdate>)
    requires u.frame.id in frames && Keeps(frames - {u.frame.id}, left, us)
    ensures Keeps(frames, left, [u] + us)
  {
    PrependUpdate([], u, us);
    assert frames.Keys == (frames - {u.frame.id}).Keys + {u.frame.id};
  }

  /** The loop loses no frame. */
  lemma {:induction false} IntakeLoopKeeps(q: Intake, window: int)
    requires forall k :: k in q.frames ==> q.frames[k].id == k
    ensures var r := IntakeLoop(q, window); Keeps(q.frames, r.0.frames, r.1)
    decreases |q.frames|, if q.next in q.frames then 0 else 1
  {
    assert UpdateIds([]) == {};
    if q.next < 0 {
    } else if q.next in q.frames {
      if q.next in q.detections || LatestSeen(q) - q.next > window {
        var rest := IntakeLoop(Advance(q), window);
        assert (q.frames - {q.next}).Keys == q.frames.Keys - {q.next};
        IntakeLoopKeeps(Advance(q), window);
        KeepsAfterUpdate(q.frames, NextUpdate(q), rest.0.frames, rest.1);
      }
    } else if q.frames != map[] && Least(q.frames.Keys) > q.next {
      IntakeLoopKeeps(q.(next := Least(q.frames.Keys)), window);
    }
  }

  lemma DrainIntakeInv(q: Intake, window: int, tracked: seq<TrackerUpdate>)
    requires TrackInv(q.next, q.frames, tracked)
    ensures var r := DrainIntake(q, window);
            && TrackInv(r.0.next, r.0.frames, tracked + r.1)
            && r.0.next >= q.next
            && q.frames.Keys == r.0.frames.Keys + UpdateIds(r.1)
            && IntakeSettled(r.0, window)
  {
    if q.frames != map[] {
      assert Least(q.frames.Keys) in q.frames;
    }
    var start := StartIntake(q);
    IntakeLoopInv(start, window, tracked);
    IntakeLoopKeeps(start, window);
    IntakeLoopStops(start, window);
    StuckSettled(IntakeLoop(start, window).0, window);
  }

  // process_tracked_frame_

  lemma {:induction false} AbsorbOnce(probes: set<string>, results: seq<FaceResult>, arrived: seq<FaceResult>)
    requires AnsweredOnce(probes, results)
    ensures var r := Absorb(probes, results, arrived);
            AnsweredOnce(r.0, r.1) && r.0 <= probes && (probes == {} ==> r.1 == results)
    decreases |arrived|
  {
    if arrived != [] {
      if arrived[0].probeId in probes {
        AnswerOne(probes, results, arrived[0]);
        AbsorbOnce(probes - {arrived[0].probeId}, results + [arrived[0]], arrived[1..]);
      } else {
        AbsorbOnce(probes, results, arrived[1..]);
      }
    }
  }

  lemma NewEntry(s: State, expected: set<int>, frame: Frame, boxes: seq<Box>, latestFace: int)
    requires ProbesInv(s.queuedProbes, expected, s.latestFace, s.cfg)
    requires latestFace >= s.latestFace && (FreshProbes(s, frame) != {} ==> latestFace >= frame.id)
    ensures EntryInv(frame.id, NewFaceFrame(s, frame, boxes), latestFace)
    ensures !NewFaceFrame(s, frame, boxes).queued
  {
    var probes := if ProbedAhead(s, frame.id) then s.queuedProbes[frame.id] else {};
    AbsorbOnce(probes, [], EarlyAt(s.early, frame.id));
  }

  lemma ConservedAdd(tracked: seq<TrackerUpdate>, faceFrames: map<int, PendingFaceFrame>, handed: seq<Handover>,
                     u: TrackerUpdate, p: PendingFaceFrame)
    requires Conserved(tracked, faceFrames, handed)
    requires u.frame.id !in UpdateIds(tracked) && !p.queued
    ensures Conserved(tracked + [u], faceFrames[u.frame.id := p], handed)
  {
    UpdateIdsAppend(tracked, u);
  }

  lemma EntriesAdd(faceFrames: map<int, PendingFaceFrame>, latestFace: int, latestFace': int, k: int, p: PendingFaceFrame)
    requires EntriesInv(faceFrames, latestFace) && latestFace <= latestFace' && EntryInv(k, p, latestFace')
    ensures EntriesInv(faceFrames[k := p], latestFace')
  {
    forall x | x in faceFrames[k := p] && x != k ensures EntryInv(x, faceFrames[x], latestFace') {
      assert EntryInv(x, faceFrames[x], latestFace);
    }
  }

  lemma RecognitionGrows(stage: Stage, nextTracker: int, handed: seq<Handover>, tasks: seq<Item>, latestIdentity: int,
                         latestRecognition: int, window: int,
                         nextTracker': int, handed': seq<Handover>, latestRecognition': int)
    requires RecognitionInv(stage, nextTracker, handed, tasks, latestIdentity, latestRecognition, window)
    requires nextTracker <= nextTracker' && latestRecognition <= latestRecognition'
    requires HandoverIds(handed) <= HandoverIds(handed')
    ensures RecognitionInv(stage, nextTracker', handed', tasks, latestIdentity, latestRecognition', window)
  {
  }

  lemma CommitTracks(stage: Stage, nextRecognition: int, tracked: seq<TrackerUpdate>, tasks: seq<Item>, done: seq<Item>,
                     latestIdentity: int, window: int, u: TrackerUpdate)
    requires CommitInv(stage, nextRecognition, tracked, tasks, done, latestIdentity, window)
    requires u.frame.id >= 0 && (tracked == [] ==> tasks == [] && nextRecognition < 0)
    ensures CommitInv(if stage.next < 0 then stage.(next := u.frame.id) else stage, nextRecognition, tracked + [u], tasks,
                      done, latestIdentity, window)
  {
    if tracked == [] {
      assert (tracked + [u])[0] == u;
      assert forall k :: k !in stage.pending;
    } else {
      assert (tracked + [u])[0] == tracked[0];
    }
  }

  lemma NoIdsNoItems(log: seq<Item>)
    ensures log == [] || exists k :: k in ItemIds(log)
  {
    if log != [] {
      assert log[0].frameId in ItemIds(log);
    }
  }

  /** Before the first frame is tracked, no later stage has anything. */
  lemma NothingBeforeTracking(tracked: seq<TrackerUpdate>, faceFrames: map<int, PendingFaceFrame>, handed: seq<Handover>,
                              stage: Stage, nextTracker: int, tasks: seq<Item>, latestIdentity: int,
                              latestRecognition: int, window: int)
    requires tracked == [] && Conserved(tracked, faceFrames, handed)
    requires RecognitionInv(stage, nextTracker, handed, tasks, latestIdentity, latestRecognition, window)
    ensures tasks == [] && stage.next < 0
  {
    assert UpdateIds(tracked) == {};
    assert forall k :: k !in HandoverIds(handed);
    NoIdsNoItems(tasks);
  }

  lemma ProbesRemove(queuedProbes: map<int, set<string>>, expected: set<int>, latestFace: int, cfg: Config, k: int,
                     rest: set<int>, latestFace': int)
    requires ProbesInv(queuedProbes, expected, latestFace, cfg)
    requires expected <= rest + {k} && latestFace <= latestFace'
    ensures ProbesInv(if cfg.faceDetection && cfg.independent && k in queuedProbes then queuedProbes - {k}
                      else queuedProbes, rest, latestFace', cfg)
  {
  }

  lemma TrackFrameInv(s: State, updates: seq<TrackerUpdate>)
    requires updates != [] && InvDuring(s, updates)
    ensures InvDuring(TrackFrame(s, updates[0]), updates[1..])
    ensures updates[0].frame.id in TrackFrame(s, updates[0]).faceFrames
  {
    var u, t := updates[0], TrackFrame(s, updates[0]);
    var k := u.frame.id;
    assert s.calls.tracked + updates == s.calls.tracked + [u] + updates[1..];
    var all := s.calls.tracked + updates;
    assert all[|s.calls.tracked|] == u;
    assert k in UpdateIds(all);
    assert k !in UpdateIds(s.calls.tracked) by {
      forall i | 0 <= i < |s.calls.tracked| ensures s.calls.tracked[i].frame.id != k {
        assert s.calls.tracked[i] == all[i];
      }
    }
    TrackFrameFaces(s, updates);
    TrackFrameLate(s, u);
  }

  lemma TrackFrameFaces(s: State, updates: seq<TrackerUpdate>)
    requires updates != [] && FaceInv(s, updates)
    requires updates[0].frame.id !in UpdateIds(s.calls.tracked)
    ensures FaceInv(TrackFrame(s, updates[0]), updates[1..])
  {
    var u, t := updates[0], TrackFrame(s, updates[0]);
    var k := u.frame.id;
    var expected := s.intake.frames.Keys + UpdateIds(updates);
    NewEntry(s, expected, u.frame, s.cfg.tracker(t.calls.tracked), t.latestFace);
    EntriesAdd(s.faceFrames, s.latestFace, t.latestFace, k, t.faceFrames[k]);
    ConservedAdd(s.calls.tracked, s.faceFrames, s.calls.handedOver, u, t.faceFrames[k]);
    assert expected <= s.intake.frames.Keys + UpdateIds(updates[1..]) + {k} by {
      assert updates == [u] + updates[1..];
      UpdateIdsConcat([u], updates[1..]);
    }
    ProbesRemove(s.queuedProbes, expected, s.latestFace, s.cfg, k, s.intake.frames.Keys + UpdateIds(updates[1..]),
                 t.latestFace);
  }

  lemma TrackFrameLate(s: State, u: TrackerUpdate)
    requires LateInv(s) && u.frame.id >= 0 && Conserved(s.calls.tracked, s.faceFrames, s.calls.handedOver)
    ensures LateInv(TrackFrame(s, u))
  {
    if s.calls.tracked == [] {
      NothingBeforeTracking(s.calls.tracked, s.faceFrames, s.calls.handedOver, s.recognition, s.intake.next,
                            s.calls.identityTasks, s.latestIdentity, s.latestRecognition, s.cfg.window);
    }
    CommitTracks(s.commit, s.recognition.next, s.calls.tracked, s.calls.identityTasks, s.calls.committed,
                 s.latestIdentity, s.cfg.window, u);
  }

  // queue_recognition_

  lemma HandOver(tracked: seq<TrackerUpdate>, faceFrames: map<int, PendingFaceFrame>, handed: seq<Handover>, k: int,
                 p: PendingFaceFrame, h: Handover)
    requires Conserved(tracked, faceFrames, handed)
    requires k in faceFrames && !faceFrames[k].queued && p.queued && h.task.frameId == k
    ensures Conserved(tracked, faceFrames[k := p], handed + [h])
  {
    HandoverIdsAppend(handed, h);
    var longer := handed + [h];
    forall i, j | 0 <= i < j < |longer| ensures longer[i].task.frameId != longer[j].task.frameId {
      assert longer[i] == handed[i];
      assert handed[i].task.frameId in HandoverIds(handed);
    }
  }

  lemma HandedGrows(handed: seq<Handover>, latest: int, cfg: Config, h: Handover)
    requires HandedInv(handed, latest, cfg) && HandoverInv(h, cfg) && h.task.frameId >= 0
    ensures HandedInv(handed + [h], Max(latest, h.task.frameId), cfg)
  {
    HandoverIdsAppend(handed, h);
  }

  lemma QueueRecognitionInv(s: State, updates: seq<TrackerUpdate>, k: int)
    requires InvDuring(s, updates) && k in s.faceFrames
    ensures InvDuring(QueueRecognition(s, k), updates)
  {
    var p := s.faceFrames[k];
    if !p.queued {
      assert EntryInv(k, p, s.latestFace);
      assert k in UpdateIds(s.calls.tracked);
      UpdateIdsConcat(s.calls.tracked, updates);
      var t := QueueRecognition(s, k);
      var h := MakeHandover(s.cfg, p);
      HandOver(s.calls.tracked, s.faceFrames, s.calls.handedOver, k, t.faceFrames[k], h);
      HandedGrows(s.calls.handedOver, s.latestRecognition, s.cfg, h);
      EntriesAdd(s.faceFrames, s.latestFace, s.latestFace, k, t.faceFrames[k]);
      HandoverIdsAppend(s.calls.handedOver, h);
      RecognitionGrows(s.recognition, s.intake.next, s.calls.handedOver, s.calls.identityTasks, s.latestIdentity,
                       s.latestRecognition, s.cfg.window,
                       s.intake.next, t.calls.handedOver, t.latestRecognition);
    }
  }

  lemma ProcessTrackedInv(s: State, updates: seq<TrackerUpdate>)
    requires updates != [] && InvDuring(s, updates)
    ensures InvDuring(ProcessTracked(s, updates[0]), updates[1..])
  {
    TrackFrameInv(s, updates);
    QueueRecognitionInv(TrackFrame(s, updates[0]), updates[1..], updates[0].frame.id);
  }

  lemma ProcessTrackedFrame(s: State, u: TrackerUpdate)
    ensures ProcessTracked(s, u).calls.tracked == s.calls.tracked + [u]
    ensures ProcessTracked(s, u).intake == s.intake && ProcessTracked(s, u).cfg == s.cfg
  {
  }

  lemma {:induction false} ProcessAllInv(s: State, updates: seq<TrackerUpdate>)
    requires InvDuring(s, updates)
    ensures Inv(ProcessAll(s, updates))
    decreases |updates|
  {
    if updates != [] {
      ProcessTrackedInv(s, updates);
      ProcessAllInv(ProcessTracked(s, updates[0]), updates[1..]);
    }
  }

  lemma {:induction false} ProcessAllFrame(s: State, updates: seq<TrackerUpdate>)
    ensures ProcessAll(s, updates).calls.tracked == s.calls.tracked + updates
    ensures ProcessAll(s, updates).intake == s.intake && ProcessAll(s, updates).cfg == s.cfg
    decreases |updates|
  {
    if updates == [] {
      assert s.calls.tracked + [] == s.calls.tracked;
    } else {
      ProcessTrackedFrame(s, updates[0]);
      ProcessAllFrame(ProcessTracked(s, updates[0]), updates[1..]);
      PrependUpdate(s.calls.tracked, updates[0], updates[1..]);
      assert updates == [updates[0]] + updates[1..];
    }
  }

  lemma DrainTrackingInv(s: State)
    requires Inv(s)
    ensures Inv(DrainTracking(s)) && DrainTracking(s).cfg == s.cfg
    ensures DrainTracking(s).intake == DrainIntake(s.intake, s.cfg.window).0
    ensures DrainTracking(s).calls.tracked == s.calls.tracked + DrainIntake(s.intake, s.cfg.window).1
    ensures IntakeSettled(DrainTracking(s).intake, s.cfg.window)
  {
    var r := DrainIntake(s.intake, s.cfg.window);
    assert s.calls.tracked + [] == s.calls.tracked;
    DrainIntakeInv(s.intake, s.cfg.window, s.calls.tracked);
    RecognitionGrows(s.recognition, s.intake.next, s.calls.handedOver, s.calls.identityTasks, s.latestIdentity,
                     s.latestRecognition, s.cfg.window,
                     r.0.next, s.calls.handedOver, s.latestRecognition);
    assert UpdateIds([]) == {};
    ProcessAllInv(s.(intake := r.0), r.1);
    ProcessAllFrame(s.(intake := r.0), r.1);
  }

  // drain_face_ready_

  ghost predicate DistinctHandovers(handed: seq<Handover>) {
    forall i, j :: 0 <= i < j < |handed| ==> handed[i].task.frameId != handed[j].task.frameId
  }

  /** The hand-overs of a sweep: one for every due entry, each with the invariant of a hand-over. */
  lemma {:induction false} DueSpec(cfg: Config, all: map<int, PendingFaceFrame>, keys: seq<int>, latestFace: int)
    requires Ascending(keys) && (forall k :: k in keys ==> k in all) && EntriesInv(all, latestFace)
    ensures var due := DueHandovers(cfg, all, keys, latestFace);
            && (forall k :: k in HandoverIds(due) <==> k in keys && Due(k, all[k], latestFace, cfg.window))
            && DistinctHandovers(due)
            && (forall i :: 0 <= i < |due| ==> HandoverInv(due[i], cfg))
    decreases |keys|
  {
    if keys != [] {
      var k, rest := keys[0], DueHandovers(cfg, all, keys[1..], latestFace);
      DueSpec(cfg, all, keys[1..], latestFace);
      assert forall x :: x in keys <==> x == k || x in keys[1..];
      assert k !in keys[1..];
      if Due(k, all[k], latestFace, cfg.window) {
        assert EntryInv(k, all[k], latestFace);
        DuePrepend(MakeHandover(cfg, all[k]), rest, cfg);
      }
    }
  }

  lemma DuePrepend(h: Handover, rest: seq<Handover>, cfg: Config)
    requires HandoverInv(h, cfg) && DistinctHandovers(rest) && h.task.frameId !in HandoverIds(rest)
    requires forall i :: 0 <= i < |rest| ==> HandoverInv(rest[i], cfg)
    ensures HandoverIds([h] + rest) == {h.task.frameId} + HandoverIds(rest)
    ensures DistinctHandovers([h] + rest)
    ensures forall i :: 0 <= i < |[h] + rest| ==> HandoverInv(([h] + rest)[i], cfg)
  {
    HandoverIdsConcat([h], rest);
    HandoverIdsAppend([], h);
    assert [] + [h] == [h];
    var all := [h] + rest;
    forall i, j | 0 <= i < j < |all| ensures all[i].task.frameId != all[j].task.frameId {
      assert all[j] == rest[j - 1];
      assert rest[j - 1].task.frameId in HandoverIds(rest);
    }
  }

  lemma {:induction false} LatestHandedMax(latest: int, handed: seq<Handover>)
    ensures LatestHanded(latest, handed) >= latest
    ensures forall k :: k in HandoverIds(handed) ==> k <= LatestHanded(latest, handed)
    ensures LatestHanded(latest, handed) == latest || LatestHanded(latest, handed) in HandoverIds(handed)
    decreases |handed|
  {
    if handed != [] {
      var h := handed[0];
      LatestHandedMax(Max(latest, h.task.frameId), handed[1..]);
      assert handed == [h] + handed[1..];
      HandoverIdsConcat([h], handed[1..]);
      HandoverIdsAppend([], h);
      assert [] + [h] == [h];
    }
  }

  lemma ConservedSweep(tracked: seq<TrackerUpdate>, all: map<int, PendingFaceFrame>, handed: seq<Handover>,
                       due: seq<Handover>, latestFace: int, window: int)
    requires Conserved(tracked, all, handed) && DistinctHandovers(due)
    requires forall k :: k in HandoverIds(due) <==> k in all && Due(k, all[k], latestFace, window)
    ensures Conserved(tracked, StillWaiting(all, [], latestFace, window), handed + due)
  {
    HandoverIdsConcat(handed, due);
    var longer := handed + due;
    forall i, j | 0 <= i < j < |longer| ensures longer[i].task.frameId != longer[j].task.frameId {
      if i < |handed| <= j {
        assert longer[i] == handed[i] && longer[j] == due[j - |handed|];
        assert handed[i].task.frameId in HandoverIds(handed);
        assert due[j - |handed|].task.frameId in HandoverIds(due);
      }
    }
  }

  lemma HandedSweep(handed: seq<Handover>, due: seq<Handover>, latest: int, cfg: Config)
    requires HandedInv(handed, latest, cfg)
    requires forall i :: 0 <= i < |due| ==> HandoverInv(due[i], cfg)
    ensures HandedInv(handed + due, LatestHanded(latest, due), cfg)
  {
    HandoverIdsConcat(handed, due);
    LatestHandedMax(latest, due);
  }

  /** Every entry that is left has an open probe, and no face probe more than the window ahead has been queued. */
  ghost predicate FacesSettled(faceFrames: map<int, PendingFaceFrame>, latestFace: int, window: int) {
    forall k :: k in faceFrames ==>
      !faceFrames[k].queued && faceFrames[k].probes != {} && latestFace - k <= window && k <= latestFace
  }

  lemma SweepSettles(all: map<int, PendingFaceFrame>, latestFace: int, window: int)
    requires EntriesInv(all, latestFace) && (forall k :: k in all ==> k >= 0)
    ensures FacesSettled(StillWaiting(all, [], latestFace, window), latestFace, window)
    ensures EntriesInv(StillWaiting(all, [], latestFace, window), latestFace)
  {
    var left := StillWaiting(all, [], latestFace, window);
    forall k | k in left ensures EntryInv(k, left[k], latestFace) {
      assert EntryInv(k, all[k], latestFace);
    }
  }

  lemma {:induction false} DrainFacesInv(s: State)
    requires Inv(s)
    ensures Inv(DrainFaces(s))
    ensures FacesSettled(DrainFaces(s).faceFrames, s.latestFace, s.cfg.window)
  {
    var keys := SortedKeys(s.faceFrames.Keys);
    var due := DueHandovers(s.cfg, s.faceFrames, keys, s.latestFace);
    var latest := LatestHanded(s.latestRecognition, due);
    DueSpec(s.cfg, s.faceFrames, keys, s.latestFace);
    ConservedSweep(s.calls.tracked, s.faceFrames, s.calls.handedOver, due, s.latestFace, s.cfg.window);
    HandedSweep(s.calls.handedOver, due, s.latestRecognition, s.cfg);
    Provenance(s);
    SweepSettles(s.faceFrames, s.latestFace, s.cfg.window);
    HandoverIdsConcat(s.calls.handedOver, due);
    LatestHandedMax(s.latestRecognition, due);
    RecognitionGrows(s.recognition, s.intake.next, s.calls.handedOver, s.calls.identityTasks, s.latestIdentity,
                     s.latestRecognition, s.cfg.window, s.intake.next, s.calls.handedOver + due, latest);
  }

  // drain_recognition_ready_ and drain_commit_ready_

  /** What the reorder loop does to a stage. */
  ghost predicate Reordered(stage: Stage, latest: int, window: int, after: Stage, out: seq<Item>) {
    && WellKeyed(after) && after.next >= stage.next
    && after.pending == DropBelow(stage.pending, after.next)
    && IncreasingItems(out)
    && (forall k :: k in ItemIds(out) <==> k in stage.pending && k < after.next)
    && (forall i :: 0 <= i < |out| ==> out[i].frameId in stage.pending && out[i] == stage.pending[out[i].frameId])
    && (forall k :: stage.next <= k < after.next && k !in ItemIds(out) ==> latest >= 0 && latest - k > window)
  }

  lemma ReorderTake(stage: Stage, latest: int, window: int, after: Stage, out: seq<Item>)
    requires WellKeyed(stage) && stage.next in stage.pending
    requires Reordered(Stage(stage.next + 1, stage.pending - {stage.next}), latest, window, after, out)
    ensures Reordered(stage, latest, window, after, [stage.pending[stage.next]] + out)
  {
    var r := stage.pending[stage.next];
    ItemIdsConcat([r], out);
    ItemIdsAppend([], r);
    assert [] + [r] == [r];
    var all := [r] + out;
    forall i, j | 0 <= i < j < |all| ensures all[i].frameId < all[j].frameId {
      assert all[j] == out[j - 1];
      assert out[j - 1].frameId in ItemIds(out);
    }
  }

  lemma {:induction false} ReorderLoopSpec(stage: Stage, latest: int, window: int)
    requires WellKeyed(stage) && window >= 0
    ensures var r := ReorderLoop(stage, latest, window); stage.next >= 0 ==> Reordered(stage, latest, window, r.0, r.1)
    decreases |stage.pending|, latest - stage.next
  {
    var k := stage.next;
    if k < 0 {
    } else if k in stage.pending {
      assert (stage.pending - {k}).Keys == stage.pending.Keys - {k};
      ReorderLoopSpec(Stage(k + 1, stage.pending - {k}), latest, window);
      var r := ReorderLoop(Stage(k + 1, stage.pending - {k}), latest, window);
      assert ReorderLoop(stage, latest, window) == (r.0, [stage.pending[k]] + r.1);
      ReorderTake(stage, latest, window, r.0, r.1);
    } else if latest >= 0 && latest - k > window {
      ReorderLoopSpec(stage.(next := k + 1), latest, window);
    } else {
      assert DropBelow(stage.pending, k) == stage.pending;
    }
  }

  /** The loop stops within the window of the newest queued id, and not on a result that is there. */
  lemma {:induction false} ReorderLoopStops(stage: Stage, latest: int, window: int)
    requires window >= 0
    ensures var after := ReorderLoop(stage, latest, window).0;
            stage.next >= 0 ==>
              && after.next !in after.pending && (latest < 0 || latest - after.next <= window)
              && (after.next > stage.next ==> after.next - 1 in stage.pending || after.next <= latest)
    decreases |stage.pending|, latest - stage.next
  {
    var k := stage.next;
    if k < 0 {
    } else if k in stage.pending {
      assert (stage.pending - {k}).Keys == stage.pending.Keys - {k};
      ReorderLoopStops(Stage(k + 1, stage.pending - {k}), latest, window);
    } else if latest >= 0 && latest - k > window {
      ReorderLoopStops(stage.(next := k + 1), latest, window);
    }
  }

  ghost predicate StageSettled(stage: Stage, latest: int, window: int) {
    && (stage.next < 0 ==> stage.pending == map[])
    && (forall k :: k in stage.pending ==> stage.next < k)
    && (stage.next >= 0 ==> latest < 0 || latest - stage.next <= window)
  }

  lemma DrainStageSpec(stage: Stage, latest: int, window: int)
    requires WellKeyed(stage) && window >= 0
    ensures var r := DrainStage(stage, latest, window);
            && WellKeyed(r.0) && StageSettled(r.0, latest, window)
            && (if stage.next < 0 && stage.pending == map[] then r == (stage, [])
                else Reordered(StartStage(stage), latest, window, r.0, r.1))
            && (r.0.next > StartStage(stage).next ==> r.0.next - 1 in stage.pending || r.0.next <= latest)
  {
    if stage.pending != map[] {
      assert Least(stage.pending.Keys) in stage.pending;
    }
    var start := StartStage(stage);
    ReorderLoopSpec(start, latest, window);
    ReorderLoopStops(start, latest, window);
    var after := ReorderLoop(start, latest, window).0;
    if start.next >= 0 {
      assert DropBelow(after.pending, after.next) == after.pending;
    }
  }
}
