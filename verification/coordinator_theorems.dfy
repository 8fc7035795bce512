/**
 What the coordinator guarantees over whole runs: every interleaving of the five kinds of push with drains.
 */
module CoordinatorTheorems {
  import opened Types
  import Sequences
  import opened OrderedKeys
  import opened CoordinatorSpec
  import opened CoordinatorInvariants
  import opened CoordinatorDrains
  import opened CoordinatorRuns

  lemma LegalPrefix(cfg: Config, ops: seq<Op>)
    requires Legal(cfg, ops) && ops != []
    ensures Legal(cfg, ops[..|ops| - 1]) && Allowed(Run(cfg, ops[..|ops| - 1]), ops[|ops| - 1])
  {
    var before := ops[..|ops| - 1];
    forall i | 0 <= i < |before| ensures Allowed(Run(cfg, before[..i]), before[i]) {
      assert before[..i] == ops[..i];
    }
  }

  lemma {:induction false} RunInv(cfg: Config, ops: seq<Op>)
    requires Legal(cfg, ops) && cfg.limit > cfg.window
    ensures Inv(Run(cfg, ops)) && Run(cfg, ops).cfg == cfg
    decreases |ops|
  {
    if ops == [] {
      InitialInv(cfg);
    } else {
      LegalPrefix(cfg, ops);
      RunInv(cfg, ops[..|ops| - 1]);
      StepInv(Run(cfg, ops[..|ops| - 1]), ops[|ops| - 1]);
    }
  }

  /**
   No frame is lost to trimming: in every reachable state the queues of frames and of results fit the window after the
   drains, so trim_pending_ takes nothing from them and never moves the commit frontier.
   */
  lemma {:induction false} NothingTrimmed(cfg: Config, ops: seq<Op>)
    requires Legal(cfg, ops) && cfg.limit > cfg.window
    ensures var s := DrainStages(Run(cfg, ops));
            && |s.intake.frames| <= cfg.window + 1 && |s.queuedProbes| <= cfg.window + 1
            && |s.faceFrames| <= cfg.window + 1
            && |s.recognition.pending| <= cfg.window && |s.commit.pending| <= cfg.window
            && Trim(s) == s.(intake := s.intake.(detections := TrimMap(s.intake.detections, cfg.limit)),
                             early := TrimMap(s.early, cfg.limit))
  {
    RunInv(cfg, ops);
    DrainStagesInv(Run(cfg, ops));
    QueuesFit(DrainStages(Run(cfg, ops)));
    TrimIdle(DrainStages(Run(cfg, ops)));
  }

  lemma DetectionsFit(q: Intake, tracked: seq<TrackerUpdate>, window: int)
    requires TrackInv(q.next, q.frames, tracked) && window >= 0
    ensures var r := DrainIntake(q, window).0; r.frames != map[] ==> |r.detections| <= window
  {
    var r := DrainIntake(q, window).0;
    DrainIntakeInv(q, window, tracked);
    if r.frames != map[] {
      CardinalityBound(r.detections.Keys, r.next + 1, r.next + 1 + window);
      assert |r.detections.Keys| == |r.detections|;
    }
  }

  /** Trimming takes from a queue exactly when it exceeds the limit. */
  lemma TrimsExactlyTheExcess<T>(m: map<int, T>, limit: int)
    requires limit >= 1
    ensures TrimMap(m, limit) != m <==> |m| > limit
  {
    TrimSubmap(m, limit);
  }

  /**
   Detections are trimmed exactly when no frame is pending and more of them than the limit are, that is when they run
   ahead of every frame; early face results exactly when they are for more frames than the limit.
   */
  lemma {:induction false} DetectionsTrimmedOnlyWithoutFrames(cfg: Config, ops: seq<Op>)
    requires Legal(cfg, ops) && cfg.limit > cfg.window
    ensures var s := DrainStages(Run(cfg, ops));
            && (TrimMap(s.intake.detections, cfg.limit) != s.intake.detections <==>
                  s.intake.frames == map[] && |s.intake.detections| > cfg.limit)
            && (TrimMap(s.early, cfg.limit) != s.early <==> |s.early| > cfg.limit)
  {
    var s0 := Run(cfg, ops);
    RunInv(cfg, ops);
    DrainProbesInv(s0);
    DrainTrackingInv(DrainProbes(s0));
    assert s0.calls.tracked + [] == s0.calls.tracked;
    DetectionsFit(s0.intake, s0.calls.tracked, cfg.window);
    TrimsExactlyTheExcess(DrainStages(s0).intake.detections, cfg.limit);
    TrimsExactlyTheExcess(DrainStages(s0).early, cfg.limit);
  }

  /** The frontiers keep their order, and everything behind them was tracked first. */
  lemma {:induction false} FrontiersInOrder(cfg: Config, ops: seq<Op>)
    requires Legal(cfg, ops) && cfg.limit > cfg.window
    ensures var s := Run(cfg, ops);
            && s.recognition.next <= s.intake.next && s.commit.next <= s.intake.next
            && (s.recognition.next >= 0 ==> 0 <= s.commit.next <= s.recognition.next)
            && ItemIds(s.calls.committed) <= ItemIds(s.calls.identityTasks) <= HandoverIds(s.calls.handedOver)
                 <= UpdateIds(s.calls.tracked)
  {
    var s := Run(cfg, ops);
    RunInv(cfg, ops);
    Provenance(s);
    assert s.calls.tracked + [] == s.calls.tracked;
    if s.calls.tracked != [] {
      assert s.calls.tracked[0].frame.id in UpdateIds(s.calls.tracked);
    }
    if s.recognition.next >= 0 {
      Started(s);
    }
  }

  /** A stage past the tracker can only have started after the first frame was tracked. */
  lemma Started(s: State)
    requires Inv(s) && s.recognition.next >= 0
    ensures s.calls.tracked != [] && s.commit.next >= 0
  {
    if s.calls.tracked == [] {
      NothingBeforeTracking(s.calls.tracked, s.faceFrames, s.calls.handedOver, s.recognition, s.intake.next,
                            s.calls.identityTasks, s.latestIdentity, s.latestRecognition, s.cfg.window);
      assert false;
    }
  }

  /**
   The commit frontier passes a frame without committing it only when an identity task more than the window newer has
   been queued, and the recognition frontier only when such a recognition task has.
   */
  lemma {:induction false} GivenUpOnlyWhenOverdue(cfg: Config, ops: seq<Op>, k: int)
    requires Legal(cfg, ops) && cfg.limit > cfg.window
    ensures var s := Run(cfg, ops);
            s.calls.tracked != [] && s.calls.tracked[0].frame.id <= k < s.commit.next
            && k !in ItemIds(s.calls.committed) ==>
              exists n :: n in ItemIds(s.calls.identityTasks) && n > k + cfg.window
    ensures var s := Run(cfg, ops);
            s.calls.identityTasks != [] && s.calls.identityTasks[0].frameId <= k < s.recognition.next
            && k !in ItemIds(s.calls.identityTasks) ==>
              exists n :: n in HandoverIds(s.calls.handedOver) && n > k + cfg.window
  {
    var s := Run(cfg, ops);
    RunInv(cfg, ops);
    if s.calls.tracked != [] && GivenUp(k, s.calls.tracked[0].frame.id, s.commit.next, ItemIds(s.calls.committed)) {
      assert s.latestIdentity > k + cfg.window;
      Overdue(s, k);
    }
    if s.calls.identityTasks != []
       && GivenUp(k, s.calls.identityTasks[0].frameId, s.recognition.next, ItemIds(s.calls.identityTasks)) {
      assert s.calls.identityTasks[0].frameId in ItemIds(s.calls.identityTasks);
      assert s.latestRecognition > k + cfg.window;
    }
  }

  lemma Overdue(s: State, k: int)
    requires Inv(s) && s.latestIdentity > k + s.cfg.window && s.calls.tracked != []
    requires k >= s.calls.tracked[0].frame.id
    ensures s.latestIdentity in ItemIds(s.calls.identityTasks)
  {
    assert s.calls.tracked + [] == s.calls.tracked;
    assert s.calls.tracked[0].frame.id in UpdateIds(s.calls.tracked);
  }

  /**
   After a drain every tracked frame has been handed to recognition, except those that still have an open probe while
   no probe of a frame more than the window newer is out.
   */
  lemma {:induction false} HandedOverOnce(cfg: Config, ops: seq<Op>)
    requires Legal(cfg, ops) && cfg.limit > cfg.window
    ensures var s := Run(cfg, ops + [DrainReady]);
            && DistinctHandovers(s.calls.handedOver)
            && forall k :: k in UpdateIds(s.calls.tracked) && k !in HandoverIds(s.calls.handedOver) ==>
                 k in s.faceFrames && s.faceFrames[k].probes != {} && s.latestFace <= k + cfg.window
  {
    var s := Run(cfg, ops);
    RunInv(cfg, ops);
    RunDrain(cfg, ops);
    DrainInv(s);
    WaitingFrames(Drain(s));
  }

  lemma RunStep(cfg: Config, ops: seq<Op>, op: Op)
    ensures Run(cfg, ops + [op]) == Step(Run(cfg, ops), op)
  {
    assert (ops + [op])[..|ops|] == ops;
  }

  lemma RunDrain(cfg: Config, ops: seq<Op>)
    ensures Run(cfg, ops + [DrainReady]) == Drain(Run(cfg, ops))
  {
    RunStep(cfg, ops, DrainReady);
    DrainIsStep(Run(cfg, ops), DrainReady);
  }

  lemma WaitingFrames(s: State)
    requires Inv(s) && Settled(s)
    ensures DistinctHandovers(s.calls.handedOver)
    ensures forall k :: k in UpdateIds(s.calls.tracked) && k !in HandoverIds(s.calls.handedOver) ==>
              k in s.faceFrames && s.faceFrames[k].probes != {} && s.latestFace <= k + s.cfg.window
  {
  }

  /**
   No probe is applied twice: the results handed over with a frame answer pairwise distinct probes, and its task
   carries exactly what the face result applier makes of them.
   */
  lemma {:induction false} ProbesAppliedOnce(cfg: Config, ops: seq<Op>)
    requires Legal(cfg, ops) && cfg.limit > cfg.window
    ensures forall h :: h in Run(cfg, ops).calls.handedOver ==>
              && (forall i, j :: 0 <= i < j < |h.results| ==> h.results[i].probeId != h.results[j].probeId)
              && h.task.tracks == cfg.apply(h.task.frameId, h.tracked, FaceLists(h.results))
  {
    RunInv(cfg, ops);
    var s := Run(cfg, ops);
    forall i | 0 <= i < |s.calls.handedOver| ensures HandoverInv(s.calls.handedOver[i], cfg) {
    }
  }

  // When a frame is handed over

  ghost predicate ProbedInv(latestFace: int, probed: seq<int>) {
    && (forall i :: 0 <= i < |probed| ==> probed[i] <= latestFace)
    && (latestFace == -1 || latestFace in probed)
  }

  lemma ProbedAppend(latestFace: int, probed: seq<int>, k: int)
    requires ProbedInv(latestFace, probed) && k >= 0
    ensures ProbedInv(Max(latestFace, k), probed + [k])
  {
    assert (probed + [k])[|probed|] == k;
    if latestFace in probed {
      var i :| 0 <= i < |probed| && probed[i] == latestFace;
      assert (probed + [k])[i] == latestFace;
    }
  }

  lemma {:induction false} ProbeFoldProbed(s: State, keys: seq<int>)
    requires (forall k :: k in keys ==> k in s.intake.frames) && (forall k :: k in keys ==> k >= 0)
    requires ProbedInv(s.latestFace, s.calls.probed)
    ensures ProbedInv(ProbeFold(s, keys).latestFace, ProbeFold(s, keys).calls.probed)
    decreases |keys|
  {
    if keys != [] {
      assert keys[0] in keys;
      ProbedAppend(s.latestFace, s.calls.probed, keys[0]);
      assert forall k :: k in keys[1..] ==> k in keys;
      ProbeFoldProbed(ProbeStep(s, keys[0]), keys[1..]);
    }
  }

  lemma {:induction false} ProcessAllProbed(s: State, updates: seq<TrackerUpdate>)
    requires forall i :: 0 <= i < |updates| ==> updates[i].frame.id >= 0
    requires ProbedInv(s.latestFace, s.calls.probed)
    ensures ProbedInv(ProcessAll(s, updates).latestFace, ProcessAll(s, updates).calls.probed)
    decreases |updates|
  {
    if updates != [] {
      ProbedAppend(s.latestFace, s.calls.probed, updates[0].frame.id);
      ProcessAllProbed(ProcessTracked(s, updates[0]), updates[1..]);
    }
  }

  lemma DrainTrackingProbed(s: State)
    requires Inv(s) && ProbedInv(s.latestFace, s.calls.probed)
    ensures ProbedInv(DrainTracking(s).latestFace, DrainTracking(s).calls.probed)
  {
    var r := DrainIntake(s.intake, s.cfg.window);
    DrainIntakeInv(s.intake, s.cfg.window, s.calls.tracked + []);
    forall i | 0 <= i < |r.1| ensures r.1[i].frame.id >= 0 {
      var all := s.calls.tracked + [] + r.1;
      assert all[|s.calls.tracked| + i] == r.1[i];
      assert r.1[i].frame.id in UpdateIds(all);
    }
    ProcessAllProbed(s.(intake := r.0), r.1);
  }

  lemma {:induction false} DrainProbesProbed(s: State)
    requires Inv(s) && ProbedInv(s.latestFace, s.calls.probed)
    ensures ProbedInv(DrainProbes(s).latestFace, DrainProbes(s).calls.probed)
  {
    ProbeFoldProbed(s, SortedKeys(s.intake.frames.Keys));
  }

  lemma {:induction false} DrainProbed(s: State)
    requires Inv(s) && ProbedInv(s.latestFace, s.calls.probed)
    ensures ProbedInv(Drain(s).latestFace, Drain(s).calls.probed)
  {
    DrainProbesInv(s);
    DrainProbesProbed(s);
    DrainTrackingProbed(DrainProbes(s));
  }

  lemma PushProbed(s: State, op: Op)
    requires op != DrainReady
    ensures Step(s, op).latestFace == s.latestFace && Step(s, op).calls == s.calls
  {
  }

  lemma {:induction false} StepProbed(s: State, op: Op)
    requires Inv(s) && ProbedInv(s.latestFace, s.calls.probed)
    ensures ProbedInv(Step(s, op).latestFace, Step(s, op).calls.probed)
  {
    if op == DrainReady {
      DrainProbed(s);
    } else {
      PushProbed(s, op);
    }
  }

  /** latest_face_queued_frame_id_ is the newest frame that probes were issued for. */
  lemma {:induction false} LatestFaceIsNewestProbe(cfg: Config, ops: seq<Op>)
    requires Legal(cfg, ops) && cfg.limit > cfg.window
    ensures ProbedInv(Run(cfg, ops).latestFace, Run(cfg, ops).calls.probed)
    decreases |ops|
  {
    if ops != [] {
      LegalPrefix(cfg, ops);
      LatestFaceIsNewestProbe(cfg, ops[..|ops| - 1]);
      RunInv(cfg, ops[..|ops| - 1]);
      StepProbed(Run(cfg, ops[..|ops| - 1]), ops[|ops| - 1]);
    }
  }

  /** Tracking new frames leaves the entries of earlier frames alone. */
  lemma {:induction false} ProcessAllOthers(s: State, updates: seq<TrackerUpdate>, k: int)
    requires k !in UpdateIds(updates)
    ensures var t := ProcessAll(s, updates);
            && (k in t.faceFrames <==> k in s.faceFrames)
            && (k in s.faceFrames ==> t.faceFrames[k] == s.faceFrames[k])
            && (k in HandoverIds(t.calls.handedOver) <==> k in HandoverIds(s.calls.handedOver))
    decreases |updates|
  {
    if updates != [] {
      assert updates == [] + [updates[0]] + updates[1..];
      PrependUpdate([], updates[0], updates[1..]);
      ProcessTrackedOthers(s, updates[0], k);
      ProcessAllOthers(ProcessTracked(s, updates[0]), updates[1..], k);
    }
  }

  lemma ProcessTrackedOthers(s: State, u: TrackerUpdate, k: int)
    requires k != u.frame.id
    ensures var t := ProcessTracked(s, u);
            && (k in t.faceFrames <==> k in s.faceFrames)
            && (k in s.faceFrames ==> t.faceFrames[k] == s.faceFrames[k])
            && (k in HandoverIds(t.calls.handedOver) <==> k in HandoverIds(s.calls.handedOver))
  {
    var t := TrackFrame(s, u);
    HandoverIdsAppend(t.calls.handedOver, MakeHandover(s.cfg, t.faceFrames[u.frame.id]));
  }

  lemma {:induction false} ProbeFoldFaces(s: State, keys: seq<int>)
    requires forall k :: k in keys ==> k in s.intake.frames
    ensures ProbeFold(s, keys).faceFrames == s.faceFrames
    ensures ProbeFold(s, keys).calls.handedOver == s.calls.handedOver
    decreases |keys|
  {
    if keys != [] {
      ProbeFoldFaces(ProbeStep(s, keys[0]), keys[1..]);
    }
  }

  /** The probes still open for a new entry: those issued ahead and not answered early, or those planned for it now. */
  ghost function NewProbes(s: State, frame: Frame): set<string> {
    NewFaceFrame(s, frame, []).probes
  }

  /** The probes that are open for a frame by the time the drain looks at it. */
  ghost function OpenProbes(s: State, k: int): set<string> {
    if k in s.faceFrames then s.faceFrames[k].probes
    else if k in s.intake.frames then NewProbes(DrainProbes(s), s.intake.frames[k])
    else {}
  }

  lemma NewlyTracked(s: State, u: TrackerUpdate)
    requires u.frame.id !in HandoverIds(s.calls.handedOver)
    ensures var t, k := ProcessTracked(s, u), u.frame.id;
            && k in t.faceFrames && t.faceFrames[k].probes == NewProbes(s, u.frame)
            && (k in HandoverIds(t.calls.handedOver) <==> NewProbes(s, u.frame) == {})
  {
    var t := TrackFrame(s, u);
    HandoverIdsAppend(t.calls.handedOver, MakeHandover(s.cfg, t.faceFrames[u.frame.id]));
  }

  /** Tracking one frame does not change which probes another one will have. */
  lemma ProbesOfOthers(s: State, u: TrackerUpdate, frame: Frame)
    requires u.frame.id != frame.id
    ensures NewProbes(ProcessTracked(s, u), frame) == NewProbes(s, frame)
  {
  }

  lemma {:induction false} AllNewlyTracked(s: State, updates: seq<TrackerUpdate>, i: nat)
    requires IncreasingUpdates(updates) && i < |updates|
    requires updates[i].frame.id !in HandoverIds(s.calls.handedOver)
    ensures var t, u := ProcessAll(s, updates), updates[i];
            && u.frame.id in t.faceFrames && t.faceFrames[u.frame.id].probes == NewProbes(s, u.frame)
            && (u.frame.id in HandoverIds(t.calls.handedOver) <==> NewProbes(s, u.frame) == {})
    decreases |updates|
  {
    var first, rest := updates[0], updates[1..];
    if i == 0 {
      NewlyTracked(s, first);
      ProcessAllOthers(ProcessTracked(s, first), rest, first.frame.id);
    } else {
      assert rest[i - 1] == updates[i];
      ProcessTrackedOthers(s, first, updates[i].frame.id);
      ProbesOfOthers(s, first, updates[i].frame);
      AllNewlyTracked(ProcessTracked(s, first), rest, i - 1);
    }
  }

  /** Tracked frames are the pending ones. */
  lemma {:induction false} LoopTracksPending(q: Intake, window: int, u: TrackerUpdate)
    requires u in IntakeLoop(q, window).1 && forall k :: k in q.frames ==> q.frames[k].id == k
    ensures u.frame.id in q.frames && q.frames[u.frame.id] == u.frame
    decreases |q.frames|, if q.next in q.frames then 0 else 1
  {
    if q.next in q.frames {
      assert (q.frames - {q.next}).Keys == q.frames.Keys - {q.next};
      LoopUnrolls(q, window);
      if u in IntakeLoop(Advance(q), window).1 {
        LoopTracksPending(Advance(q), window, u);
      }
    } else {
      LoopTracksPending(q.(next := Least(q.frames.Keys)), window, u);
    }
  }

  /**
   A drain hands over a tracked frame, be it one that was still waiting or one that the drain itself tracks, exactly when
   no probe is open for it or a face probe more than the window newer is out by then.
   */
  lemma {:induction false} HandedOverExactlyWhenDue(cfg: Config, ops: seq<Op>, k: int)
    requires Legal(cfg, ops) && cfg.limit > cfg.window
    requires k !in HandoverIds(Run(cfg, ops).calls.handedOver)
    requires k in UpdateIds(Run(cfg, ops + [DrainReady]).calls.tracked)
    ensures var s := Run(cfg, ops + [DrainReady]);
            k in HandoverIds(s.calls.handedOver) <==>
              OpenProbes(Run(cfg, ops), k) == {} || s.latestFace - k > cfg.window
  {
    var s := Run(cfg, ops);
    RunInv(cfg, ops);
    RunDrain(cfg, ops);
    if k in UpdateIds(s.calls.tracked) {
      WaitingBefore(s, k);
    } else {
      TrackedNow(s, k);
    }
    DrainHandsOver(s, k, OpenProbes(s, k));
  }

  /** A frame waits after the tracking stage with these open probes, or has been handed over because there are none. */
  ghost predicate WaitsWith(s: State, k: int, probes: set<string>) {
    && k in s.faceFrames && s.faceFrames[k].probes == probes
    && (k in HandoverIds(s.calls.handedOver) ==> probes == {})
  }

  lemma WaitingBefore(s: State, k: int)
    requires Inv(s) && k in UpdateIds(s.calls.tracked) && k !in HandoverIds(s.calls.handedOver)
    ensures WaitsWith(DrainTracking(DrainProbes(s)), k, OpenProbes(s, k))
  {
    ProbeFoldFaces(s, SortedKeys(s.intake.frames.Keys));
    var s1 := DrainProbes(s);
    DrainProbesInv(s);
    var r := DrainIntake(s1.intake, s.cfg.window);
    TrackedOnce(s1, k);
    ProcessAllOthers(s1.(intake := r.0), r.1, k);
  }

  lemma TrackedByLoop(s: State, k: int)
    requires Inv(s) && k !in UpdateIds(s.calls.tracked) && k !in HandoverIds(s.calls.handedOver)
    requires k in UpdateIds(DrainTracking(s).calls.tracked)
    ensures k in s.intake.frames && WaitsWith(DrainTracking(s), k, NewProbes(s, s.intake.frames[k]))
  {
    DrainTrackingInv(s);
    var updates := DrainIntake(s.intake, s.cfg.window).1;
    UpdateIdsConcat(s.calls.tracked, updates);
    var i :| 0 <= i < |updates| && updates[i].frame.id == k;
    TrackedAt(s, updates, i);
  }

  lemma TrackedAt(s: State, updates: seq<TrackerUpdate>, i: nat)
    requires Inv(s) && updates == DrainIntake(s.intake, s.cfg.window).1 && i < |updates|
    requires updates[i].frame.id !in HandoverIds(s.calls.handedOver)
    ensures var k := updates[i].frame.id;
            k in s.intake.frames && WaitsWith(DrainTracking(s), k, NewProbes(s, s.intake.frames[k]))
  {
    FrameOfUpdate(s, updates[i]);
    NewUpdatesIncrease(s);
    AllNewlyTracked(s.(intake := DrainIntake(s.intake, s.cfg.window).0), updates, i);
  }

  lemma FrameOfUpdate(s: State, u: TrackerUpdate)
    requires Inv(s) && u in DrainIntake(s.intake, s.cfg.window).1
    ensures u.frame.id in s.intake.frames && s.intake.frames[u.frame.id] == u.frame
  {
    LoopTracksPending(StartIntake(s.intake), s.cfg.window, u);
  }

  lemma DrainTracked(s: State)
    ensures Drain(s).calls.tracked == DrainTracking(DrainProbes(s)).calls.tracked
  {
  }

  lemma TrackedNow(s: State, k: int)
    requires Inv(s) && k !in UpdateIds(s.calls.tracked) && k !in HandoverIds(s.calls.handedOver)
    requires k in UpdateIds(Drain(s).calls.tracked)
    ensures WaitsWith(DrainTracking(DrainProbes(s)), k, OpenProbes(s, k))
  {
    DrainTracked(s);
    DrainProbesInv(s);
    ProbeFoldFaces(s, SortedKeys(s.intake.frames.Keys));
    TrackedByLoop(DrainProbes(s), k);
  }

  lemma NewUpdatesIncrease(s: State)
    requires Inv(s)
    ensures IncreasingUpdates(DrainIntake(s.intake, s.cfg.window).1)
  {
    var r := DrainIntake(s.intake, s.cfg.window);
    assert s.calls.tracked + [] == s.calls.tracked;
    DrainIntakeInv(s.intake, s.cfg.window, s.calls.tracked);
    TailIncreases(s.calls.tracked, r.1);
  }

  lemma TailIncreases(log: seq<TrackerUpdate>, tail: seq<TrackerUpdate>)
    requires IncreasingUpdates(log + tail)
    ensures IncreasingUpdates(tail)
  {
    var all := log + tail;
    forall i, j | 0 <= i < j < |tail| ensures tail[i].frame.id < tail[j].frame.id {
      assert all[|log| + i] == tail[i] && all[|log| + j] == tail[j];
    }
  }

  lemma {:induction false} DrainHandsOver(s: State, k: int, probes: set<string>)
    requires Inv(s) && WaitsWith(DrainTracking(DrainProbes(s)), k, probes)
    ensures k in HandoverIds(Drain(s).calls.handedOver) <==> probes == {} || Drain(s).latestFace - k > s.cfg.window
  {
    var s1 := DrainProbes(s);
    DrainProbesInv(s);
    DrainTrackingInv(s1);
    SweepHandsOver(DrainTracking(s1), k, probes);
  }

  lemma SweepHandsOver(s: State, k: int, probes: set<string>)
    requires Inv(s) && WaitsWith(s, k, probes)
    ensures k in HandoverIds(DrainFaces(s).calls.handedOver) <==> probes == {} || s.latestFace - k > s.cfg.window
  {
    var keys := SortedKeys(s.faceFrames.Keys);
    DueSpec(s.cfg, s.faceFrames, keys, s.latestFace);
    HandoverIdsConcat(s.calls.handedOver, DueHandovers(s.cfg, s.faceFrames, keys, s.latestFace));
    Provenance(s);
    assert k in UpdateIds(s.calls.tracked);
  }

  lemma TrackedOnce(s: State, k: int)
    requires Inv(s) && k in UpdateIds(s.calls.tracked)
    ensures k !in UpdateIds(DrainIntake(s.intake, s.cfg.window).1)
  {
    var r := DrainIntake(s.intake, s.cfg.window);
    assert s.calls.tracked + [] == s.calls.tracked;
    DrainIntakeInv(s.intake, s.cfg.window, s.calls.tracked);
    var all := s.calls.tracked + r.1;
    var i :| 0 <= i < |s.calls.tracked| && s.calls.tracked[i].frame.id == k;
    forall j | 0 <= j < |r.1| ensures r.1[j].frame.id != k {
      assert all[i] == s.calls.tracked[i] && all[|s.calls.tracked| + j] == r.1[j];
    }
  }

  /**
   Where recognition starts. The frontier is set by the first results that a drain finds, not by the first frame that
   was handed over: a result for an earlier frame that arrives after that drain is ignored, even well within the window.
   */
  lemma {:induction false} FirstResultStartsRecognition(cfg: Config, ops: seq<Op>, r: Item)
    requires Legal(cfg, ops) && cfg.limit > cfg.window
    requires Run(cfg, ops).calls.identityTasks == [] && Run(cfg, ops).recognition.pending != map[]
    requires r.frameId < Least(Run(cfg, ops).recognition.pending.Keys)
    ensures Run(cfg, ops + [DrainReady] + [Recognition(r)]) == Run(cfg, ops + [DrainReady])
  {
    RunInv(cfg, ops);
    RunDrain(cfg, ops);
    RunStep(cfg, ops + [DrainReady], Recognition(r));
    NoTasksYet(Run(cfg, ops));
    DrainStartsRecognition(Run(cfg, ops));
    StaleResultIgnored(Run(cfg, ops + [DrainReady]), r);
  }

  lemma NoTasksYet(s: State)
    requires Inv(s) && s.calls.identityTasks == []
    ensures s.recognition.next == -1
  {
  }

  lemma StaleResultIgnored(s: State, r: Item)
    requires s.recognition.next >= 0 && r.frameId < s.recognition.next
    ensures Step(s, Recognition(r)) == s
  {
  }

  lemma {:induction false} DrainStartsRecognition(s: State)
    requires Inv(s) && Roomy(s) && s.recognition.next == -1 && s.recognition.pending != map[]
    ensures Drain(s).recognition.next > Least(s.recognition.pending.Keys) >= 0
  {
    var s1 := DrainProbes(s);
    ProbeFoldRecognition(s, SortedKeys(s.intake.frames.Keys));
    var r := DrainIntake(s1.intake, s.cfg.window);
    ProcessAllRecognition(s1.(intake := r.0), r.1);
    var s3 := DrainFaces(DrainTracking(s1));
    FirstTaken(s.recognition, s3.latestRecognition, s.cfg.window);
    assert Least(s.recognition.pending.Keys) in s.recognition.pending;
    DrainStagesInv(s);
    TrimIdle(DrainStages(s));
  }

  lemma {:induction false} ProbeFoldRecognition(s: State, keys: seq<int>)
    requires forall k :: k in keys ==> k in s.intake.frames
    ensures ProbeFold(s, keys).recognition == s.recognition && ProbeFold(s, keys).cfg == s.cfg
    decreases |keys|
  {
    if keys != [] {
      ProbeFoldRecognition(ProbeStep(s, keys[0]), keys[1..]);
    }
  }

  lemma {:induction false} ProcessAllRecognition(s: State, updates: seq<TrackerUpdate>)
    ensures ProcessAll(s, updates).recognition == s.recognition && ProcessAll(s, updates).cfg == s.cfg
    decreases |updates|
  {
    if updates != [] {
      ProcessAllRecognition(ProcessTracked(s, updates[0]), updates[1..]);
    }
  }

  // Between two drains the order of arrival does not matter

  ghost function FrameOf(op: Op): int {
    match op
    case FrameIn(frame) => frame.id
    case Detection(id, _) => id
    case FaceAnswer(r) => r.frameId
    case Recognition(r) => r.frameId
    case Identity(r) => r.frameId
    case DrainReady => -1
  }

  /** The two calls are of the same kind and about the same frame. */
  ghost predicate SameSlot(a: Op, b: Op) {
    && FrameOf(a) == FrameOf(b)
    && (a.FrameIn? == b.FrameIn?) && (a.Detection? == b.Detection?) && (a.FaceAnswer? == b.FaceAnswer?)
    && (a.Recognition? == b.Recognition?) && (a.Identity? == b.Identity?)
  }

  ghost function Answered(p: PendingFaceFrame, r: FaceResult): PendingFaceFrame {
    if r.probeId !in p.probes then p else p.(probes := p.probes - {r.probeId}, results := p.results + [r])
  }

  /** The early results after one more. */
  ghost function WithEarly(s: State, r: FaceResult): map<int, seq<FaceResult>> {
    if s.cfg.independent && (s.commit.next < 0 || r.frameId >= s.commit.next) then
      s.early[r.frameId := EarlyAt(s.early, r.frameId) + [r]]
    else s.early
  }

  lemma PushFaceIs(s: State, r: FaceResult)
    ensures PushFace(s, r)
         == if r.frameId in s.faceFrames then
              s.(faceFrames := s.faceFrames[r.frameId := Answered(s.faceFrames[r.frameId], r)])
            else s.(early := WithEarly(s, r))
  {
    if r.frameId in s.faceFrames {
      assert s.faceFrames == s.faceFrames[r.frameId := s.faceFrames[r.frameId]];
    }
  }

  lemma PushFaceCommutes(s: State, a: FaceResult, b: FaceResult)
    requires a.frameId != b.frameId
    ensures PushFace(PushFace(s, a), b) == PushFace(PushFace(s, b), a)
  {
    PushFaceIs(s, a);
    PushFaceIs(s, b);
    PushFaceIs(PushFace(s, a), b);
    PushFaceIs(PushFace(s, b), a);
    var t, u := PushFace(PushFace(s, a), b), PushFace(PushFace(s, b), a);
    assert t.early == u.early;
    assert t.faceFrames == u.faceFrames;
  }

  lemma PushStageCommutes(stage: Stage, a: Item, b: Item)
    requires a.frameId != b.frameId
    ensures PushStage(PushStage(stage, a), b) == PushStage(PushStage(stage, b), a)
  {
  }

  lemma PushFrameCommutes(s: State, a: Frame, b: Frame)
    requires a.id != b.id
    ensures PushFrame(PushFrame(s, a), b) == PushFrame(PushFrame(s, b), a)
  {
    assert s.intake.frames[a.id := a][b.id := b] == s.intake.frames[b.id := b][a.id := a];
  }

  lemma PushDetectionCommutes(s: State, i: int, x: seq<Box>, j: int, y: seq<Box>)
    requires i != j
    ensures PushDetection(PushDetection(s, i, x), j, y) == PushDetection(PushDetection(s, j, y), i, x)
  {
    assert s.intake.detections[i := x][j := y] == s.intake.detections[j := y][i := x];
  }

  lemma PushFaceAside(s: State, r: FaceResult, b: Op)
    requires b != DrainReady && !b.FaceAnswer?
    ensures Step(PushFace(s, r), b) == PushFace(Step(s, b), r)
  {
    PushFaceIs(s, r);
    PushFaceIs(Step(s, b), r);
    match b
    case FrameIn(f) =>
    case Detection(i, x) =>
    case Recognition(x) =>
    case Identity(x) =>
  }

  lemma OtherKindsCommute(s: State, a: Op, b: Op)
    requires a != DrainReady && b != DrainReady && !a.FaceAnswer? && !b.FaceAnswer?
    requires a.FrameIn? != b.FrameIn? || a.Detection? != b.Detection? || a.Recognition? != b.Recognition?
    ensures Step(Step(s, a), b) == Step(Step(s, b), a)
  {
  }

  /** Pushes commute unless they are of the same kind and about the same frame. */
  lemma PushesCommute(s: State, a: Op, b: Op)
    requires a != DrainReady && b != DrainReady && !SameSlot(a, b)
    ensures Step(Step(s, a), b) == Step(Step(s, b), a)
  {
    if a.FaceAnswer? && b.FaceAnswer? {
      PushFaceCommutes(s, a.face, b.face);
    } else if a.FaceAnswer? {
      PushFaceAside(s, a.face, b);
    } else if b.FaceAnswer? {
      PushFaceAside(s, b.face, a);
    } else if a.FrameIn? && b.FrameIn? {
      PushFrameCommutes(s, a.frame, b.frame);
    } else if a.Detection? && b.Detection? {
      PushDetectionCommutes(s, a.frameId, a.boxes, b.frameId, b.boxes);
    } else if a.Recognition? && b.Recognition? {
      PushStageCommutes(s.recognition, a.item, b.item);
    } else if a.Identity? && b.Identity? {
      PushStageCommutes(s.commit, a.item, b.item);
    } else {
      OtherKindsCommute(s, a, b);
    }
  }

  /** Runs that have reached the same state do not part again. */
  lemma {:induction false} SameThereafter(cfg: Config, one: seq<Op>, two: seq<Op>, after: seq<Op>)
    requires Run(cfg, one) == Run(cfg, two)
    ensures Run(cfg, one + after) == Run(cfg, two + after)
    decreases |after|
  {
    if after == [] {
      assert one + after == one && two + after == two;
    } else {
      var most, last := after[..|after| - 1], after[|after| - 1];
      SameThereafter(cfg, one, two, most);
      RunStep(cfg, one + most, last);
      RunStep(cfg, two + most, last);
      Sequences.SplitLastAfter(one, after);
      Sequences.SplitLastAfter(two, after);
    }
  }

  lemma SwapPushes(cfg: Config, before: seq<Op>, a: Op, b: Op)
    requires a != DrainReady && b != DrainReady && !SameSlot(a, b)
    ensures Run(cfg, before + [a] + [b]) == Run(cfg, before + [b] + [a])
  {
    RunStep(cfg, before, a);
    RunStep(cfg, before + [a], b);
    RunStep(cfg, before, b);
    RunStep(cfg, before + [b], a);
    PushesCommute(Run(cfg, before), a, b);
  }

  /** So swapping two such pushes that follow each other changes nothing in the rest of any run. */
  lemma ArrivalOrderIsInvisible(cfg: Config, before: seq<Op>, a: Op, b: Op, after: seq<Op>)
    requires a != DrainReady && b != DrainReady && !SameSlot(a, b)
    ensures Run(cfg, before + [a] + [b] + after) == Run(cfg, before + [b] + [a] + after)
  {
    SwapPushes(cfg, before, a, b);
    SameThereafter(cfg, before + [a] + [b], before + [b] + [a], after);
  }

  lemma LastPushCounts(s: State, a: Op, b: Op)
    requires a != DrainReady && !a.FaceAnswer? && SameSlot(a, b)
    ensures b != DrainReady && Step(Step(s, a), b) == Step(s, b)
  {
    match (a, b)
    case (FrameIn(f), FrameIn(g)) => assert s.intake.frames[f.id := f][g.id := g] == s.intake.frames[g.id := g];
    case (Detection(i, x), Detection(j, y)) => assert s.intake.detections[i := x][j := y] == s.intake.detections[j := y];
    case (Recognition(x), Recognition(y)) =>
      assert s.recognition.pending[x.frameId := x][y.frameId := y] == s.recognition.pending[y.frameId := y];
    case (Identity(x), Identity(y)) =>
      assert s.commit.pending[x.frameId := x][y.frameId := y] == s.commit.pending[y.frameId := y];
    case _ =>
  }

  lemma DropEarlierPush(cfg: Config, before: seq<Op>, a: Op, b: Op)
    requires a != DrainReady && !a.FaceAnswer? && SameSlot(a, b)
    ensures Run(cfg, before + [a] + [b]) == Run(cfg, before + [b])
  {
    RunStep(cfg, before, a);
    RunStep(cfg, before + [a], b);
    RunStep(cfg, before, b);
    LastPushCounts(Run(cfg, before), a, b);
  }

  lemma {:induction false} DropSuperseded(cfg: Config, before: seq<Op>, a: Op, between: seq<Op>, b: Op)
    requires a != DrainReady && !a.FaceAnswer? && SameSlot(a, b) && DrainReady !in between
    ensures Run(cfg, before + [a] + between + [b]) == Run(cfg, before + between + [b])
    decreases |between|
  {
    if between == [] {
      assert before + [a] + between == before + [a] && before + between == before;
      DropEarlierPush(cfg, before, a, b);
    } else {
      var c, rest := between[0], between[1..];
      assert before + [a] + between + [b] == before + [a] + [c] + (rest + [b]);
      assert before + between + [b] == before + [c] + rest + [b] == before + [c] + (rest + [b]);
      if SameSlot(a, c) {
        DropEarlierPush(cfg, before, a, c);
        SameThereafter(cfg, before + [a] + [c], before + [c], rest + [b]);
      } else {
        SwapPushes(cfg, before, a, c);
        SameThereafter(cfg, before + [a] + [c], before + [c] + [a], rest + [b]);
        assert before + [c] + [a] + (rest + [b]) == before + [c] + [a] + rest + [b];
        DropSuperseded(cfg, before + [c], a, rest, b);
      }
    }
  }

  /**
   A frame, a list of detections or a stage result that is pushed again before the next drain might as well never have
   been pushed the first time, whatever is pushed in between and whatever follows.
   */
  lemma SupersededIsInvisible(cfg: Config, before: seq<Op>, a: Op, between: seq<Op>, b: Op, after: seq<Op>)
    requires a != DrainReady && !a.FaceAnswer? && SameSlot(a, b) && DrainReady !in between
    ensures Run(cfg, before + [a] + between + [b] + after) == Run(cfg, before + between + [b] + after)
  {
    DropSuperseded(cfg, before, a, between, b);
    SameThereafter(cfg, before + [a] + between + [b], before + between + [b], after);
  }
}
