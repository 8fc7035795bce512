/**
 Where the reorder buffer loses something although nothing was late: the exact conditions, and runs in which it happens.
 */
module CoordinatorGaps {
  import opened Types
  import opened OrderedKeys
  import opened CoordinatorSpec
  import opened CoordinatorInvariants
  import opened CoordinatorDrains
  import opened CoordinatorTheorems
  import opened CoordinatorCommits
  import opened CoordinatorTracking

  // Recognition results

  /** The recognition stage has started past this frame: its first identity task was for a newer one. */
  ghost predicate StartedPast(s: State, k: int) {
    s.calls.identityTasks != [] && k < s.calls.identityTasks[0].frameId
  }

  /**
   A recognition result within the window of the newest recognition task is ignored in exactly two cases: its frame has
   its identity task already, or the recognition stage started past it.
   */
  lemma {:induction false} IgnoredWithinWindow(cfg: Config, ops: seq<Op>, r: Item)
    requires Legal(cfg, ops) && Allowed(Run(cfg, ops), Recognition(r)) && cfg.limit > cfg.window
    requires Run(cfg, ops).latestRecognition - r.frameId <= cfg.window
    ensures var s, t := Run(cfg, ops), Run(cfg, ops + [Recognition(r)]);
            var ignored := r.frameId in ItemIds(s.calls.identityTasks) || StartedPast(s, r.frameId);
            && (ignored ==> t == s)
            && (ignored <==> r.frameId !in t.recognition.pending)
            && (!ignored ==> t.recognition.pending[r.frameId] == r)
  {
    var s := Run(cfg, ops);
    RunInv(cfg, ops);
    RunStep(cfg, ops, Recognition(r));
    FrontierWithinWindow(s, r.frameId);
  }

  /** Within the window the frontier has passed an id only for one of the two reasons. */
  lemma FrontierWithinWindow(s: State, k: int)
    requires Inv(s) && s.latestRecognition - k <= s.cfg.window
    ensures s.recognition.next >= 0 && k < s.recognition.next
       <==> k in ItemIds(s.calls.identityTasks) || StartedPast(s, k)
  {
    if s.calls.identityTasks != [] {
      assert s.calls.identityTasks[0].frameId in ItemIds(s.calls.identityTasks);
      assert !GivenUp(k, s.calls.identityTasks[0].frameId, s.recognition.next, ItemIds(s.calls.identityTasks));
    }
  }

  ghost predicate LogsGrow(s: State, t: State) {
    s.calls.identityTasks <= t.calls.identityTasks && s.calls.committed <= t.calls.committed
  }

  lemma StepGrows(cfg: Config, ops: seq<Op>, op: Op)
    ensures LogsGrow(Run(cfg, ops), Run(cfg, ops + [op]))
  {
    if op == DrainReady {
      CommitsCarryLatest(cfg, ops);
    } else {
      OnlyDrainsAct(cfg, ops, op);
    }
  }

  lemma {:induction false} RunGrows(cfg: Config, ops: seq<Op>, more: seq<Op>)
    ensures LogsGrow(Run(cfg, ops), Run(cfg, ops + more))
    decreases |more|
  {
    if more == [] {
      assert ops + more == ops;
    } else {
      var most, last := more[..|more| - 1], more[|more| - 1];
      RunGrows(cfg, ops, most);
      StepGrows(cfg, ops + most, last);
      assert ops + most + [last] == ops + more;
    }
  }

  /** What the stage started past is lost for good: whatever happens later, the frame is never identified or committed. */
  lemma StartedPastIsFinal(cfg: Config, ops: seq<Op>, more: seq<Op>, k: int)
    requires StartedPast(Run(cfg, ops), k)
    ensures k !in ItemIds(Run(cfg, ops + more).calls.identityTasks)
    ensures Legal(cfg, ops + more) && cfg.limit > cfg.window ==> k !in ItemIds(Run(cfg, ops + more).calls.committed)
  {
    RunGrows(cfg, ops, more);
    CommitsIncrease(cfg, ops + more);
    var tasks := Run(cfg, ops + more).calls.identityTasks;
    assert tasks[0] == Run(cfg, ops).calls.identityTasks[0];
    if Legal(cfg, ops + more) && cfg.limit > cfg.window {
      FrontiersInOrder(cfg, ops + more);
    }
  }

  // A run that loses a result

  function Camera(window: nat): Config {
    ConfigData(window, window + 1, false, false, (id: int, tracks: seq<Box>, faces: seq<seq<Face>>) => tracks,
               (updates: seq<TrackerUpdate>) => [])
  }

  function FrameAt(k: int): Frame {
    Frame("camera", k, 1, 1, false)
  }

  /** The result for the task of frame `k`, which has no boxes. */
  function Answer(k: int): Op {
    Recognition(Item(k, FrameAt(k), []))
  }

  /** Two frames arrive with their detections. */
  function TwoFrames(): seq<Op> {
    [FrameIn(FrameAt(0)), Detection(0, []), FrameIn(FrameAt(1)), Detection(1, [])]
  }

  lemma TwoFramesPending(window: nat)
    ensures Run(Camera(window), TwoFrames())
         == Initial(Camera(window)).(intake := Intake(-1, map[0 := FrameAt(0), 1 := FrameAt(1)], map[0 := [], 1 := []]))
  {
    var cfg := Camera(window);
    var f0, d0, f1, d1 := FrameIn(FrameAt(0)), Detection(0, []), FrameIn(FrameAt(1)), Detection(1, []);
    RunStep(cfg, [], f0);
    RunStep(cfg, [f0], d0);
    RunStep(cfg, [f0, d0], f1);
    RunStep(cfg, [f0, d0, f1], d1);
    assert [] + [f0] == [f0] && [f0] + [d0] == [f0, d0] && [f0, d0] + [f1] == [f0, d0, f1];
    assert [f0, d0, f1] + [d1] == TwoFrames();
    assert Run(cfg, [f0]) == Initial(cfg).(intake := Intake(-1, map[0 := FrameAt(0)], map[]));
    assert Run(cfg, [f0, d0]) == Initial(cfg).(intake := Intake(-1, map[0 := FrameAt(0)], map[0 := []]));
    assert Run(cfg, [f0, d0, f1])
        == Initial(cfg).(intake := Intake(-1, map[0 := FrameAt(0), 1 := FrameAt(1)], map[0 := []]));
  }

  lemma TwoFramesTracked(window: nat)
    ensures var q := Intake(-1, map[0 := FrameAt(0), 1 := FrameAt(1)], map[0 := [], 1 := []]);
            DrainIntake(q, window)
            == (Intake(2, map[], map[]), [TrackerUpdate(FrameAt(0), []), TrackerUpdate(FrameAt(1), [])])
  {
    var q := Intake(-1, map[0 := FrameAt(0), 1 := FrameAt(1)], map[0 := [], 1 := []]);
    assert 0 in q.frames.Keys;
    var q0 := StartIntake(q);
    assert q0.next == 0;
    var q1 := Intake(1, map[1 := FrameAt(1)], map[1 := []]);
    var q2 := Intake(2, map[], map[]);
    assert Advance(q0) == q1 && Advance(q1) == q2;
    LoopUnrolls(q0, window);
    LoopUnrolls(q1, window);
    LoopUnrolls(q2, window);
    var u0, u1 := TrackerUpdate(FrameAt(0), []), TrackerUpdate(FrameAt(1), []);
    assert IntakeLoop(q2, window) == (q2, []);
    assert NextUpdate(q1) == u1 && [u1] + [] == [u1];
    assert IntakeLoop(q1, window) == (q2, [u1]);
    assert NextUpdate(q0) == u0 && [u0] + [u1] == [u0, u1];
    assert IntakeLoop(q0, window) == (q2, [u0, u1]);
    assert DropStaleDetections(q2) == q2;
  }

  /** A frame without probes is handed over as soon as it is tracked. */
  lemma TrackedAtOnce(s: State, k: int)
    requires !s.cfg.faceDetection && k >= 0 && s.early == map[] && s.cfg == Camera(s.cfg.window)
    ensures var t, h := ProcessTracked(s, TrackerUpdate(FrameAt(k), [])), Handover(Item(k, FrameAt(k), []), [], []);
            && t == s.(faceFrames := t.faceFrames, latestRecognition := Max(s.latestRecognition, k), early := map[],
                       commit := s.commit.(next := if s.commit.next < 0 then k else s.commit.next),
                       calls := s.calls.(tracked := s.calls.tracked + [TrackerUpdate(FrameAt(k), [])],
                                         handedOver := s.calls.handedOver + [h]))
            && t.faceFrames.Keys == s.faceFrames.Keys + {k} && t.faceFrames[k].queued
            && (forall x :: x in s.faceFrames && x != k ==> t.faceFrames[x] == s.faceFrames[x])
  {
    var u := TrackerUpdate(FrameAt(k), []);
    var t := TrackFrame(s, u);
    assert ResetTracks([]) == [];
    assert t.faceFrames[k] == PendingFaceFrame(FrameAt(k), [], {}, [], false);
    assert FaceLists([]) == [];
  }

  lemma BothHandedOver(s: State, window: nat)
    requires s == Initial(Camera(window)).(intake := Intake(2, map[], map[]))
    ensures var t := ProcessAll(s, [TrackerUpdate(FrameAt(0), []), TrackerUpdate(FrameAt(1), [])]);
            && (forall k :: k in t.faceFrames ==> t.faceFrames[k].queued)
            && t == HandedOverBoth(window).(faceFrames := t.faceFrames)
  {
    var u0, u1 := TrackerUpdate(FrameAt(0), []), TrackerUpdate(FrameAt(1), []);
    var s1 := ProcessTracked(s, u0);
    TrackedAtOnce(s, 0);
    TrackedAtOnce(s1, 1);
    var s2 := ProcessTracked(s1, u1);
    assert [u0, u1][1..] == [u1] && [u1][1..] == [];
    assert ProcessAll(s2, []) == s2;
    assert ProcessAll(s1, [u1]) == s2;
    assert ProcessAll(s, [u0, u1]) == s2;
  }

  lemma {:induction false} NothingDue(cfg: Config, all: map<int, PendingFaceFrame>, keys: seq<int>, latestFace: int)
    requires (forall k :: k in keys ==> k in all) && forall k :: k in all ==> all[k].queued
    ensures DueHandovers(cfg, all, keys, latestFace) == []
    decreases |keys|
  {
    if keys != [] {
      assert keys[0] in keys;
      NothingDue(cfg, all, keys[1..], latestFace);
    }
  }

  /** A drain in which every entry has been handed over and no result has arrived. */
  lemma SweepsQueued(s: State)
    requires forall k :: k in s.faceFrames ==> s.faceFrames[k].queued
    ensures DrainFaces(s) == s.(faceFrames := map[])
  {
    NothingDue(s.cfg, s.faceFrames, SortedKeys(s.faceFrames.Keys), s.latestFace);
    NothingWaits(s.faceFrames, s.latestFace, s.cfg.window);
    assert s.calls.handedOver + [] == s.calls.handedOver;
  }

  lemma NothingWaits(all: map<int, PendingFaceFrame>, latestFace: int, window: int)
    requires forall k :: k in all ==> all[k].queued
    ensures StillWaiting(all, [], latestFace, window) == map[]
  {
  }

  lemma NoResultsYet(s: State)
    requires s.recognition == Stage(-1, map[])
    ensures DrainRecognition(s) == s
  {
    assert DropStale(Stage(-1, map[])) == Stage(-1, map[]);
    assert s.calls.identityTasks + [] == s.calls.identityTasks;
  }

  lemma NothingToCommit(s: State)
    requires s.commit == Stage(0, map[]) && s.latestIdentity <= s.cfg.window
    ensures DrainCommit(s) == s
  {
    assert ReorderLoop(s.commit, s.latestIdentity, s.cfg.window) == (s.commit, []);
    assert DropStale(s.commit) == s.commit;
    assert s.calls.committed + [] == s.calls.committed;
  }

  lemma NothingToTrim(s: State)
    requires s.intake == Intake(2, map[], map[]) && s.queuedProbes == map[] && s.early == map[] && s.faceFrames == map[]
    requires s.recognition.pending == map[] && s.commit.pending == map[]
    ensures Trim(s) == s
  {
  }

  ghost function BothTasks(): seq<Handover> {
    [Handover(Item(0, FrameAt(0), []), [], []), Handover(Item(1, FrameAt(1), []), [], [])]
  }

  /** Both frames have been handed over and nothing else is pending. */
  ghost function HandedOverBoth(window: nat): State {
    var updates := [TrackerUpdate(FrameAt(0), []), TrackerUpdate(FrameAt(1), [])];
    Initial(Camera(window)).(intake := Intake(2, map[], map[]), commit := Stage(0, map[]), latestRecognition := 1,
                             calls := Calls(updates, [], BothTasks(), [], []))
  }

  lemma FirstDrain(window: nat)
    ensures Run(Camera(window), TwoFrames() + [DrainReady]) == HandedOverBoth(window)
  {
    var cfg := Camera(window);
    var s := Run(cfg, TwoFrames());
    TwoFramesPending(window);
    RunDrain(cfg, TwoFrames());
    TwoFramesTracked(window);
    assert DrainProbes(s) == s;
    BothHandedOver(s.(intake := Intake(2, map[], map[])), window);
    var t := DrainTracking(s);
    SweepsQueued(t);
    var t3 := DrainFaces(t);
    NoResultsYet(t3);
    NothingToCommit(t3);
    NothingToTrim(t3);
  }

  /** Both frames are with the recognizer; the result for the second arrives, and a drain takes it. */
  function Overtaken(): seq<Op> {
    TwoFrames() + [DrainReady] + [Answer(1)] + [DrainReady]
  }

  lemma SecondResult(window: nat)
    ensures Run(Camera(window), TwoFrames() + [DrainReady] + [Answer(1)])
         == HandedOverBoth(window).(recognition := Stage(-1, map[1 := Item(1, FrameAt(1), [])]))
  {
    FirstDrain(window);
    RunStep(Camera(window), TwoFrames() + [DrainReady], Answer(1));
  }

  lemma SecondTaken(s: State, r: Item)
    requires s.recognition == Stage(-1, map[1 := r]) && s.latestRecognition == 1 && s.calls.identityTasks == []
    ensures var t := DrainRecognition(s);
            t.recognition == Stage(2, map[]) && t.calls == s.calls.(identityTasks := [r])
            && t.latestRecognition == 1 && t.cfg == s.cfg
  {
    var w := s.cfg.window;
    assert 1 in s.recognition.pending.Keys;
    assert StartStage(s.recognition) == Stage(1, map[1 := r]);
    assert ReorderLoop(Stage(2, map[]), 1, w) == (Stage(2, map[]), []);
    assert map[1 := r] - {1} == map[];
    assert ReorderLoop(Stage(1, map[1 := r]), 1, w) == (Stage(2, map[]), [r] + []);
    assert [] + ([r] + []) == [r];
    assert DropStale(Stage(2, map[])) == Stage(2, map[]);
  }

  lemma SecondDrain(window: nat)
    ensures var s := Run(Camera(window), Overtaken());
            && s.calls.identityTasks == [Item(1, FrameAt(1), [])] && s.calls.handedOver == BothTasks()
            && s.latestRecognition == 1
  {
    var cfg := Camera(window);
    var before := TwoFrames() + [DrainReady] + [Answer(1)];
    var s := Run(cfg, before);
    SecondResult(window);
    RunDrain(cfg, before);
    LoopUnrolls(s.intake, window);
    assert DropStaleDetections(s.intake) == s.intake;
    assert DrainProbes(s) == s && DrainTracking(s) == s;
    SweepsQueued(s);
    SecondTaken(s, Item(1, FrameAt(1), []));
  }

  lemma LegalMore(cfg: Config, ops: seq<Op>, op: Op)
    requires Legal(cfg, ops) && Allowed(Run(cfg, ops), op)
    ensures Legal(cfg, ops + [op])
  {
    var longer := ops + [op];
    assert longer[..|ops|] == ops;
    forall i | 0 <= i < |longer| ensures Allowed(Run(cfg, longer[..i]), longer[i]) {
      if i < |ops| {
        assert longer[..i] == ops[..i];
      }
    }
  }

  lemma FirstIsLegal(window: nat)
    ensures Legal(Camera(window), TwoFrames() + [DrainReady])
    ensures Allowed(Run(Camera(window), TwoFrames() + [DrainReady]), Answer(1))
  {
    NoResultsLegal(Camera(window), TwoFrames() + [DrainReady]);
    FirstDrain(window);
    AnswerAllowed(HandedOverBoth(window), 1);
  }

  lemma OvertakenIsLegal(window: nat)
    ensures Legal(Camera(window), Overtaken())
  {
    FirstIsLegal(window);
    LegalMore(Camera(window), TwoFrames() + [DrainReady], Answer(1));
    LegalMore(Camera(window), TwoFrames() + [DrainReady] + [Answer(1)], DrainReady);
  }

  lemma FirstAnswerAllowed(window: nat)
    ensures Allowed(Run(Camera(window), Overtaken()), Answer(0))
  {
    SecondDrain(window);
    AnswerAllowed(Run(Camera(window), Overtaken()), 0);
  }

  lemma AnswerAllowed(s: State, k: int)
    requires s.calls.handedOver == BothTasks() && 0 <= k <= 1
    ensures Allowed(s, Answer(k))
  {
    assert Answers(s.calls.handedOver[k].task, Item(k, FrameAt(k), []));
  }

  /**
   It happens: with any window of at least 1 there is a legal run in which the result for a frame that was handed over,
   within the window of the newest task, is ignored, and the frame never identified or committed.
   */
  lemma LostWithinWindow(window: nat, more: seq<Op>)
    requires window >= 1
    ensures var cfg := Camera(window);
            var s := Run(cfg, Overtaken());
            && cfg.limit > cfg.window && Legal(cfg, Overtaken() + [Answer(0)])
            && 0 in HandoverIds(s.calls.handedOver) && s.latestRecognition - 0 <= cfg.window
            && Run(cfg, Overtaken() + [Answer(0)]) == s
            && 0 !in ItemIds(Run(cfg, Overtaken() + more).calls.identityTasks)
            && (Legal(cfg, Overtaken() + more) ==> 0 !in ItemIds(Run(cfg, Overtaken() + more).calls.committed))
  {
    var cfg := Camera(window);
    SecondDrain(window);
    OvertakenIsLegal(window);
    FirstAnswerAllowed(window);
    LegalMore(cfg, Overtaken(), Answer(0));
    assert BothTasks()[0].task.frameId == 0;
    IgnoredWithinWindow(cfg, Overtaken(), Item(0, FrameAt(0), []));
    StartedPastIsFinal(cfg, Overtaken(), more, 0);
  }

  // A run that loses detections

  /** Detections for two frames arrive and a drain passes before the first frame does. */
  function DetectionsFirst(boxes: seq<Box>): seq<Op> {
    [Detection(0, boxes)] + [Detection(1, boxes)] + [DrainReady] + [FrameIn(FrameAt(0))] + [DrainReady]
  }

  lemma TwoDetections(boxes: seq<Box>)
    ensures Run(Camera(0), [Detection(0, boxes)] + [Detection(1, boxes)])
         == Initial(Camera(0)).(intake := Intake(-1, map[], map[0 := boxes, 1 := boxes]))
  {
    RunStep(Camera(0), [], Detection(0, boxes));
    assert [] + [Detection(0, boxes)] == [Detection(0, boxes)];
    RunStep(Camera(0), [Detection(0, boxes)], Detection(1, boxes));
  }

  lemma FirstDetectionTrimmed(boxes: seq<Box>)
    ensures TrimMap(map[0 := boxes, 1 := boxes], 1) == map[1 := boxes]
  {
    var m := map[0 := boxes, 1 := boxes];
    assert m.Keys == {0, 1} && |m| == |m.Keys|;
    assert m - {0} == map[1 := boxes];
  }

  lemma AfterTrim(boxes: seq<Box>)
    ensures var s := Run(Camera(0), [Detection(0, boxes)] + [Detection(1, boxes)] + [DrainReady]);
            s.intake == Intake(-1, map[], map[1 := boxes]) && s.calls.tracked == [] && s.cfg == Camera(0)
  {
    var two := [Detection(0, boxes)] + [Detection(1, boxes)];
    TwoDetections(boxes);
    RunDrain(Camera(0), two);
    DrainTracks(Run(Camera(0), two));
    FirstDetectionTrimmed(boxes);
  }

  lemma LateFrameTracked(boxes: seq<Box>)
    ensures DrainIntake(Intake(-1, map[0 := FrameAt(0)], map[1 := boxes]), 0).1 == [TrackerUpdate(FrameAt(0), [])]
  {
    var q := Intake(-1, map[0 := FrameAt(0)], map[1 := boxes]);
    assert 0 in q.frames.Keys && 1 in q.detections.Keys;
    var q0 := StartIntake(q);
    assert q0.next == 0 && Advance(q0).frames == map[];
    LoopUnrolls(q0, 0);
    LoopUnrolls(Advance(q0), 0);
    assert [NextUpdate(q0)] + [] == [TrackerUpdate(FrameAt(0), [])];
  }

  lemma LateFrame(s: State, boxes: seq<Box>)
    requires s.intake == Intake(-1, map[], map[1 := boxes]) && s.calls.tracked == [] && s.cfg == Camera(0)
    ensures Drain(PushFrame(s, FrameAt(0))).calls.tracked == [TrackerUpdate(FrameAt(0), [])]
  {
    var t := PushFrame(s, FrameAt(0));
    DrainTracks(t);
    LateFrameTracked(boxes);
  }

  lemma FrameThenDrain(cfg: Config, ops: seq<Op>, f: Frame)
    ensures Run(cfg, ops + [FrameIn(f)] + [DrainReady]) == Drain(PushFrame(Run(cfg, ops), f))
  {
    RunStep(cfg, ops, FrameIn(f));
    RunDrain(cfg, ops + [FrameIn(f)]);
  }

  /** A sequence of calls without stage results is legal as soon as its frame ids are not negative. */
  lemma NoResultsLegal(cfg: Config, ops: seq<Op>)
    requires forall i :: 0 <= i < |ops| ==> !ops[i].Recognition? && !ops[i].Identity?
    requires forall i :: 0 <= i < |ops| && ops[i].FrameIn? ==> ops[i].frame.id >= 0
    ensures Legal(cfg, ops)
  {
    forall i | 0 <= i < |ops| ensures Allowed(Run(cfg, ops[..i]), ops[i]) {
    }
  }

  lemma DetectionsFirstIsLegal(boxes: seq<Box>)
    ensures Legal(Camera(0), DetectionsFirst(boxes))
  {
    var ops := DetectionsFirst(boxes);
    assert ops[0] == Detection(0, boxes) && ops[1] == Detection(1, boxes) && ops[3] == FrameIn(FrameAt(0));
    assert |ops| == 5 && ops[2] == ops[4] == DrainReady;
    NoResultsLegal(Camera(0), ops);
  }

  /** The frame's detections were pushed and never replaced. */
  lemma DetectionsArrived(boxes: seq<Box>)
    ensures Detected(DetectionsFirst(boxes), 0) == Some(boxes)
  {
    var one := [Detection(0, boxes)];
    DetectedUnchanged(one, Detection(1, boxes), 0);
    DetectedUnchanged(one + [Detection(1, boxes)], DrainReady, 0);
    DetectedUnchanged(one + [Detection(1, boxes)] + [DrainReady], FrameIn(FrameAt(0)), 0);
    DetectedUnchanged(one + [Detection(1, boxes)] + [DrainReady] + [FrameIn(FrameAt(0))], DrainReady, 0);
  }

  lemma DetectedUnchanged(ops: seq<Op>, op: Op, k: int)
    requires op.Detection? ==> op.frameId != k
    ensures Detected(ops + [op], k) == Detected(ops, k)
  {
    assert (ops + [op])[..|ops|] == ops;
  }

  lemma TrackedWithout(boxes: seq<Box>)
    ensures Run(Camera(0), DetectionsFirst(boxes)).calls.tracked == [TrackerUpdate(FrameAt(0), [])]
  {
    FrameThenDrain(Camera(0), [Detection(0, boxes)] + [Detection(1, boxes)] + [DrainReady], FrameAt(0));
    AfterTrim(boxes);
    LateFrame(Run(Camera(0), [Detection(0, boxes)] + [Detection(1, boxes)] + [DrainReady]), boxes);
  }

  /**
   With no window and a limit of one entry there is a legal run in which a frame is tracked with the empty list although
   its detections, which are not empty, had arrived.
   */
  lemma DetectionsLost(boxes: seq<Box>)
    requires boxes != []
    ensures Legal(Camera(0), DetectionsFirst(boxes)) && Camera(0).limit > Camera(0).window
    ensures Detected(DetectionsFirst(boxes), 0) == Some(boxes)
    ensures var tracked := Run(Camera(0), DetectionsFirst(boxes)).calls.tracked;
            tracked == [TrackerUpdate(FrameAt(0), [])] && tracked[0].detections != boxes
  {
    DetectionsFirstIsLegal(boxes);
    DetectionsArrived(boxes);
    TrackedWithout(boxes);
  }
}
