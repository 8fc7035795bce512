/**
 Applied face results answer probes that were issued: whatever is pushed, in whatever order.
 */
module CoordinatorProbes {
  import opened Types
  import Sequences
  import opened OrderedKeys
  import opened CoordinatorSpec
  import opened CoordinatorRuns
  import opened CoordinatorTheorems
  import opened CoordinatorProvenance

  /** Open probes of a frame are the one that is planned for it, and it was issued. */
  ghost predicate Issued(k: int, probes: set<string>, probed: seq<int>) {
    probes <= {ProbeId(k)} && (probes != {} ==> k in probed)
  }

  /** Every result answers the probe that was issued for the frame. */
  ghost predicate Answering(k: int, results: seq<FaceResult>, probed: seq<int>) {
    forall r :: r in results ==> r.probeId == ProbeId(k) && k in probed
  }

  ghost predicate EntryAnswers(k: int, p: PendingFaceFrame, probed: seq<int>) {
    p.frame.id == k && Issued(k, p.probes, probed) && Answering(k, p.results, probed)
  }

  ghost predicate EntriesAnswer(faceFrames: map<int, PendingFaceFrame>, probed: seq<int>) {
    forall k :: k in faceFrames ==> EntryAnswers(k, faceFrames[k], probed)
  }

  ghost predicate QueuedIssued(queuedProbes: map<int, set<string>>, probed: seq<int>) {
    forall k :: k in queuedProbes ==> Issued(k, queuedProbes[k], probed)
  }

  ghost predicate HandedAnswer(handed: seq<Handover>, probed: seq<int>) {
    forall h :: h in handed ==> Answering(h.task.frameId, h.results, probed)
  }

  ghost predicate FramesKeyed(frames: map<int, Frame>) {
    forall k :: k in frames ==> frames[k].id == k
  }

  ghost predicate AnswersInv(s: State) {
    && FramesKeyed(s.intake.frames) && QueuedIssued(s.queuedProbes, s.calls.probed)
    && EntriesAnswer(s.faceFrames, s.calls.probed) && HandedAnswer(s.calls.handedOver, s.calls.probed)
  }

  lemma MoreIssued(s: State, k: int)
    requires AnswersInv(s)
    ensures QueuedIssued(s.queuedProbes, s.calls.probed + [k]) && EntriesAnswer(s.faceFrames, s.calls.probed + [k])
    ensures HandedAnswer(s.calls.handedOver, s.calls.probed + [k])
  {
    var probed := s.calls.probed + [k];
    forall x | x in s.queuedProbes ensures Issued(x, s.queuedProbes[x], probed) {
      assert Issued(x, s.queuedProbes[x], s.calls.probed);
    }
    forall x | x in s.faceFrames ensures EntryAnswers(x, s.faceFrames[x], probed) {
      assert EntryAnswers(x, s.faceFrames[x], s.calls.probed);
    }
    forall h | h in s.calls.handedOver ensures Answering(h.task.frameId, h.results, probed) {
      assert Answering(h.task.frameId, h.results, s.calls.probed);
    }
  }

  // Probes and their answers

  lemma ProbeStepAnswers(s: State, k: int)
    requires AnswersInv(s) && k in s.intake.frames
    ensures AnswersInv(ProbeStep(s, k)) && ProbeStep(s, k).intake == s.intake
  {
    var t := ProbeStep(s, k);
    if t != s {
      MoreIssued(s, k);
      assert k in t.calls.probed;
    }
  }

  lemma {:induction false} ProbeFoldAnswers(s: State, keys: seq<int>)
    requires AnswersInv(s) && forall k :: k in keys ==> k in s.intake.frames
    ensures AnswersInv(ProbeFold(s, keys))
    decreases |keys|
  {
    if keys != [] {
      ProbeStepAnswers(s, keys[0]);
      ProbeFoldAnswers(ProbeStep(s, keys[0]), keys[1..]);
    }
  }

  lemma PushFaceAnswers(s: State, r: FaceResult)
    requires AnswersInv(s)
    ensures AnswersInv(PushFace(s, r))
  {
    if r.frameId in s.faceFrames {
      var t, p := PushFace(s, r), s.faceFrames[r.frameId];
      assert EntryAnswers(r.frameId, p, s.calls.probed);
      forall k | k in t.faceFrames ensures EntryAnswers(k, t.faceFrames[k], s.calls.probed) {
        assert EntryAnswers(k, s.faceFrames[k], s.calls.probed);
      }
    }
  }

  lemma {:induction false} AbsorbAnswers(k: int, probes: set<string>, results: seq<FaceResult>, arrived: seq<FaceResult>,
                                         probed: seq<int>)
    requires Issued(k, probes, probed) && Answering(k, results, probed)
    ensures var r := Absorb(probes, results, arrived); Issued(k, r.0, probed) && Answering(k, r.1, probed)
    decreases |arrived|
  {
    if arrived != [] {
      if arrived[0].probeId in probes {
        AbsorbAnswers(k, probes - {arrived[0].probeId}, results + [arrived[0]], arrived[1..], probed);
      } else {
        AbsorbAnswers(k, probes, results, arrived[1..], probed);
      }
    }
  }

  // Tracking and hand-over

  lemma NewEntryAnswers(s: State, frame: Frame, boxes: seq<Box>, probed: seq<int>)
    requires QueuedIssued(s.queuedProbes, probed) && (FreshProbes(s, frame) != {} ==> frame.id in probed)
    ensures EntryAnswers(frame.id, NewFaceFrame(s, frame, boxes), probed)
  {
    var probes := if ProbedAhead(s, frame.id) then s.queuedProbes[frame.id] else {};
    AbsorbAnswers(frame.id, probes, [], EarlyAt(s.early, frame.id), probed);
  }

  lemma TrackFrameAnswers(s: State, u: TrackerUpdate)
    requires AnswersInv(s)
    ensures AnswersInv(TrackFrame(s, u))
  {
    var t := TrackFrame(s, u);
    MoreIssued(s, u.frame.id);
    NewEntryAnswers(s, u.frame, s.cfg.tracker(t.calls.tracked), t.calls.probed);
  }

  lemma QueueAnswers(s: State, k: int)
    requires AnswersInv(s) && k in s.faceFrames
    ensures AnswersInv(QueueRecognition(s, k))
  {
    var p := s.faceFrames[k];
    assert EntryAnswers(k, p, s.calls.probed);
    if !p.queued {
      var h := MakeHandover(s.cfg, p);
      forall x | x in s.calls.handedOver + [h] ensures Answering(x.task.frameId, x.results, s.calls.probed) {
        assert x in s.calls.handedOver || x == h;
      }
    }
  }

  lemma {:induction false} ProcessAllAnswers(s: State, updates: seq<TrackerUpdate>)
    requires AnswersInv(s)
    ensures AnswersInv(ProcessAll(s, updates))
    decreases |updates|
  {
    if updates != [] {
      TrackFrameAnswers(s, updates[0]);
      QueueAnswers(TrackFrame(s, updates[0]), updates[0].frame.id);
      ProcessAllAnswers(ProcessTracked(s, updates[0]), updates[1..]);
    }
  }

  lemma {:induction false} LoopKeyed(q: Intake, window: int)
    requires FramesKeyed(q.frames)
    ensures FramesKeyed(IntakeLoop(q, window).0.frames)
    decreases |q.frames|, if q.next in q.frames then 0 else 1
  {
    if q.next < 0 {
    } else if q.next in q.frames {
      if q.next in q.detections || LatestSeen(q) - q.next > window {
        assert (q.frames - {q.next}).Keys == q.frames.Keys - {q.next};
        LoopKeyed(Advance(q), window);
      }
    } else if q.frames != map[] && Least(q.frames.Keys) > q.next {
      LoopKeyed(q.(next := Least(q.frames.Keys)), window);
    }
  }

  lemma {:induction false} DueAnswers(cfg: Config, all: map<int, PendingFaceFrame>, keys: seq<int>, latestFace: int,
                                      probed: seq<int>)
    requires EntriesAnswer(all, probed) && forall k :: k in keys ==> k in all
    ensures HandedAnswer(DueHandovers(cfg, all, keys, latestFace), probed)
    decreases |keys|
  {
    if keys != [] {
      assert keys[0] in keys;
      assert EntryAnswers(keys[0], all[keys[0]], probed);
      DueAnswers(cfg, all, keys[1..], latestFace, probed);
    }
  }

  lemma DrainFacesAnswers(s: State)
    requires AnswersInv(s)
    ensures AnswersInv(DrainFaces(s))
  {
    var due := DueHandovers(s.cfg, s.faceFrames, SortedKeys(s.faceFrames.Keys), s.latestFace);
    DueAnswers(s.cfg, s.faceFrames, SortedKeys(s.faceFrames.Keys), s.latestFace, s.calls.probed);
    forall h | h in s.calls.handedOver + due ensures Answering(h.task.frameId, h.results, s.calls.probed) {
      assert h in s.calls.handedOver || h in due;
    }
    forall k | k in DrainFaces(s).faceFrames ensures EntryAnswers(k, s.faceFrames[k], s.calls.probed) {
    }
  }

  lemma DrainTrackingAnswers(s: State)
    requires AnswersInv(s)
    ensures AnswersInv(DrainTracking(s))
  {
    var r := DrainIntake(s.intake, s.cfg.window);
    LoopKeyed(StartIntake(s.intake), s.cfg.window);
    ProcessAllAnswers(s.(intake := r.0), r.1);
  }

  lemma TrimAnswers(s: State)
    requires AnswersInv(s)
    ensures AnswersInv(Trim(s))
  {
    TrimSubmap(s.intake.frames, s.cfg.limit);
    TrimSubmap(s.queuedProbes, s.cfg.limit);
    TrimFacesSubmap(s.faceFrames, s.commit.next, s.cfg.limit);
  }

  lemma DrainAnswers(s: State)
    requires AnswersInv(s)
    ensures AnswersInv(Drain(s))
  {
    ProbeFoldAnswers(s, SortedKeys(s.intake.frames.Keys));
    DrainTrackingAnswers(DrainProbes(s));
    DrainFacesAnswers(DrainTracking(DrainProbes(s)));
    TrimAnswers(DrainStages(s));
  }

  lemma OtherPushAnswers(s: State, op: Op)
    requires AnswersInv(s) && op != DrainReady && !op.FaceAnswer?
    ensures AnswersInv(Step(s, op))
  {
  }

  lemma StepAnswers(s: State, op: Op)
    requires AnswersInv(s)
    ensures AnswersInv(Step(s, op))
  {
    if op.FaceAnswer? {
      PushFaceAnswers(s, op.face);
    } else if op == DrainReady {
      DrainStepAnswers(s, op);
    } else {
      OtherPushAnswers(s, op);
    }
  }

  lemma DrainStepAnswers(s: State, op: Op)
    requires AnswersInv(s) && op == DrainReady
    ensures AnswersInv(Step(s, op))
  {
    DrainAnswers(s);
    DrainIsStep(s, op);
  }

  lemma {:induction false} RunAnswers(cfg: Config, ops: seq<Op>)
    ensures AnswersInv(Run(cfg, ops))
    decreases |ops|
  {
    if ops != [] {
      var s, op := Run(cfg, ops[..|ops| - 1]), ops[|ops| - 1];
      RunAnswers(cfg, ops[..|ops| - 1]);
      StepAnswers(s, op);
    }
  }

  lemma TwoDiffer(results: seq<FaceResult>, id: string)
    requires |results| > 1 && forall i, j :: 0 <= i < j < |results| ==> results[i].probeId != results[j].probeId
    ensures exists r :: r in results && r.probeId != id
  {
    assert results[0] in results && results[1] in results && results[0].probeId != results[1].probeId;
  }

  lemma AtMostOne(results: seq<FaceResult>, id: string)
    requires forall r :: r in results ==> r.probeId == id
    requires forall i, j :: 0 <= i < j < |results| ==> results[i].probeId != results[j].probeId
    ensures |results| <= 1
  {
    if |results| > 1 {
      TwoDiffer(results, id);
    }
  }

  lemma ResultsOf(cfg: Config, tracked: seq<TrackerUpdate>, h: Handover, probed: seq<int>, ops: seq<Op>)
    requires GenuineHandover(h, cfg, tracked, probed, ops) && Answering(h.task.frameId, h.results, probed)
    ensures forall r :: r in h.results ==>
              && r.probeId == ProbeId(h.task.frameId) && h.task.frameId in probed
              && r.frameId == h.task.frameId && FaceAnswer(r) in ops
  {
  }

  /**
   The results applied to a frame: at most one, and it was pushed for this frame and answers the probe that was planned
   and issued for it. Duplicate, unknown and late results leave no trace.
   */
  lemma {:induction false} AppliedResultsAnswerProbes(cfg: Config, ops: seq<Op>, h: Handover)
    requires Legal(cfg, ops) && cfg.limit > cfg.window && h in Run(cfg, ops).calls.handedOver
    ensures |h.results| <= 1
    ensures forall r :: r in h.results ==>
              && r.probeId == ProbeId(h.task.frameId) && h.task.frameId in Run(cfg, ops).calls.probed
              && r.frameId == h.task.frameId && FaceAnswer(r) in ops
  {
    var s := Run(cfg, ops);
    RunAnswers(cfg, ops);
    TasksAreGenuine(cfg, ops, h);
    ProbesAppliedOnce(cfg, ops);
    ResultsOf(cfg, s.calls.tracked, h, s.calls.probed, ops);
    AtMostOne(h.results, ProbeId(h.task.frameId));
  }

  // No two frames share a probe

  lemma {:induction false} DigitsDiffer(m: nat, n: nat)
    requires Digits(m) == Digits(n)
    ensures m == n
  {
    var a, b := Digits(m), Digits(n);
    if m >= 10 && n >= 10 {
      assert a[..|a| - 1] == Digits(m / 10) && b[..|b| - 1] == Digits(n / 10);
      DigitsDiffer(m / 10, n / 10);
    } else {
      DigitsLength(m / 10);
      DigitsLength(n / 10);
    }
    assert a[|a| - 1] == ('0' as int + m % 10) as char && b[|b| - 1] == ('0' as int + n % 10) as char;
  }

  lemma DigitsLength(n: nat)
    ensures |Digits(n)| >= 1 && '0' <= Digits(n)[0] <= '9'
  {
  }

  /** Probe ids are unique: a result that answers the probe of one frame answers that of no other. */
  lemma ProbeIdsDiffer(a: int, b: int)
    requires ProbeId(a) == ProbeId(b)
    ensures a == b
  {
    var p, q := ProbeId(a), ProbeId(b);
    DigitsLength(if a < 0 then -a else a);
    DigitsLength(if b < 0 then -b else b);
    assert p[..|p| - 5] == (if a < 0 then "-" + Digits(-a) else Digits(a));
    assert q[..|q| - 5] == (if b < 0 then "-" + Digits(-b) else Digits(b));
    assert p[0] == q[0];
    if a < 0 && b < 0 {
      assert p[1..|p| - 5] == Digits(-a) && q[1..|q| - 5] == Digits(-b);
      DigitsDiffer(-a, -b);
    } else if a >= 0 && b >= 0 {
      DigitsDiffer(a, b);
    }
  }

  // Probes are issued for images only

  ghost predicate HasImage(k: int, ops: seq<Op>) {
    exists f :: FrameIn(f) in ops && f.id == k && f.hasImage
  }

  ghost predicate ImagesProbed(cfg: Config, probed: seq<int>, ops: seq<Op>) {
    forall k :: k in probed ==> cfg.faceDetection && HasImage(k, ops)
  }

  ghost predicate FramesPushed(frames: map<int, Frame>, ops: seq<Op>) {
    forall k :: k in frames ==> frames[k].id == k && FrameIn(frames[k]) in ops
  }

  ghost predicate ImagesInv(s: State, ops: seq<Op>) {
    FramesPushed(s.intake.frames, ops) && ImagesProbed(s.cfg, s.calls.probed, ops)
  }

  lemma {:induction false} FoldImages(s: State, keys: seq<int>, ops: seq<Op>)
    requires ImagesInv(s, ops) && s.cfg.faceDetection && forall k :: k in keys ==> k in s.intake.frames
    ensures ImagesInv(ProbeFold(s, keys), ops)
    decreases |keys|
  {
    if keys != [] {
      assert keys[0] in keys;
      FoldImages(ProbeStep(s, keys[0]), keys[1..], ops);
    }
  }

  lemma TrackedImage(s: State, u: TrackerUpdate, ops: seq<Op>)
    requires ImagesProbed(s.cfg, s.calls.probed, ops) && FrameIn(u.frame) in ops
    ensures ImagesProbed(s.cfg, ProcessTracked(s, u).calls.probed, ops)
  {
    assert FreshProbes(s, u.frame) != {} ==> s.cfg.faceDetection && HasImage(u.frame.id, ops);
  }

  lemma {:induction false} TrackedImages(s: State, updates: seq<TrackerUpdate>, ops: seq<Op>)
    requires ImagesProbed(s.cfg, s.calls.probed, ops) && forall u :: u in updates ==> FrameIn(u.frame) in ops
    ensures ImagesProbed(s.cfg, ProcessAll(s, updates).calls.probed, ops)
    decreases |updates|
  {
    if updates != [] {
      assert updates[0] in updates;
      TrackedImage(s, updates[0], ops);
      TrackedImages(ProcessTracked(s, updates[0]), updates[1..], ops);
    }
  }

  lemma {:induction false} ProcessAllIntake(s: State, updates: seq<TrackerUpdate>)
    ensures ProcessAll(s, updates).intake == s.intake
    decreases |updates|
  {
    if updates != [] {
      ProcessAllIntake(ProcessTracked(s, updates[0]), updates[1..]);
    }
  }

  lemma {:induction false} LoopLeavesPushed(q: Intake, window: int, ops: seq<Op>)
    requires FramesPushed(q.frames, ops)
    ensures FramesPushed(IntakeLoop(q, window).0.frames, ops)
    decreases |q.frames|, if q.next in q.frames then 0 else 1
  {
    if q.next < 0 {
    } else if q.next in q.frames {
      if q.next in q.detections || LatestSeen(q) - q.next > window {
        assert (q.frames - {q.next}).Keys == q.frames.Keys - {q.next};
        LoopLeavesPushed(Advance(q), window, ops);
      }
    } else if q.frames != map[] && Least(q.frames.Keys) > q.next {
      LoopLeavesPushed(q.(next := Least(q.frames.Keys)), window, ops);
    }
  }

  lemma TrackingImages(s: State, ops: seq<Op>)
    requires ImagesInv(s, ops)
    ensures ImagesInv(DrainTracking(s), ops)
  {
    var start, r := StartIntake(s.intake), DrainIntake(s.intake, s.cfg.window);
    LoopLeavesPushed(start, s.cfg.window, ops);
    forall u | u in r.1 ensures FrameIn(u.frame) in ops {
      LoopTracksPending(start, s.cfg.window, u);
    }
    TrackedImages(s.(intake := r.0), r.1, ops);
    ProcessAllIntake(s.(intake := r.0), r.1);
  }

  lemma DrainImages(s: State, ops: seq<Op>)
    requires ImagesInv(s, ops)
    ensures ImagesInv(Drain(s), ops)
  {
    if s.cfg.faceDetection && s.cfg.independent {
      FoldImages(s, SortedKeys(s.intake.frames.Keys), ops);
    }
    TrackingImages(DrainProbes(s), ops);
    TrimSubmap(DrainStages(s).intake.frames, s.cfg.limit);
  }

  lemma MoreImages(s: State, ops: seq<Op>, op: Op)
    requires ImagesInv(s, ops)
    ensures ImagesInv(s, ops + [op])
  {
    forall k | k in s.calls.probed ensures HasImage(k, ops + [op]) {
      var f :| FrameIn(f) in ops && f.id == k && f.hasImage;
      assert FrameIn(f) in ops + [op];
    }
  }

  lemma StepImages(s: State, ops: seq<Op>, op: Op)
    requires ImagesInv(s, ops)
    ensures ImagesInv(Step(s, op), ops + [op])
  {
    MoreImages(s, ops, op);
    assert (ops + [op])[|ops|] == op;
    if op == DrainReady {
      DrainImages(s, ops + [op]);
    }
  }

  /** In any run, a probe is issued only with face detection, and only for a frame that was pushed with an image. */
  lemma {:induction false} OnlyImagesAreProbed(cfg: Config, ops: seq<Op>)
    ensures ImagesInv(Run(cfg, ops), ops)
    decreases |ops|
  {
    if ops != [] {
      Sequences.SplitLast(ops);
      OnlyImagesAreProbed(cfg, ops[..|ops| - 1]);
      StepImages(Run(cfg, ops[..|ops| - 1]), ops[..|ops| - 1], ops[|ops| - 1]);
    }
  }
}
