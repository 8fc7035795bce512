/**
 Where the boxes and faces of a recognition task come from. Like the commit order this holds of every sequence of calls.
 */
module CoordinatorProvenance {
  import opened Types
  import Sequences
  import opened OrderedKeys
  import opened CoordinatorSpec
  import opened CoordinatorRuns

  /** The same track in the same place: only the action and the face may differ. */
  predicate SameTrack(a: Box, b: Box) {
    && a.rect == b.rect && a.id == b.id && a.score == b.score
    && a.identityKey == b.identityKey && a.confidence == b.confidence && a.state == b.state
  }

  /** Track by track `boxes` are `returned`: untouched if a probe was out ahead of the tracker, otherwise reset. */
  ghost predicate TracksOf(returned: seq<Box>, boxes: seq<Box>, ahead: bool) {
    && |boxes| == |returned| && (forall i :: 0 <= i < |boxes| ==> SameTrack(boxes[i], returned[i]))
    && ((ahead && boxes == returned)
        || forall i :: 0 <= i < |boxes| ==> boxes[i].action == Anonymize && boxes[i].face == None)
  }

  /** `boxes` are what the tracker returned for an update with this frame. */
  ghost predicate TrackerOutput(cfg: Config, tracked: seq<TrackerUpdate>, probed: seq<int>, frame: Frame,
                                boxes: seq<Box>) {
    exists n :: 0 <= n < |tracked| && tracked[n].frame == frame
                && TracksOf(cfg.tracker(tracked[..n + 1]), boxes, MayBeAhead(cfg, frame.id, probed))
  }

  /** Only independent face detection issues probes ahead of the tracker. */
  ghost predicate MayBeAhead(cfg: Config, id: int, probed: seq<int>) {
    cfg.faceDetection && cfg.independent && id in probed
  }

  /** The applier was given the faces of each of the results, in order. */
  ghost predicate AppliedTo(h: Handover, cfg: Config) {
    exists faces: seq<seq<Face>> ::
      && |faces| == |h.results| && (forall i :: 0 <= i < |faces| ==> faces[i] == h.results[i].faces)
      && h.task.tracks == cfg.apply(h.task.frameId, h.tracked, faces)
  }

  /** The face results were all pushed, and for this frame. */
  ghost predicate PushedFor(results: seq<FaceResult>, frameId: int, ops: seq<Op>) {
    forall r :: r in results ==> r.frameId == frameId && FaceAnswer(r) in ops
  }

  ghost predicate GenuineEntry(p: PendingFaceFrame, k: int, cfg: Config, tracked: seq<TrackerUpdate>,
                               probed: seq<int>, ops: seq<Op>) {
    && p.frame.id == k && PushedFor(p.results, k, ops)
    && (!p.queued ==> TrackerOutput(cfg, tracked, probed, p.frame, p.tracks))
  }

  /** A recognition task is about one tracked frame, with what the applier makes of its boxes and its face results. */
  ghost predicate GenuineHandover(h: Handover, cfg: Config, tracked: seq<TrackerUpdate>, probed: seq<int>, ops: seq<Op>) {
    && h.task.frameId == h.task.frame.id
    && TrackerOutput(cfg, tracked, probed, h.task.frame, h.tracked) && PushedFor(h.results, h.task.frameId, ops)
    && AppliedTo(h, cfg)
  }

  ghost predicate GenuineEntries(faceFrames: map<int, PendingFaceFrame>, cfg: Config, tracked: seq<TrackerUpdate>,
                                 probed: seq<int>, ops: seq<Op>) {
    forall k :: k in faceFrames ==> GenuineEntry(faceFrames[k], k, cfg, tracked, probed, ops)
  }

  ghost predicate GenuineHandovers(handed: seq<Handover>, cfg: Config, tracked: seq<TrackerUpdate>,
                                   probed: seq<int>, ops: seq<Op>) {
    forall h :: h in handed ==> GenuineHandover(h, cfg, tracked, probed, ops)
  }

  ghost predicate GenuineEarly(early: map<int, seq<FaceResult>>, ops: seq<Op>) {
    forall k :: k in early ==> PushedFor(early[k], k, ops)
  }

  ghost predicate ProvenanceInv(s: State, ops: seq<Op>) {
    && GenuineEntries(s.faceFrames, s.cfg, s.calls.tracked, s.calls.probed, ops)
    && GenuineHandovers(s.calls.handedOver, s.cfg, s.calls.tracked, s.calls.probed, ops)
    && GenuineEarly(s.early, ops)
    && (forall k :: k in s.queuedProbes ==> k in s.calls.probed)
  }

  // Longer logs and histories

  lemma OutputStays(cfg: Config, tracked: seq<TrackerUpdate>, tracked': seq<TrackerUpdate>, probed: seq<int>,
                    probed': seq<int>, frame: Frame, boxes: seq<Box>)
    requires tracked <= tracked' && probed <= probed' && TrackerOutput(cfg, tracked, probed, frame, boxes)
    ensures TrackerOutput(cfg, tracked', probed', frame, boxes)
  {
    var n :| 0 <= n < |tracked| && tracked[n].frame == frame
             && TracksOf(cfg.tracker(tracked[..n + 1]), boxes, MayBeAhead(cfg, frame.id, probed));
    assert tracked'[..n + 1] == tracked[..n + 1] && tracked'[n] == tracked[n];
  }

  lemma MoreTracked(s: State, tracked: seq<TrackerUpdate>, probed: seq<int>, ops: seq<Op>)
    requires ProvenanceInv(s, ops) && s.calls.tracked <= tracked && s.calls.probed <= probed
    ensures GenuineEntries(s.faceFrames, s.cfg, tracked, probed, ops)
    ensures GenuineHandovers(s.calls.handedOver, s.cfg, tracked, probed, ops)
  {
    forall k | k in s.faceFrames ensures GenuineEntry(s.faceFrames[k], k, s.cfg, tracked, probed, ops) {
      var p := s.faceFrames[k];
      assert GenuineEntry(p, k, s.cfg, s.calls.tracked, s.calls.probed, ops);
      if !p.queued {
        OutputStays(s.cfg, s.calls.tracked, tracked, s.calls.probed, probed, p.frame, p.tracks);
      }
    }
    forall h | h in s.calls.handedOver ensures GenuineHandover(h, s.cfg, tracked, probed, ops) {
      assert GenuineHandover(h, s.cfg, s.calls.tracked, s.calls.probed, ops);
      OutputStays(s.cfg, s.calls.tracked, tracked, s.calls.probed, probed, h.task.frame, h.tracked);
    }
  }

  lemma MoreOps(s: State, ops: seq<Op>, op: Op)
    requires ProvenanceInv(s, ops)
    ensures ProvenanceInv(s, ops + [op])
  {
    forall k | k in s.faceFrames
      ensures GenuineEntry(s.faceFrames[k], k, s.cfg, s.calls.tracked, s.calls.probed, ops + [op])
    {
      assert GenuineEntry(s.faceFrames[k], k, s.cfg, s.calls.tracked, s.calls.probed, ops);
    }
    forall h | h in s.calls.handedOver ensures GenuineHandover(h, s.cfg, s.calls.tracked, s.calls.probed, ops + [op]) {
      assert GenuineHandover(h, s.cfg, s.calls.tracked, s.calls.probed, ops);
    }
    forall k | k in s.early ensures PushedFor(s.early[k], k, ops + [op]) {
      assert PushedFor(s.early[k], k, ops);
    }
  }

  // Face results

  lemma PushFaceProvenance(s: State, r: FaceResult, ops: seq<Op>)
    requires ProvenanceInv(s, ops) && FaceAnswer(r) in ops
    ensures ProvenanceInv(PushFace(s, r), ops)
  {
    var t := PushFace(s, r);
    if r.frameId in s.faceFrames {
      assert GenuineEntry(s.faceFrames[r.frameId], r.frameId, s.cfg, s.calls.tracked, s.calls.probed, ops);
      forall k | k in t.faceFrames ensures GenuineEntry(t.faceFrames[k], k, s.cfg, s.calls.tracked, s.calls.probed, ops) {
        assert GenuineEntry(s.faceFrames[k], k, s.cfg, s.calls.tracked, s.calls.probed, ops);
      }
    } else {
      assert PushedFor(EarlyAt(s.early, r.frameId), r.frameId, ops);
      forall k | k in t.early ensures PushedFor(t.early[k], k, ops) {
        assert k in s.early ==> PushedFor(s.early[k], k, ops);
      }
    }
  }

  lemma {:induction false} AbsorbedFrom(probes: set<string>, results: seq<FaceResult>, arrived: seq<FaceResult>,
                                        frameId: int, ops: seq<Op>)
    requires PushedFor(results, frameId, ops) && PushedFor(arrived, frameId, ops)
    ensures PushedFor(Absorb(probes, results, arrived).1, frameId, ops)
    decreases |arrived|
  {
    if arrived != [] {
      assert arrived[0] in arrived;
      if arrived[0].probeId in probes {
        AbsorbedFrom(probes - {arrived[0].probeId}, results + [arrived[0]], arrived[1..], frameId, ops);
      } else {
        AbsorbedFrom(probes, results, arrived[1..], frameId, ops);
      }
    }
  }

  // Tracking and hand-over

  lemma NewEntryGenuine(s: State, u: TrackerUpdate, probed: seq<int>, ops: seq<Op>)
    requires GenuineEarly(s.early, ops) && (ProbedAhead(s, u.frame.id) ==> u.frame.id in probed)
    ensures var tracked := s.calls.tracked + [u];
            GenuineEntry(NewFaceFrame(s, u.frame, s.cfg.tracker(tracked)), u.frame.id, s.cfg, tracked, probed, ops)
  {
    var tracked := s.calls.tracked + [u];
    var probes := if ProbedAhead(s, u.frame.id) then s.queuedProbes[u.frame.id] else {};
    AbsorbedFrom(probes, [], EarlyAt(s.early, u.frame.id), u.frame.id, ops);
    assert tracked[|s.calls.tracked|] == u && tracked[..|s.calls.tracked| + 1] == tracked;
  }

  lemma TrackFrameProvenance(s: State, u: TrackerUpdate, ops: seq<Op>)
    requires ProvenanceInv(s, ops)
    ensures ProvenanceInv(TrackFrame(s, u), ops)
  {
    var t := TrackFrame(s, u);
    MoreTracked(s, t.calls.tracked, t.calls.probed, ops);
    NewEntryGenuine(s, u, t.calls.probed, ops);
  }

  lemma MadeGenuine(cfg: Config, p: PendingFaceFrame, k: int, tracked: seq<TrackerUpdate>, probed: seq<int>, ops: seq<Op>)
    requires GenuineEntry(p, k, cfg, tracked, probed, ops) && !p.queued
    ensures GenuineHandover(MakeHandover(cfg, p), cfg, tracked, probed, ops)
  {
    assert |FaceLists(p.results)| == |p.results|;
  }

  lemma QueueProvenance(s: State, k: int, ops: seq<Op>)
    requires ProvenanceInv(s, ops) && k in s.faceFrames
    ensures ProvenanceInv(QueueRecognition(s, k), ops)
  {
    var p := s.faceFrames[k];
    assert GenuineEntry(p, k, s.cfg, s.calls.tracked, s.calls.probed, ops);
    if !p.queued {
      var h := MakeHandover(s.cfg, p);
      MadeGenuine(s.cfg, p, k, s.calls.tracked, s.calls.probed, ops);
      forall x | x in s.calls.handedOver + [h] ensures GenuineHandover(x, s.cfg, s.calls.tracked, s.calls.probed, ops) {
        assert x in s.calls.handedOver || x == h;
      }
    }
  }

  lemma {:induction false} ProcessAllProvenance(s: State, updates: seq<TrackerUpdate>, ops: seq<Op>)
    requires ProvenanceInv(s, ops)
    ensures ProvenanceInv(ProcessAll(s, updates), ops)
    decreases |updates|
  {
    if updates != [] {
      TrackFrameProvenance(s, updates[0], ops);
      QueueProvenance(TrackFrame(s, updates[0]), updates[0].frame.id, ops);
      ProcessAllProvenance(ProcessTracked(s, updates[0]), updates[1..], ops);
    }
  }

  ghost predicate SameFaces(s: State, t: State) {
    && t.cfg == s.cfg && t.faceFrames == s.faceFrames && t.early == s.early
    && t.calls.tracked == s.calls.tracked && t.calls.handedOver == s.calls.handedOver
    && t.queuedProbes == s.queuedProbes && t.calls.probed == s.calls.probed
  }

  lemma ProbeStepProvenance(s: State, k: int, ops: seq<Op>)
    requires ProvenanceInv(s, ops) && k in s.intake.frames
    ensures ProvenanceInv(ProbeStep(s, k), ops) && ProbeStep(s, k).intake == s.intake
  {
    var t := ProbeStep(s, k);
    if t != s {
      MoreTracked(s, s.calls.tracked, t.calls.probed, ops);
      assert k in t.calls.probed;
    }
  }

  lemma {:induction false} ProbeFoldProvenance(s: State, keys: seq<int>, ops: seq<Op>)
    requires ProvenanceInv(s, ops) && forall k :: k in keys ==> k in s.intake.frames
    ensures ProvenanceInv(ProbeFold(s, keys), ops)
    decreases |keys|
  {
    if keys != [] {
      ProbeStepProvenance(s, keys[0], ops);
      ProbeFoldProvenance(ProbeStep(s, keys[0]), keys[1..], ops);
    }
  }

  lemma {:induction false} DueGenuine(cfg: Config, all: map<int, PendingFaceFrame>, keys: seq<int>, latestFace: int,
                                      tracked: seq<TrackerUpdate>, probed: seq<int>, ops: seq<Op>)
    requires GenuineEntries(all, cfg, tracked, probed, ops)
    requires forall k :: k in keys ==> k in all
    ensures GenuineHandovers(DueHandovers(cfg, all, keys, latestFace), cfg, tracked, probed, ops)
    decreases |keys|
  {
    if keys != [] {
      var k := keys[0];
      assert k in keys;
      assert k in all;
      assert GenuineEntry(all[k], k, cfg, tracked, probed, ops);
      DueGenuine(cfg, all, keys[1..], latestFace, tracked, probed, ops);
      if Due(k, all[k], latestFace, cfg.window) {
        MadeGenuine(cfg, all[k], k, tracked, probed, ops);
      }
    }
  }

  lemma DrainFacesProvenance(s: State, ops: seq<Op>)
    requires ProvenanceInv(s, ops)
    ensures ProvenanceInv(DrainFaces(s), ops)
  {
    var due := DueHandovers(s.cfg, s.faceFrames, SortedKeys(s.faceFrames.Keys), s.latestFace);
    DueGenuine(s.cfg, s.faceFrames, SortedKeys(s.faceFrames.Keys), s.latestFace, s.calls.tracked, s.calls.probed, ops);
    forall h | h in s.calls.handedOver + due ensures GenuineHandover(h, s.cfg, s.calls.tracked, s.calls.probed, ops) {
      assert h in s.calls.handedOver || h in due;
    }
  }

  lemma DrainTrackingProvenance(s: State, ops: seq<Op>)
    requires ProvenanceInv(s, ops)
    ensures ProvenanceInv(DrainTracking(s), ops)
  {
    var r := DrainIntake(s.intake, s.cfg.window);
    ProcessAllProvenance(s.(intake := r.0), r.1, ops);
  }

  lemma DrainProbesProvenance(s: State, ops: seq<Op>)
    requires ProvenanceInv(s, ops)
    ensures ProvenanceInv(DrainProbes(s), ops)
  {
    ProbeFoldProvenance(s, SortedKeys(s.intake.frames.Keys), ops);
  }

  lemma TrimProvenance(s: State, ops: seq<Op>)
    requires ProvenanceInv(s, ops)
    ensures ProvenanceInv(Trim(s), ops)
  {
    TrimFacesSubmap(s.faceFrames, s.commit.next, s.cfg.limit);
    TrimSubmap(s.early, s.cfg.limit);
    TrimSubmap(s.queuedProbes, s.cfg.limit);
  }

  lemma {:induction false} DrainProvenance(s: State, ops: seq<Op>)
    requires ProvenanceInv(s, ops)
    ensures ProvenanceInv(Drain(s), ops)
  {
    DrainProbesProvenance(s, ops);
    var s1 := DrainProbes(s);
    DrainTrackingProvenance(s1, ops);
    var s2 := DrainTracking(s1);
    DrainFacesProvenance(s2, ops);
    var s3 := DrainFaces(s2);
    var s4 := DrainCommit(DrainRecognition(s3));
    assert SameFaces(s3, s4);
    TrimProvenance(s4, ops);
  }

  lemma DrainStepProvenance(s: State, ops: seq<Op>, op: Op)
    requires ProvenanceInv(s, ops) && op == DrainReady
    ensures ProvenanceInv(Step(s, op), ops)
  {
    DrainProvenance(s, ops);
    DrainIsStep(s, op);
  }

  lemma OtherPushProvenance(s: State, ops: seq<Op>, op: Op)
    requires ProvenanceInv(s, ops) && op != DrainReady && !op.FaceAnswer?
    ensures ProvenanceInv(Step(s, op), ops)
  {
    assert SameFaces(s, Step(s, op));
  }

  lemma {:induction false} StepProvenance(s: State, ops: seq<Op>, op: Op)
    requires ProvenanceInv(s, ops)
    ensures ProvenanceInv(Step(s, op), ops + [op])
  {
    MoreOps(s, ops, op);
    if op.FaceAnswer? {
      assert (ops + [op])[|ops|] == op;
      PushFaceProvenance(s, op.face, ops + [op]);
    } else if op == DrainReady {
      DrainStepProvenance(s, ops + [op], op);
    } else {
      OtherPushProvenance(s, ops + [op], op);
    }
  }

  lemma {:induction false} RunProvenance(cfg: Config, ops: seq<Op>)
    ensures ProvenanceInv(Run(cfg, ops), ops) && Run(cfg, ops).cfg == cfg
    decreases |ops|
  {
    if ops != [] {
      var before, op := ops[..|ops| - 1], ops[|ops| - 1];
      Sequences.SplitLast(ops);
      RunProvenance(cfg, before);
      StepProvenance(Run(cfg, before), before, op);
    }
  }

  /**
   Whatever the order of calls, a recognition task is about a frame that was tracked, with the boxes that the tracker
   returned for that very update and only with face results that were pushed for that frame.
   */
  lemma {:induction false} TasksAreGenuine(cfg: Config, ops: seq<Op>, h: Handover)
    requires h in Run(cfg, ops).calls.handedOver
    ensures GenuineHandover(h, cfg, Run(cfg, ops).calls.tracked, Run(cfg, ops).calls.probed, ops)
  {
    RunProvenance(cfg, ops);
  }
}
