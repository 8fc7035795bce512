/**
 The privacy guarantee of the whole pipeline: tracker, face results, recognition, identity decision and commit
 (core/src/identity/identity_decider.cpp, the worker loops of core/src/pipeline/runtime.cpp, and the coordinator).
 */
module FailClosed {
  import opened Types
  import opened OrderedKeys
  import opened CoordinatorSpec
  import opened RecognizerWorkers
  import opened RecognizerTheorems
  import opened CoordinatorProvenance
  import FacePolicy
  import CoordinatorRuns

  // What the stage workers make of the tracks of a task

  function Anonymized(box: Box): Box {
    box.(identityKey := "", confidence := 0.0, action := Anonymize)
  }

  function KeyRequired(box: Box): Box {
    if box.identityKey == "" then box.(action := Anonymize) else box
  }

  /** The two identity deciders; the worker loop falls back to the first when a decider throws. */
  datatype Decider = NoopDecider | PassthroughDecider

  function DecideBox(d: Decider, box: Box): Box {
    if d == NoopDecider then Anonymized(box) else KeyRequired(box)
  }

  function DecideAll(d: Decider, boxes: seq<Box>): (r: seq<Box>)
    ensures |r| == |boxes|
  {
    seq(|boxes|, i requires 0 <= i < |boxes| => DecideBox(d, boxes[i]))
  }

  /**
   What a decision changes: the no-op decider leaves no identity and anonymizes, the pass-through decider anonymizes
   exactly the boxes without a key. Everything else about the box stays.
   */
  predicate Decides(d: Decider, box: Box, decided: Box) {
    && decided.rect == box.rect && decided.id == box.id && decided.score == box.score
    && decided.face == box.face && decided.state == box.state
    && (decided.action == Allow <==> d == PassthroughDecider && box.action == Allow && box.identityKey != "")
    && decided.identityKey == (if d == PassthroughDecider then box.identityKey else "")
    && decided.confidence == (if d == PassthroughDecider then box.confidence else 0.0)
  }

  lemma DecisionsAreExact(d: Decider, boxes: seq<Box>)
    ensures |DecideAll(d, boxes)| == |boxes|
    ensures forall j :: 0 <= j < |boxes| ==> Decides(d, boxes[j], DecideAll(d, boxes)[j])
  {
  }

  /** `decide`, which overwrites the copied tracks one by one. */
  method Decide(d: Decider, task: Item) returns (out: Item)
    ensures out == task.(tracks := DecideAll(d, task.tracks))
    ensures forall j :: 0 <= j < |task.tracks| ==> Decides(d, task.tracks[j], out.tracks[j])
  {
    var tracks := task.tracks;
    for i := 0 to |tracks|
      invariant |tracks| == |task.tracks|
      invariant forall j :: 0 <= j < i ==> tracks[j] == DecideBox(d, task.tracks[j])
      invariant forall j :: i <= j < |tracks| ==> tracks[j] == task.tracks[j]
    {
      if d == NoopDecider {
        tracks := tracks[i := tracks[i].(identityKey := "", confidence := 0.0, action := Anonymize)];
      } else if tracks[i].identityKey == "" {
        tracks := tracks[i := tracks[i].(action := Anonymize)];
      }
    }
    assert tracks == DecideAll(d, task.tracks);
    return task.(tracks := tracks);
  }

  /** What the recognizer worker returns when `recognize` throws, and what the no-op recognizer returns. */
  function Unrecognized(task: Item, state: RecognitionState): Item {
    task.(tracks := seq(|task.tracks|, i requires 0 <= i < |task.tracks| => task.tracks[i].(state := state)))
  }

  // Where results come from

  ghost predicate RecognitionSource(s: State, r: Item, sys: Sys) {
    || r in sys.results
    || exists h, state :: h in s.calls.handedOver && (state == Failed || state == Noop)
                          && r == Unrecognized(h.task, state)
  }

  ghost predicate IdentitySource(s: State, r: Item, d: Decider) {
    exists task, d' :: task in s.calls.identityTasks && (d' == d || d' == NoopDecider)
                       && r == task.(tracks := DecideAll(d', task.tracks))
  }

  ghost predicate Sourced(s: State, op: Op, sys: Sys, d: Decider) {
    match op
    case Recognition(r) => RecognitionSource(s, r, sys)
    case Identity(r) => IdentitySource(s, r, d)
    case _ => true
  }

  /** Every result that is pushed was computed by a stage worker from a task of this coordinator. */
  ghost predicate SourcedRun(cfg: Config, ops: seq<Op>, sys: Sys, d: Decider) {
    forall i :: 0 <= i < |ops| ==> Sourced(Run(cfg, ops[..i]), ops[i], sys, d)
  }

  /** The tracker and the face result applier hand out boxes that are to be anonymized and have no identity. */
  ghost predicate GuardedConfig(cfg: Config) {
    && (forall history :: FacePolicy.Guarded(cfg.tracker(history)))
    && (forall id, tracks, faces :: FacePolicy.Guarded(tracks) ==> FacePolicy.Guarded(cfg.apply(id, tracks, faces)))
  }

  /** That holds of the applier of the pipeline. */
  lemma PolicyIsGuarded(cfg: Config, policy: FacePolicy.Config)
    requires forall history :: FacePolicy.Guarded(cfg.tracker(history))
    requires forall id, tracks, faces :: cfg.apply(id, tracks, faces) == FacePolicy.Apply(id, tracks, faces, policy)
    ensures GuardedConfig(cfg)
  {
    forall id, tracks, faces | FacePolicy.Guarded(tracks) ensures FacePolicy.Guarded(cfg.apply(id, tracks, faces)) {
      FacePolicy.ApplyGuarded(id, tracks, faces, policy);
    }
  }

  // The invariant

  /** Every allowed box of the item was recognized. */
  ghost predicate Supported(r: Item, sys: Sys) {
    forall j :: 0 <= j < |r.tracks| && r.tracks[j].action == Allow ==> Recognized(sys, BoxAt(r, j))
  }

  /** What may be committed: an allowed box was recognized, has an identity, and the decider lets it pass. */
  ghost predicate Final(r: Item, sys: Sys, d: Decider) {
    && Supported(r, sys)
    && forall j :: 0 <= j < |r.tracks| && r.tracks[j].action == Allow ==>
         r.tracks[j].identityKey != "" && d == PassthroughDecider
  }

  ghost predicate FacesGuarded(faceFrames: map<int, PendingFaceFrame>) {
    forall k :: k in faceFrames ==> FacePolicy.Guarded(faceFrames[k].tracks)
  }

  ghost predicate HandedGuarded(handed: seq<Handover>) {
    forall h :: h in handed ==> FacePolicy.Guarded(h.task.tracks)
  }

  ghost predicate AllItems(items: seq<Item>, ok: Item -> bool) {
    forall i :: 0 <= i < |items| ==> ok(items[i])
  }

  ghost predicate AllPending(pending: map<int, Item>, ok: Item -> bool) {
    forall k :: k in pending ==> ok(pending[k])
  }

  ghost function IsSupported(sys: Sys): Item -> bool { (r: Item) => Supported(r, sys) }

  ghost function IsFinal(sys: Sys, d: Decider): Item -> bool { (r: Item) => Final(r, sys, d) }

  ghost predicate Guards(s: State) {
    FacesGuarded(s.faceFrames) && HandedGuarded(s.calls.handedOver) && GuardedConfig(s.cfg)
  }

  ghost predicate Supports(s: State, sys: Sys, d: Decider) {
    && AllPending(s.recognition.pending, IsSupported(sys)) && AllItems(s.calls.identityTasks, IsSupported(sys))
    && AllPending(s.commit.pending, IsFinal(sys, d)) && AllItems(s.calls.committed, IsFinal(sys, d))
  }

  ghost predicate PrivacyInv(s: State, sys: Sys, d: Decider) {
    Guards(s) && Supports(s, sys, d)
  }

  // Results

  lemma GuardedIsSupported(r: Item, sys: Sys)
    requires FacePolicy.Guarded(r.tracks)
    ensures Supported(r, sys)
  {
  }

  lemma RecognitionSupported(s: State, r: Item, trace: seq<Sys>, actions: seq<Action>)
    requires Guards(s) && IsRun(trace, actions) && RecognitionSource(s, r, trace[|trace| - 1])
    ensures Supported(r, trace[|trace| - 1])
  {
    var sys := trace[|trace| - 1];
    if r in sys.results {
      forall j | 0 <= j < |r.tracks| && r.tracks[j].action == Allow ensures Recognized(sys, BoxAt(r, j)) {
        RecognitionFailsClosed(trace, actions, |trace| - 1, r, j);
      }
    } else {
      var h, state :| h in s.calls.handedOver && (state == Failed || state == Noop)
                      && r == Unrecognized(h.task, state);
      GuardedIsSupported(r, sys);
    }
  }

  lemma DecisionFinal(task: Item, d': Decider, d: Decider, sys: Sys)
    requires Supported(task, sys) && (d' == d || d' == NoopDecider)
    ensures Final(task.(tracks := DecideAll(d', task.tracks)), sys, d)
  {
    var out := task.(tracks := DecideAll(d', task.tracks));
    forall j | 0 <= j < |out.tracks| && out.tracks[j].action == Allow
      ensures Recognized(sys, BoxAt(out, j)) && out.tracks[j].identityKey != "" && d == PassthroughDecider
    {
      assert BoxAt(out, j) == BoxAt(task, j);
    }
  }

  lemma IdentityFinal(s: State, r: Item, sys: Sys, d: Decider)
    requires Supports(s, sys, d) && IdentitySource(s, r, d)
    ensures Final(r, sys, d)
  {
    var task, d' :| task in s.calls.identityTasks && (d' == d || d' == NoopDecider)
                    && r == task.(tracks := DecideAll(d', task.tracks));
    var i :| 0 <= i < |s.calls.identityTasks| && s.calls.identityTasks[i] == task;
    assert IsSupported(sys)(s.calls.identityTasks[i]);
    DecisionFinal(task, d', d, sys);
  }

  // The tracking and face stages

  lemma ResetGuarded(tracks: seq<Box>)
    requires FacePolicy.Guarded(tracks)
    ensures FacePolicy.Guarded(ResetTracks(tracks))
  {
  }

  lemma TrackGuarded(s: State, u: TrackerUpdate)
    requires Guards(s)
    ensures Guards(TrackFrame(s, u))
  {
    var boxes := s.cfg.tracker(s.calls.tracked + [u]);
    ResetGuarded(boxes);
    assert FacePolicy.Guarded(NewFaceFrame(s, u.frame, boxes).tracks);
  }

  lemma HandGuarded(s: State, k: int)
    requires Guards(s) && k in s.faceFrames
    ensures Guards(QueueRecognition(s, k))
  {
    var p := s.faceFrames[k];
    if !p.queued {
      var h := MakeHandover(s.cfg, p);
      assert FacePolicy.Guarded(h.task.tracks);
      forall x | x in s.calls.handedOver + [h] ensures FacePolicy.Guarded(x.task.tracks) {
        assert x in s.calls.handedOver || x == h;
      }
    }
  }

  ghost predicate SameResults(s: State, t: State) {
    && t.cfg == s.cfg && t.recognition == s.recognition && t.commit.pending == s.commit.pending
    && t.calls.identityTasks == s.calls.identityTasks && t.calls.committed == s.calls.committed
  }

  lemma {:induction false} ProcessAllGuarded(s: State, updates: seq<TrackerUpdate>)
    requires Guards(s)
    ensures Guards(ProcessAll(s, updates)) && SameResults(s, ProcessAll(s, updates))
    decreases |updates|
  {
    if updates != [] {
      ProcessTrackedGuarded(s, updates[0]);
      ProcessAllGuarded(ProcessTracked(s, updates[0]), updates[1..]);
    }
  }

  lemma ProcessTrackedGuarded(s: State, u: TrackerUpdate)
    requires Guards(s)
    ensures Guards(ProcessTracked(s, u)) && SameResults(s, ProcessTracked(s, u))
  {
    TrackGuarded(s, u);
    HandGuarded(TrackFrame(s, u), u.frame.id);
  }

  lemma {:induction false} ProbeFoldGuarded(s: State, keys: seq<int>)
    requires Guards(s) && forall k :: k in keys ==> k in s.intake.frames
    ensures Guards(ProbeFold(s, keys)) && SameResults(s, ProbeFold(s, keys))
    decreases |keys|
  {
    if keys != [] {
      ProbeFoldGuarded(ProbeStep(s, keys[0]), keys[1..]);
    }
  }

  lemma {:induction false} DueGuarded(cfg: Config, all: map<int, PendingFaceFrame>, keys: seq<int>, latestFace: int)
    requires GuardedConfig(cfg) && FacesGuarded(all) && forall k :: k in keys ==> k in all
    ensures HandedGuarded(DueHandovers(cfg, all, keys, latestFace))
    decreases |keys|
  {
    if keys != [] {
      DueGuarded(cfg, all, keys[1..], latestFace);
      assert keys[0] in keys;
    }
  }

  lemma DrainFacesGuarded(s: State)
    requires Guards(s)
    ensures Guards(DrainFaces(s)) && SameResults(s, DrainFaces(s))
  {
    var due := DueHandovers(s.cfg, s.faceFrames, SortedKeys(s.faceFrames.Keys), s.latestFace);
    DueGuarded(s.cfg, s.faceFrames, SortedKeys(s.faceFrames.Keys), s.latestFace);
    forall h | h in s.calls.handedOver + due ensures FacePolicy.Guarded(h.task.tracks) {
      assert h in s.calls.handedOver || h in due;
    }
  }

  lemma EarlyStages(s: State)
    requires Guards(s)
    ensures var t := DrainFaces(DrainTracking(DrainProbes(s))); Guards(t) && SameResults(s, t)
  {
    ProbeFoldGuarded(s, SortedKeys(s.intake.frames.Keys));
    var s1 := DrainProbes(s);
    assert Guards(s1) && SameResults(s, s1);
    var r := DrainIntake(s1.intake, s1.cfg.window);
    ProcessAllGuarded(s1.(intake := r.0), r.1);
    var s2 := DrainTracking(s1);
    assert Guards(s2) && SameResults(s, s2);
    DrainFacesGuarded(s2);
  }

  // The recognition and commit stages

  lemma {:induction false} LoopKeepsItems(stage: Stage, latest: int, window: int, ok: Item -> bool)
    requires window >= 0 && AllPending(stage.pending, ok)
    ensures var r := ReorderLoop(stage, latest, window); AllPending(r.0.pending, ok) && AllItems(r.1, ok)
    decreases |stage.pending|, latest - stage.next
  {
    var k := stage.next;
    if k < 0 {
    } else if k in stage.pending {
      assert (stage.pending - {k}).Keys == stage.pending.Keys - {k};
      LoopKeepsItems(Stage(k + 1, stage.pending - {k}), latest, window, ok);
    } else if latest >= 0 && latest - k > window {
      LoopKeepsItems(stage.(next := k + 1), latest, window, ok);
    }
  }

  lemma DrainKeepsItems(stage: Stage, latest: int, window: int, items: seq<Item>, ok: Item -> bool)
    requires window >= 0 && AllPending(stage.pending, ok) && AllItems(items, ok)
    ensures var r := DrainStage(stage, latest, window); AllPending(r.0.pending, ok) && AllItems(items + r.1, ok)
  {
    LoopKeepsItems(StartStage(stage), latest, window, ok);
  }

  lemma LateStages(s: State, sys: Sys, d: Decider)
    requires PrivacyInv(s, sys, d)
    ensures PrivacyInv(DrainCommit(DrainRecognition(s)), sys, d)
  {
    DrainKeepsItems(s.recognition, s.latestRecognition, s.cfg.window, s.calls.identityTasks, IsSupported(sys));
    var t := DrainRecognition(s);
    DrainKeepsItems(t.commit, t.latestIdentity, t.cfg.window, t.calls.committed, IsFinal(sys, d));
  }

  lemma TrimPrivacy(s: State, sys: Sys, d: Decider)
    requires PrivacyInv(s, sys, d)
    ensures PrivacyInv(Trim(s), sys, d)
  {
    CoordinatorRuns.TrimFacesSubmap(s.faceFrames, s.commit.next, s.cfg.limit);
    CoordinatorRuns.TrimSubmap(s.recognition.pending, s.cfg.limit);
    CoordinatorRuns.TrimSubmap(s.commit.pending, s.cfg.limit);
  }

  lemma DrainPrivacy(s: State, sys: Sys, d: Decider)
    requires PrivacyInv(s, sys, d)
    ensures PrivacyInv(Drain(s), sys, d)
  {
    EarlyStages(s);
    var t := DrainFaces(DrainTracking(DrainProbes(s)));
    LateStages(t, sys, d);
    TrimPrivacy(DrainCommit(DrainRecognition(t)), sys, d);
  }

  lemma PushPrivacy(s: State, op: Op, trace: seq<Sys>, actions: seq<Action>, d: Decider)
    requires IsRun(trace, actions) && PrivacyInv(s, trace[|trace| - 1], d) && op != DrainReady
    requires Sourced(s, op, trace[|trace| - 1], d)
    ensures PrivacyInv(Step(s, op), trace[|trace| - 1], d)
  {
    match op
    case Recognition(r) => RecognitionSupported(s, r, trace, actions);
    case Identity(r) => IdentityFinal(s, r, trace[|trace| - 1], d);
    case _ =>
  }

  lemma {:induction false} StepPrivacy(s: State, op: Op, trace: seq<Sys>, actions: seq<Action>, d: Decider)
    requires IsRun(trace, actions) && PrivacyInv(s, trace[|trace| - 1], d) && Sourced(s, op, trace[|trace| - 1], d)
    ensures PrivacyInv(Step(s, op), trace[|trace| - 1], d)
  {
    if op == DrainReady {
      DrainPrivacy(s, trace[|trace| - 1], d);
    } else {
      PushPrivacy(s, op, trace, actions, d);
    }
  }

  lemma {:induction false} RunPrivacy(cfg: Config, ops: seq<Op>, trace: seq<Sys>, actions: seq<Action>, d: Decider)
    requires GuardedConfig(cfg) && IsRun(trace, actions) && SourcedRun(cfg, ops, trace[|trace| - 1], d)
    ensures PrivacyInv(Run(cfg, ops), trace[|trace| - 1], d)
    decreases |ops|
  {
    if ops != [] {
      var before, op := ops[..|ops| - 1], ops[|ops| - 1];
      forall i | 0 <= i < |before| ensures Sourced(Run(cfg, before[..i]), before[i], trace[|trace| - 1], d) {
        assert before[..i] == ops[..i];
      }
      RunPrivacy(cfg, before, trace, actions, d);
      StepPrivacy(Run(cfg, before), op, trace, actions, d);
    }
  }

  /** A committed box is shown only if the decider lets it pass and the recognizer had a reason. */
  lemma CommittedBoxesRecognized(cfg: Config, ops: seq<Op>, trace: seq<Sys>, actions: seq<Action>, d: Decider, n: nat,
                                 j: nat)
    requires GuardedConfig(cfg) && IsRun(trace, actions) && SourcedRun(cfg, ops, trace[|trace| - 1], d)
    requires n < |Run(cfg, ops).calls.committed| && j < |Run(cfg, ops).calls.committed[n].tracks|
    ensures var r := Run(cfg, ops).calls.committed[n];
            r.tracks[j].action == Allow ==>
              && d == PassthroughDecider && r.tracks[j].identityKey != ""
              && Recognized(trace[|trace| - 1], BoxAt(r, j))
  {
    RunPrivacy(cfg, ops, trace, actions, d);
    assert IsFinal(trace[|trace| - 1], d)(Run(cfg, ops).calls.committed[n]);
  }

  // Back to the camera

  /** The tracker hands out boxes without faces, and the applier adds only faces of its results. */
  ghost predicate FacesTraced(cfg: Config) {
    && (forall history, i :: 0 <= i < |cfg.tracker(history)| ==> cfg.tracker(history)[i].face == None)
    && (forall id, tracks, faces, face :: FacePolicy.HasFace(cfg.apply(id, tracks, faces), face) ==>
          FacePolicy.HasFace(tracks, face) || FacePolicy.InResults(faces, id, face))
  }

  /** That holds of the applier of the pipeline. */
  lemma PolicyTracesFaces(cfg: Config, policy: FacePolicy.Config)
    requires forall history, i :: 0 <= i < |cfg.tracker(history)| ==> cfg.tracker(history)[i].face == None
    requires forall id, tracks, faces :: cfg.apply(id, tracks, faces) == FacePolicy.Apply(id, tracks, faces, policy)
    ensures FacesTraced(cfg)
  {
    forall id, tracks, faces, face | FacePolicy.HasFace(cfg.apply(id, tracks, faces), face)
      ensures FacePolicy.HasFace(tracks, face) || FacePolicy.InResults(faces, id, face)
    {
      FacePolicy.ApplyFaces(id, tracks, faces, policy, face);
    }
  }

  /** What the recognizer starts for this stream are tasks that the coordinator handed over. */
  ghost predicate OwnTasks(handed: seq<Handover>, actions: seq<Action>, stream: string) {
    forall m :: 0 <= m < |actions| && actions[m].Start? && actions[m].task.frame.streamId == stream ==>
      exists h :: h in handed && h.task == actions[m].task
  }

  /** A face detector reported the face for this frame. */
  ghost predicate Reported(ops: seq<Op>, frameId: int, face: Face) {
    exists r :: FaceAnswer(r) in ops && r.frameId == frameId && FacePolicy.StampedFrom(r.faces, frameId, face)
  }

  /** The evidence stands on a frame that was tracked, with a face that was reported for it. */
  ghost predicate Traced(e: Evidence, h: Handover, cfg: Config, ops: seq<Op>) {
    && h in Run(cfg, ops).calls.handedOver && h.task == e.task
    && GenuineHandover(h, cfg, Run(cfg, ops).calls.tracked, Run(cfg, ops).calls.probed, ops)
    && e.index < |e.task.tracks| && e.task.tracks[e.index].face.Some?
    && Reported(ops, e.task.frameId, e.task.tracks[e.index].face.value)
  }

  lemma TrackerFaceless(cfg: Config, tracked: seq<TrackerUpdate>, probed: seq<int>, frame: Frame, boxes: seq<Box>,
                        face: Face)
    requires FacesTraced(cfg) && TrackerOutput(cfg, tracked, probed, frame, boxes)
    ensures !FacePolicy.HasFace(boxes, face)
  {
  }

  lemma ResultsReported(h: Handover, faces: seq<seq<Face>>, ops: seq<Op>, face: Face)
    requires PushedFor(h.results, h.task.frameId, ops)
    requires |faces| == |h.results| && forall i :: 0 <= i < |faces| ==> faces[i] == h.results[i].faces
    requires FacePolicy.InResults(faces, h.task.frameId, face)
    ensures Reported(ops, h.task.frameId, face)
  {
    var n :| 0 <= n < |faces| && FacePolicy.StampedFrom(faces[n], h.task.frameId, face);
    assert h.results[n] in h.results && faces[n] == h.results[n].faces;
  }

  lemma EvidenceTraced(cfg: Config, ops: seq<Op>, h: Handover, e: Evidence)
    requires FacesTraced(cfg) && h in Run(cfg, ops).calls.handedOver && h.task == e.task
    requires e.index < |e.task.tracks| && e.task.tracks[e.index].face.Some?
    ensures Traced(e, h, cfg, ops)
  {
    var face := e.task.tracks[e.index].face.value;
    TasksAreGenuine(cfg, ops, h);
    var faces :| |faces| == |h.results| && (forall i :: 0 <= i < |faces| ==> faces[i] == h.results[i].faces)
                 && h.task.tracks == cfg.apply(h.task.frameId, h.tracked, faces);
    assert FacePolicy.HasFace(cfg.apply(h.task.frameId, h.tracked, faces), face);
    TrackerFaceless(cfg, Run(cfg, ops).calls.tracked, Run(cfg, ops).calls.probed, h.task.frame, h.tracked, face);
    ResultsReported(h, faces, ops, face);
  }

  lemma ReasonTraced(cfg: Config, ops: seq<Op>, trace: seq<Sys>, actions: seq<Action>, stream: string, e: Evidence)
    requires FacesTraced(cfg) && IsRun(trace, actions) && OwnTasks(Run(cfg, ops).calls.handedOver, actions, stream)
    requires e in trace[|trace| - 1].evidence && e.task.frame.streamId == stream
    requires e.index < |e.task.tracks| && e.task.tracks[e.index].face.Some?
    ensures exists h :: Traced(e, h, cfg, ops)
  {
    AllTasksStarted(trace, actions, |trace| - 1);
    assert actions[..|trace| - 1] == actions;
    assert Started(actions, e.task);
    var m :| 0 <= m < |actions| && actions[m].Start? && actions[m].task == e.task;
    var h :| h in Run(cfg, ops).calls.handedOver && h.task == actions[m].task;
    EvidenceTraced(cfg, ops, h, e);
  }

  /** Why a box may be shown, all the way back to the tracker and the face detector. */
  ghost predicate Justified(cfg: Config, ops: seq<Op>, sys: Sys, p: Placed) {
    exists e, h :: Reason(e, sys, p) && Traced(e, h, cfg, ops)
  }

  /**
   Fail closed, end to end. However frames, results, workers, reloads and drains interleave, and whatever is late, lost,
   skipped or thrown: a committed box is shown only if the pass-through decider is configured, the box has an identity,
   and a face, reported by the face detector for a frame that was tracked, passed the quality gates and was matched with
   at least the threshold against one loaded, non-empty gallery. The face is one of the track of the box; a box without a
   track id rests on its own face in its own frame.
   */
  lemma {:induction false} CommittedBoxesFailClosed(cfg: Config, ops: seq<Op>, trace: seq<Sys>, actions: seq<Action>,
                                                    d: Decider, n: nat, j: nat)
    requires GuardedConfig(cfg) && FacesTraced(cfg)
    requires IsRun(trace, actions) && SourcedRun(cfg, ops, trace[|trace| - 1], d)
    requires n < |Run(cfg, ops).calls.committed| && j < |Run(cfg, ops).calls.committed[n].tracks|
    requires OwnTasks(Run(cfg, ops).calls.handedOver, actions, Run(cfg, ops).calls.committed[n].frame.streamId)
    ensures var r := Run(cfg, ops).calls.committed[n];
            r.tracks[j].action == Allow ==>
              && d == PassthroughDecider && r.tracks[j].identityKey != ""
              && Justified(cfg, ops, trace[|trace| - 1], BoxAt(r, j))
  {
    CommittedBoxesRecognized(cfg, ops, trace, actions, d, n, j);
    var r := Run(cfg, ops).calls.committed[n];
    if r.tracks[j].action == Allow {
      var e :| Reason(e, trace[|trace| - 1], BoxAt(r, j));
      ReasonTraced(cfg, ops, trace, actions, r.frame.streamId, e);
      var h :| Traced(e, h, cfg, ops);
    }
  }
}
