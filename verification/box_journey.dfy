/**
 The way of a box through the whole pipeline: tracker, face results, recognition, identity decision and commit. Nobody
 whom the tracker or the face detector found is missing from what is committed.
 */
module BoxJourney {
  import opened Types
  import Sequences
  import opened OrderedKeys
  import opened CoordinatorSpec
  import opened CoordinatorProvenance
  import opened RecognizerWorkers
  import opened RecognizerTheorems
  import opened FailClosed
  import RecognizerOutcomes
  import CoordinatorAnswers
  import CoordinatorTheorems
  import CoordinatorRuns
  import FacePolicy
  import FaceRules
  import Geometry

  // Results follow tasks

  /** The same boxes of the same frame, whatever decisions they show. */
  ghost predicate Follows(r: Item, task: Item) {
    r.frame == task.frame && r.frameId == task.frameId && BoxesKept(task.tracks, r.tracks)
  }

  /** The item goes back to a task that was handed over, or that the recognizer started. */
  ghost predicate Rooted(r: Item, handed: seq<Handover>, actions: seq<Action>) {
    || (exists h :: h in handed && Follows(r, h.task))
    || (exists task :: Started(actions, task) && Follows(r, task))
  }

  ghost function IsRooted(handed: seq<Handover>, actions: seq<Action>): Item -> bool {
    (r: Item) => Rooted(r, handed, actions)
  }

  lemma FollowsOn(r: Item, mid: Item, task: Item)
    requires Follows(r, mid) && Follows(mid, task)
    ensures Follows(r, task)
  {
  }

  lemma RootedOn(r: Item, mid: Item, handed: seq<Handover>, actions: seq<Action>)
    requires Follows(r, mid) && Rooted(mid, handed, actions)
    ensures Rooted(r, handed, actions)
  {
    if h :| h in handed && Follows(mid, h.task) {
      FollowsOn(r, mid, h.task);
    } else {
      var task :| Started(actions, task) && Follows(mid, task);
      FollowsOn(r, mid, task);
    }
  }

  lemma RecognitionRooted(s: State, r: Item, trace: seq<Sys>, actions: seq<Action>)
    requires IsRun(trace, actions) && RecognitionSource(s, r, trace[|trace| - 1])
    ensures Rooted(r, s.calls.handedOver, actions)
  {
    var n := |trace| - 1;
    if r in trace[n].results {
      RecognizerOutcomes.EveryBoxIsAccountedFor(trace, actions, n, r);
      var task :| Started(actions[..n], task) && RecognizerOutcomes.ResultOf(r, task, trace, n);
      assert actions[..n] == actions;
      assert Follows(r, task);
    } else {
      var h, state :| h in s.calls.handedOver && (state == Failed || state == Noop)
                      && r == Unrecognized(h.task, state);
      assert Follows(r, h.task);
    }
  }

  lemma IdentityRooted(s: State, r: Item, d: Decider, handed: seq<Handover>, actions: seq<Action>)
    requires IdentitySource(s, r, d) && AllItems(s.calls.identityTasks, IsRooted(handed, actions))
    ensures Rooted(r, handed, actions)
  {
    var task, d' :| task in s.calls.identityTasks && (d' == d || d' == NoopDecider)
                    && r == task.(tracks := DecideAll(d', task.tracks));
    DecisionsAreExact(d', task.tracks);
    var i :| 0 <= i < |s.calls.identityTasks| && s.calls.identityTasks[i] == task;
    assert IsRooted(handed, actions)(s.calls.identityTasks[i]);
    RootedOn(r, task, handed, actions);
  }

  // Everything that waits or was passed on is rooted

  ghost predicate AllRooted(s: State, ok: Item -> bool) {
    && AllPending(s.recognition.pending, ok) && AllItems(s.calls.identityTasks, ok)
    && AllPending(s.commit.pending, ok) && AllItems(s.calls.committed, ok)
  }

  lemma {:induction false} TrackingKeepsResults(s: State, updates: seq<TrackerUpdate>)
    ensures SameResults(s, ProcessAll(s, updates))
    decreases |updates|
  {
    if updates != [] {
      TrackingKeepsResults(ProcessTracked(s, updates[0]), updates[1..]);
    }
  }

  lemma {:induction false} ProbesKeepResults(s: State, keys: seq<int>)
    requires forall k :: k in keys ==> k in s.intake.frames
    ensures SameResults(s, ProbeFold(s, keys))
    decreases |keys|
  {
    if keys != [] {
      ProbesKeepResults(ProbeStep(s, keys[0]), keys[1..]);
    }
  }

  lemma EarlyStagesKeepResults(s: State)
    ensures SameResults(s, DrainFaces(DrainTracking(DrainProbes(s))))
  {
    ProbesKeepResults(s, SortedKeys(s.intake.frames.Keys));
    var s1 := DrainProbes(s);
    var r := DrainIntake(s1.intake, s1.cfg.window);
    TrackingKeepsResults(s1.(intake := r.0), r.1);
  }

  lemma LateStagesKeepRooted(s: State, ok: Item -> bool)
    requires AllRooted(s, ok)
    ensures AllRooted(DrainCommit(DrainRecognition(s)), ok)
  {
    DrainKeepsItems(s.recognition, s.latestRecognition, s.cfg.window, s.calls.identityTasks, ok);
    var t := DrainRecognition(s);
    DrainKeepsItems(t.commit, t.latestIdentity, t.cfg.window, t.calls.committed, ok);
  }

  lemma DrainKeepsRooted(s: State, ok: Item -> bool)
    requires AllRooted(s, ok)
    ensures AllRooted(Drain(s), ok)
  {
    EarlyStagesKeepResults(s);
    LateStagesKeepRooted(DrainFaces(DrainTracking(DrainProbes(s))), ok);
    var t := DrainStages(s);
    CoordinatorRuns.TrimSubmap(t.recognition.pending, t.cfg.limit);
    CoordinatorRuns.TrimSubmap(t.commit.pending, t.cfg.limit);
  }

  lemma PushKeepsRooted(s: State, op: Op, ok: Item -> bool)
    requires AllRooted(s, ok) && op != DrainReady
    requires (op.Recognition? || op.Identity?) ==> ok(op.item)
    ensures AllRooted(Step(s, op), ok)
  {
  }

  /** What a run hands over stays in the log of every longer run. */
  lemma HandedStays(cfg: Config, ops: seq<Op>, op: Op)
    ensures Run(cfg, ops).calls.handedOver <= Run(cfg, ops + [op]).calls.handedOver
  {
    CoordinatorTheorems.RunStep(cfg, ops, op);
    if op == DrainReady {
      CoordinatorAnswers.DrainHands(Run(cfg, ops));
    } else {
      CoordinatorAnswers.PushesCallNobody(Run(cfg, ops), op);
    }
  }

  lemma RootedMore(handed: seq<Handover>, handed': seq<Handover>, actions: seq<Action>, s: State)
    requires handed <= handed' && AllRooted(s, IsRooted(handed, actions))
    ensures AllRooted(s, IsRooted(handed', actions))
  {
    forall r | Rooted(r, handed, actions) ensures Rooted(r, handed', actions) {
      if h :| h in handed && Follows(r, h.task) {
        assert h in handed';
      }
    }
    var ok, ok' := IsRooted(handed, actions), IsRooted(handed', actions);
    assert forall r :: ok(r) ==> ok'(r);
  }

  lemma StepRooted(cfg: Config, ops: seq<Op>, op: Op, trace: seq<Sys>, actions: seq<Action>, d: Decider)
    requires IsRun(trace, actions) && Sourced(Run(cfg, ops), op, trace[|trace| - 1], d)
    requires AllRooted(Run(cfg, ops), IsRooted(Run(cfg, ops).calls.handedOver, actions))
    ensures AllRooted(Run(cfg, ops + [op]), IsRooted(Run(cfg, ops + [op]).calls.handedOver, actions))
  {
    var s, ok := Run(cfg, ops), IsRooted(Run(cfg, ops).calls.handedOver, actions);
    CoordinatorTheorems.RunStep(cfg, ops, op);
    if op == DrainReady {
      DrainKeepsRooted(s, ok);
    } else {
      if op.Recognition? {
        RecognitionRooted(s, op.item, trace, actions);
      } else if op.Identity? {
        IdentityRooted(s, op.item, d, s.calls.handedOver, actions);
      }
      PushKeepsRooted(s, op, ok);
    }
    HandedStays(cfg, ops, op);
    RootedMore(s.calls.handedOver, Run(cfg, ops + [op]).calls.handedOver, actions, Run(cfg, ops + [op]));
  }

  lemma SourcedBefore(cfg: Config, ops: seq<Op>, sys: Sys, d: Decider)
    requires ops != [] && SourcedRun(cfg, ops, sys, d)
    ensures SourcedRun(cfg, ops[..|ops| - 1], sys, d)
    ensures Sourced(Run(cfg, ops[..|ops| - 1]), ops[|ops| - 1], sys, d)
  {
    var before := ops[..|ops| - 1];
    forall i | 0 <= i < |before| ensures Sourced(Run(cfg, before[..i]), before[i], sys, d) {
      assert before[..i] == ops[..i];
    }
  }

  lemma {:induction false} RunRooted(cfg: Config, ops: seq<Op>, trace: seq<Sys>, actions: seq<Action>, d: Decider)
    requires IsRun(trace, actions) && SourcedRun(cfg, ops, trace[|trace| - 1], d)
    ensures AllRooted(Run(cfg, ops), IsRooted(Run(cfg, ops).calls.handedOver, actions))
    decreases |ops|
  {
    if ops != [] {
      SourcedBefore(cfg, ops, trace[|trace| - 1], d);
      RunRooted(cfg, ops[..|ops| - 1], trace, actions, d);
      Sequences.SplitLast(ops);
      StepRooted(cfg, ops[..|ops| - 1], ops[|ops| - 1], trace, actions, d);
    }
  }

  // From the committed boxes back to the tracker and the face detector

  /** Everybody the tracker returned is there, in the same place of the list and of the image. */
  ghost predicate Everybody(returned: seq<Box>, boxes: seq<Box>) {
    && |returned| <= |boxes|
    && forall i :: 0 <= i < |returned| ==>
         boxes[i].rect == returned[i].rect && boxes[i].id == returned[i].id && boxes[i].score == returned[i].score
  }

  /** The face is on a box that lies on it, or on the box of a person that holds at least half of it. */
  ghost predicate FaceThere(boxes: seq<Box>, f: Face, frameId: int) {
    exists i :: 0 <= i < |boxes| && FaceRules.Carries(boxes[i], f, frameId)
                && (boxes[i].rect == f.bbox || FaceRules.HalfInside(f.bbox, boxes[i].rect))
  }

  ghost predicate HasEverybody(cfg: Config, tracked: seq<TrackerUpdate>, c: Item) {
    exists n :: 0 <= n < |tracked| && tracked[n].frame == c.frame
                && Everybody(cfg.tracker(tracked[..n + 1]), c.tracks)
                && (!cfg.independent ==> |c.tracks| == |cfg.tracker(tracked[..n + 1])|)
  }

  ghost predicate HasFaces(h: Handover, c: Item) {
    h.results != [] ==> forall f :: f in h.results[|h.results| - 1].faces ==> FaceThere(c.tracks, f, c.frameId)
  }

  ghost predicate Complete(cfg: Config, h: Handover, tracked: seq<TrackerUpdate>, c: Item) {
    HasEverybody(cfg, tracked, c) && (cfg.independent ==> HasFaces(h, c))
  }

  /** The applier of the pipeline. */
  ghost predicate Applies(cfg: Config, policy: FacePolicy.Config) {
    && policy.independent == cfg.independent
    && forall id, tracks, faces :: cfg.apply(id, tracks, faces) == FacePolicy.Apply(id, tracks, faces, policy)
  }

  lemma EverybodyApplied(cfg: Config, policy: FacePolicy.Config, h: Handover, faces: seq<seq<Face>>, out: seq<Box>)
    requires Applies(cfg, policy) && h.task.tracks == cfg.apply(h.task.frameId, h.tracked, faces)
    requires |h.tracked| == |out| && forall i :: 0 <= i < |out| ==> SameTrack(h.tracked[i], out[i])
    ensures Everybody(out, h.task.tracks) && (!cfg.independent ==> |h.task.tracks| == |out|)
  {
    FaceRules.ApplyKeepsBoxes(h.task.frameId, h.tracked, faces, policy);
  }

  lemma TaskHasEverybody(cfg: Config, policy: FacePolicy.Config, h: Handover, tracked: seq<TrackerUpdate>,
                         probed: seq<int>)
    requires Applies(cfg, policy) && AppliedTo(h, cfg) && TrackerOutput(cfg, tracked, probed, h.task.frame, h.tracked)
    ensures HasEverybody(cfg, tracked, h.task)
  {
    var faces: seq<seq<Face>> :| |faces| == |h.results|
                                 && (forall i :: 0 <= i < |faces| ==> faces[i] == h.results[i].faces)
                                 && h.task.tracks == cfg.apply(h.task.frameId, h.tracked, faces);
    var n :| 0 <= n < |tracked| && tracked[n].frame == h.task.frame
             && TracksOf(cfg.tracker(tracked[..n + 1]), h.tracked, MayBeAhead(cfg, h.task.frame.id, probed));
    EverybodyApplied(cfg, policy, h, faces, cfg.tracker(tracked[..n + 1]));
  }

  lemma TaskHasFaces(cfg: Config, policy: FacePolicy.Config, h: Handover)
    requires Applies(cfg, policy) && AppliedTo(h, cfg) && cfg.independent
    ensures HasFaces(h, h.task)
  {
    var faces: seq<seq<Face>> :| |faces| == |h.results|
                                 && (forall i :: 0 <= i < |faces| ==> faces[i] == h.results[i].faces)
                                 && h.task.tracks == cfg.apply(h.task.frameId, h.tracked, faces);
    if h.results != [] {
      forall f | f in h.results[|h.results| - 1].faces ensures FaceThere(h.task.tracks, f, h.task.frameId) {
        FaceRules.NoFaceIsLost(h.task.frameId, h.tracked, faces, policy, f);
      }
    }
  }

  lemma FaceFollows(c: Item, task: Item, f: Face)
    requires Follows(c, task) && FaceThere(task.tracks, f, task.frameId)
    ensures FaceThere(c.tracks, f, c.frameId)
  {
    var i :| 0 <= i < |task.tracks| && FaceRules.Carries(task.tracks[i], f, task.frameId)
             && (task.tracks[i].rect == f.bbox || FaceRules.HalfInside(f.bbox, task.tracks[i].rect));
    assert SameBox(c.tracks[i], task.tracks[i]);
  }

  lemma CompleteFollows(cfg: Config, h: Handover, tracked: seq<TrackerUpdate>, c: Item)
    requires Complete(cfg, h, tracked, h.task) && Follows(c, h.task)
    ensures Complete(cfg, h, tracked, c)
  {
    var n :| 0 <= n < |tracked| && tracked[n].frame == h.task.frame
             && Everybody(cfg.tracker(tracked[..n + 1]), h.task.tracks)
             && (!cfg.independent ==> |h.task.tracks| == |cfg.tracker(tracked[..n + 1])|);
    assert Everybody(cfg.tracker(tracked[..n + 1]), c.tracks);
    if cfg.independent && h.results != [] {
      forall f | f in h.results[|h.results| - 1].faces ensures FaceThere(c.tracks, f, c.frameId) {
        FaceFollows(c, h.task, f);
      }
    }
  }

  lemma TaskComplete(cfg: Config, policy: FacePolicy.Config, ops: seq<Op>, h: Handover)
    requires Applies(cfg, policy) && h in Run(cfg, ops).calls.handedOver
    ensures Complete(cfg, h, Run(cfg, ops).calls.tracked, h.task)
  {
    TasksAreGenuine(cfg, ops, h);
    TaskHasEverybody(cfg, policy, h, Run(cfg, ops).calls.tracked, Run(cfg, ops).calls.probed);
    if cfg.independent {
      TaskHasFaces(cfg, policy, h);
    }
  }

  /**
   Nobody is forgotten, end to end. However frames, results, workers, reloads and drains interleave, and whatever is late,
   lost, skipped or thrown: what is committed for a frame goes back to one hand-over, and it has a box for every person
   that the tracker returned for the frame, in the same place, and in independent mode for every face of the applied face
   result. Only independent mode adds boxes.
   */
  lemma NobodyIsForgotten(cfg: Config, policy: FacePolicy.Config, ops: seq<Op>, trace: seq<Sys>, actions: seq<Action>,
                          d: Decider, c: Item)
    requires Applies(cfg, policy)
    requires IsRun(trace, actions) && SourcedRun(cfg, ops, trace[|trace| - 1], d)
    requires c in Run(cfg, ops).calls.committed && OwnTasks(Run(cfg, ops).calls.handedOver, actions, c.frame.streamId)
    ensures exists h :: h in Run(cfg, ops).calls.handedOver && Complete(cfg, h, Run(cfg, ops).calls.tracked, c)
  {
    var s := Run(cfg, ops);
    RunRooted(cfg, ops, trace, actions, d);
    var k :| 0 <= k < |s.calls.committed| && s.calls.committed[k] == c;
    assert IsRooted(s.calls.handedOver, actions)(s.calls.committed[k]);
    CommittedHasHandover(c, s.calls.handedOver, actions);
    var h :| h in s.calls.handedOver && Follows(c, h.task);
    TaskComplete(cfg, policy, ops, h);
    CompleteFollows(cfg, h, s.calls.tracked, c);
  }

  lemma CommittedHasHandover(c: Item, handed: seq<Handover>, actions: seq<Action>)
    requires Rooted(c, handed, actions) && OwnTasks(handed, actions, c.frame.streamId)
    ensures exists h :: h in handed && Follows(c, h.task)
  {
    if task :| Started(actions, task) && Follows(c, task) {
      var m :| 0 <= m < |actions| && actions[m].Start? && actions[m].task == task;
      var h :| h in handed && h.task == actions[m].task;
      assert Follows(c, h.task);
    }
  }
}
