/**
 What every call keeps. Each stage of the coordinator has its own invariant; each is shown to survive every push and
 every stage of a drain.
 */
module CoordinatorInvariants {
  import opened Types
  import opened CoordinatorSpec

  // Ids that occur in a log

  ghost function UpdateIds(log: seq<TrackerUpdate>): set<int> {
    set i | 0 <= i < |log| :: log[i].frame.id
  }

  ghost function HandoverIds(log: seq<Handover>): set<int> {
    set i | 0 <= i < |log| :: log[i].task.frameId
  }

  ghost function ItemIds(log: seq<Item>): set<int> {
    set i | 0 <= i < |log| :: log[i].frameId
  }

  lemma UpdateIdsAppend(log: seq<TrackerUpdate>, x: TrackerUpdate)
    ensures UpdateIds(log + [x]) == UpdateIds(log) + {x.frame.id}
  {
    var longer := log + [x];
    assert longer[|log|] == x;
    forall k | k in UpdateIds(log) ensures k in UpdateIds(longer) {
      var i :| 0 <= i < |log| && log[i].frame.id == k;
      assert longer[i] == log[i];
    }
  }

  lemma HandoverIdsAppend(log: seq<Handover>, x: Handover)
    ensures HandoverIds(log + [x]) == HandoverIds(log) + {x.task.frameId}
  {
    var longer := log + [x];
    assert longer[|log|] == x;
    forall k | k in HandoverIds(log) ensures k in HandoverIds(longer) {
      var i :| 0 <= i < |log| && log[i].task.frameId == k;
      assert longer[i] == log[i];
    }
  }

  lemma ItemIdsAppend(log: seq<Item>, x: Item)
    ensures ItemIds(log + [x]) == ItemIds(log) + {x.frameId}
  {
    var longer := log + [x];
    assert longer[|log|] == x;
    forall k | k in ItemIds(log) ensures k in ItemIds(longer) {
      var i :| 0 <= i < |log| && log[i].frameId == k;
      assert longer[i] == log[i];
    }
  }

  lemma UpdateIdsConcat(a: seq<TrackerUpdate>, b: seq<TrackerUpdate>)
    ensures UpdateIds(a + b) == UpdateIds(a) + UpdateIds(b)
  {
    var c := a + b;
    forall k | k in UpdateIds(a) ensures k in UpdateIds(c) {
      var i :| 0 <= i < |a| && a[i].frame.id == k;
      assert c[i] == a[i];
    }
    forall k | k in UpdateIds(b) ensures k in UpdateIds(c) {
      var i :| 0 <= i < |b| && b[i].frame.id == k;
      assert c[|a| + i] == b[i];
    }
  }

  lemma HandoverIdsConcat(a: seq<Handover>, b: seq<Handover>)
    ensures HandoverIds(a + b) == HandoverIds(a) + HandoverIds(b)
  {
    var c := a + b;
    forall k | k in HandoverIds(a) ensures k in HandoverIds(c) {
      var i :| 0 <= i < |a| && a[i].task.frameId == k;
      assert c[i] == a[i];
    }
    forall k | k in HandoverIds(b) ensures k in HandoverIds(c) {
      var i :| 0 <= i < |b| && b[i].task.frameId == k;
      assert c[|a| + i] == b[i];
    }
  }

  lemma ItemIdsConcat(a: seq<Item>, b: seq<Item>)
    ensures ItemIds(a + b) == ItemIds(a) + ItemIds(b)
  {
    var c := a + b;
    forall k | k in ItemIds(a) ensures k in ItemIds(c) {
      var i :| 0 <= i < |a| && a[i].frameId == k;
      assert c[i] == a[i];
    }
    forall k | k in ItemIds(b) ensures k in ItemIds(c) {
      var i :| 0 <= i < |b| && b[i].frameId == k;
      assert c[|a| + i] == b[i];
    }
  }

  // The invariants, each a predicate of just the fields it speaks about

  ghost predicate IncreasingUpdates(log: seq<TrackerUpdate>) {
    forall i, j :: 0 <= i < j < |log| ==> log[i].frame.id < log[j].frame.id
  }

  ghost predicate IncreasingItems(log: seq<Item>) {
    forall i, j :: 0 <= i < j < |log| ==> log[i].frameId < log[j].frameId
  }

  ghost predicate TrackInv(next: int, frames: map<int, Frame>, tracked: seq<TrackerUpdate>) {
    && next >= -1
    && (forall k :: k in frames ==> frames[k].id == k && k >= 0 && k >= next)
    && (forall k :: k in UpdateIds(tracked) ==> 0 <= k < next)
    && IncreasingUpdates(tracked)
  }

  /** Every tracked frame is either waiting for its faces or has been handed over, once. */
  ghost predicate Conserved(tracked: seq<TrackerUpdate>, faceFrames: map<int, PendingFaceFrame>, handed: seq<Handover>) {
    && (forall k :: k in UpdateIds(tracked) <==>
          (k in faceFrames && !faceFrames[k].queued) || k in HandoverIds(handed))
    && (forall k :: k in faceFrames ==> (faceFrames[k].queued <==> k in HandoverIds(handed)))
    && (forall i, j :: 0 <= i < j < |handed| ==> handed[i].task.frameId != handed[j].task.frameId)
  }

  /** No probe is answered twice: answered probes are pairwise distinct and no longer open. */
  ghost predicate AnsweredOnce(probes: set<string>, results: seq<FaceResult>) {
    && (forall i :: 0 <= i < |results| ==> results[i].probeId !in probes)
    && (forall i, j :: 0 <= i < j < |results| ==> results[i].probeId != results[j].probeId)
  }

  ghost predicate EntryInv(k: int, p: PendingFaceFrame, latestFace: int) {
    && p.frame.id == k
    && (p.probes != {} ==> k <= latestFace)
    && AnsweredOnce(p.probes, p.results)
  }

  ghost predicate EntriesInv(faceFrames: map<int, PendingFaceFrame>, latestFace: int) {
    forall k :: k in faceFrames ==> EntryInv(k, faceFrames[k], latestFace)
  }

  /** Probes are queued ahead only for frames that are still `expected`. */
  ghost predicate ProbesInv(queuedProbes: map<int, set<string>>, expected: set<int>, latestFace: int, cfg: Config) {
    forall k :: k in queuedProbes ==> k in expected && k <= latestFace && cfg.faceDetection && cfg.independent
  }

  ghost predicate HandoverInv(h: Handover, cfg: Config) {
    && h.task.frameId == h.task.frame.id
    && h.task.tracks == cfg.apply(h.task.frameId, h.tracked, FaceLists(h.results))
    && (forall i, j :: 0 <= i < j < |h.results| ==> h.results[i].probeId != h.results[j].probeId)
  }

  ghost predicate HandedInv(handed: seq<Handover>, latestRecognition: int, cfg: Config) {
    && (forall i :: 0 <= i < |handed| ==> HandoverInv(handed[i], cfg))
    && (forall k :: k in HandoverIds(handed) ==> k <= latestRecognition)
    && latestRecognition >= -1
    && (latestRecognition == -1 || latestRecognition in HandoverIds(handed))
  }

  /** Id `k` lies behind the frontier `next` of a stage that started at `first`, but the stage never let it through. */
  ghost predicate GivenUp(k: int, first: int, next: int, done: set<int>) {
    first <= k < next && k !in done
  }

  ghost predicate WellKeyed(stage: Stage) {
    && stage.next >= -1
    && (forall k :: k in stage.pending ==> stage.pending[k].frameId == k && k >= 0 && k >= stage.next)
  }

  ghost predicate RecognitionInv(stage: Stage, nextTracker: int, handed: seq<Handover>, tasks: seq<Item>,
                                 latestIdentity: int, latestRecognition: int, window: int) {
    && WellKeyed(stage) && stage.next <= nextTracker
    && (forall k :: k in stage.pending ==> k in HandoverIds(handed))
    && IncreasingItems(tasks)
    && (forall k :: k in ItemIds(tasks) ==> k in HandoverIds(handed) && 0 <= k < stage.next && k <= latestIdentity)
    && (if tasks == [] then latestIdentity == -1 && stage.next == -1 else latestIdentity in ItemIds(tasks))
    && (tasks != [] ==>
          forall k :: GivenUp(k, tasks[0].frameId, stage.next, ItemIds(tasks)) ==> latestRecognition - k > window)
  }

  ghost predicate CommitInv(stage: Stage, nextRecognition: int, tracked: seq<TrackerUpdate>, tasks: seq<Item>,
                            done: seq<Item>, latestIdentity: int, window: int) {
    && WellKeyed(stage)
    && (stage.next < 0 <==> tracked == [])
    && (nextRecognition >= 0 ==> stage.next <= nextRecognition)
    && (tracked != [] && tasks == [] ==> stage.next == tracked[0].frame.id)
    && (forall k :: k in stage.pending ==> k in ItemIds(tasks))
    && IncreasingItems(done)
    && (forall k :: k in ItemIds(done) ==> k in ItemIds(tasks) && k < stage.next)
    && (tracked != [] ==>
          forall k :: GivenUp(k, tracked[0].frame.id, stage.next, ItemIds(done)) ==> latestIdentity - k > window)
  }

  ghost predicate FaceInv(s: State, updates: seq<TrackerUpdate>) {
    && Conserved(s.calls.tracked, s.faceFrames, s.calls.handedOver)
    && EntriesInv(s.faceFrames, s.latestFace)
    && ProbesInv(s.queuedProbes, s.intake.frames.Keys + UpdateIds(updates), s.latestFace, s.cfg)
    && HandedInv(s.calls.handedOver, s.latestRecognition, s.cfg)
  }

  ghost predicate LateInv(s: State) {
    && RecognitionInv(s.recognition, s.intake.next, s.calls.handedOver, s.calls.identityTasks, s.latestIdentity,
                      s.latestRecognition, s.cfg.window)
    && CommitInv(s.commit, s.recognition.next, s.calls.tracked, s.calls.identityTasks, s.calls.committed,
                 s.latestIdentity, s.cfg.window)
  }

  /** The invariant of the tracking stage while it still has to process `updates`. */
  ghost predicate InvDuring(s: State, updates: seq<TrackerUpdate>) {
    TrackInv(s.intake.next, s.intake.frames, s.calls.tracked + updates) && FaceInv(s, updates) && LateInv(s)
  }

  ghost predicate Inv(s: State) {
    InvDuring(s, [])
  }

  lemma InitialInv(cfg: Config)
    ensures Inv(Initial(cfg))
  {
  }

  /** Nothing is recognised, identified or committed that was not tracked. */
  lemma Provenance(s: State)
    requires Inv(s)
    ensures ItemIds(s.calls.committed) <= ItemIds(s.calls.identityTasks) <= HandoverIds(s.calls.handedOver)
    ensures HandoverIds(s.calls.handedOver) <= UpdateIds(s.calls.tracked)
    ensures forall k :: k in UpdateIds(s.calls.tracked) ==> 0 <= k < s.intake.next
  {
    assert s.calls.tracked + [] == s.calls.tracked;
  }

  // Pushes

  lemma PushFrameInv(s: State, frame: Frame)
    requires Inv(s) && frame.id >= 0
    ensures Inv(PushFrame(s, frame))
  {
    var q := s.intake;
    if !(q.next >= 0 && frame.id < q.next) {
      assert TrackInv(q.next, q.frames[frame.id := frame], s.calls.tracked + []);
      assert ProbesInv(s.queuedProbes, q.frames[frame.id := frame].Keys + UpdateIds([]), s.latestFace, s.cfg);
    }
  }

  lemma PushDetectionInv(s: State, frameId: int, boxes: seq<Box>)
    requires Inv(s)
    ensures Inv(PushDetection(s, frameId, boxes))
  {
  }

  /** Replacing an entry by one with the same hand-over flag. */
  lemma ConservedUpdate(tracked: seq<TrackerUpdate>, faceFrames: map<int, PendingFaceFrame>, handed: seq<Handover>,
                        k: int, p: PendingFaceFrame)
    requires Conserved(tracked, faceFrames, handed)
    requires k in faceFrames && p.queued == faceFrames[k].queued
    ensures Conserved(tracked, faceFrames[k := p], handed)
  {
  }

  lemma AnswerOne(probes: set<string>, results: seq<FaceResult>, r: FaceResult)
    requires AnsweredOnce(probes, results) && r.probeId in probes
    ensures AnsweredOnce(probes - {r.probeId}, results + [r])
  {
  }

  lemma PushFaceInv(s: State, r: FaceResult)
    requires Inv(s)
    ensures Inv(PushFace(s, r))
  {
    if r.frameId in s.faceFrames {
      var p := s.faceFrames[r.frameId];
      if r.probeId in p.probes {
        assert EntryInv(r.frameId, p, s.latestFace);
        AnswerOne(p.probes, p.results, r);
        var p' := p.(probes := p.probes - {r.probeId}, results := p.results + [r]);
        ConservedUpdate(s.calls.tracked, s.faceFrames, s.calls.handedOver, r.frameId, p');
        assert EntriesInv(s.faceFrames[r.frameId := p'], s.latestFace);
      }
    }
  }

  lemma PushRecognitionInv(s: State, r: Item)
    requires Inv(s) && Allowed(s, Recognition(r))
    ensures Inv(PushRecognition(s, r))
  {
    var i :| 0 <= i < |s.calls.handedOver| && Answers(s.calls.handedOver[i].task, r);
    assert r.frameId in HandoverIds(s.calls.handedOver);
    Provenance(s);
    RecognitionPush(s.recognition, s.intake.next, s.calls.handedOver, s.calls.identityTasks, s.latestIdentity,
                    s.latestRecognition, s.cfg.window, r);
  }

  lemma RecognitionPush(stage: Stage, nextTracker: int, handed: seq<Handover>, tasks: seq<Item>,
                        latestIdentity: int, latestRecognition: int, window: int, r: Item)
    requires RecognitionInv(stage, nextTracker, handed, tasks, latestIdentity, latestRecognition, window)
    requires r.frameId in HandoverIds(handed) && r.frameId >= 0
    ensures RecognitionInv(PushStage(stage, r), nextTracker, handed, tasks, latestIdentity, latestRecognition, window)
  {
  }

  lemma PushIdentityInv(s: State, r: Item)
    requires Inv(s) && Allowed(s, Identity(r))
    ensures Inv(PushIdentity(s, r))
  {
    var i :| 0 <= i < |s.calls.identityTasks| && Answers(s.calls.identityTasks[i], r);
    assert r.frameId in ItemIds(s.calls.identityTasks);
    CommitPush(s.commit, s.recognition.next, s.calls.tracked, s.calls.identityTasks, s.calls.committed,
               s.latestIdentity, s.cfg.window, r);
  }

  lemma CommitPush(stage: Stage, nextRecognition: int, tracked: seq<TrackerUpdate>, tasks: seq<Item>, done: seq<Item>,
                   latestIdentity: int, window: int, r: Item)
    requires CommitInv(stage, nextRecognition, tracked, tasks, done, latestIdentity, window)
    requires r.frameId in ItemIds(tasks) && r.frameId >= 0
    ensures CommitInv(PushStage(stage, r), nextRecognition, tracked, tasks, done, latestIdentity, window)
  {
  }
}
