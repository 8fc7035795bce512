/**
 Theorems about whole runs of the coordinator: any interleaving of the five kinds of push with drains.
 */
module CoordinatorRuns {
  import opened Types
  import opened OrderedKeys
  import opened CoordinatorSpec
  import opened CoordinatorInvariants
  import opened CoordinatorDrains

  // The recognition and commit stages

  lemma {:induction false} LatestItemMax(latest: int, items: seq<Item>)
    ensures LatestItem(latest, items) >= latest
    ensures forall k :: k in ItemIds(items) ==> k <= LatestItem(latest, items)
    ensures LatestItem(latest, items) == latest || LatestItem(latest, items) in ItemIds(items)
    decreases |items|
  {
    if items != [] {
      var r := items[0];
      LatestItemMax(Max(latest, r.frameId), items[1..]);
      assert items == [r] + items[1..];
      ItemIdsConcat([r], items[1..]);
      ItemIdsAppend([], r);
      assert [] + [r] == [r];
    }
  }

  lemma IncreasingConcat(a: seq<Item>, b: seq<Item>, bound: int)
    requires IncreasingItems(a) && IncreasingItems(b)
    requires (forall k :: k in ItemIds(a) ==> k < bound) && (forall k :: k in ItemIds(b) ==> bound <= k)
    ensures IncreasingItems(a + b)
  {
    var c := a + b;
    forall i, j | 0 <= i < j < |c| ensures c[i].frameId < c[j].frameId {
      if i < |a| <= j {
        assert c[i].frameId in ItemIds(a);
        assert c[j] == b[j - |a|];
        assert c[j].frameId in ItemIds(b);
      }
    }
  }

  /** The first result ever to arrive starts the recognition stage, and it is let through at once. */
  lemma FirstTaken(stage: Stage, latest: int, window: int)
    requires WellKeyed(stage) && window >= 0 && stage.next < 0 && stage.pending != map[]
    ensures var r := DrainStage(stage, latest, window); r.1 != [] && r.0.next > Least(stage.pending.Keys)
  {
    var first := Least(stage.pending.Keys);
    var r := DrainStage(stage, latest, window);
    DrainStageSpec(stage, latest, window);
    assert first in stage.pending;
    assert StartStage(stage).next == first;
    assert first in r.0.pending ==> r.0.next < first;
    assert first !in DropBelow(stage.pending, r.0.next);
    assert first in ItemIds(r.1);
  }

  lemma RecognitionDrained(stage: Stage, nextTracker: int, handed: seq<Handover>, tasks: seq<Item>, latestIdentity: int,
                           latest: int, window: int)
    requires RecognitionInv(stage, nextTracker, handed, tasks, latestIdentity, latest, window) && window >= 0
    requires forall k :: k in HandoverIds(handed) ==> k < nextTracker
    requires latest == -1 || latest in HandoverIds(handed)
    ensures var r := DrainStage(stage, latest, window);
            RecognitionInv(r.0, nextTracker, handed, tasks + r.1, LatestItem(latestIdentity, r.1), latest, window)
  {
    if stage.next < 0 && stage.pending == map[] {
      assert tasks + [] == tasks;
    } else {
      var r := DrainStage(stage, latest, window);
      RecognitionMoves(stage, nextTracker, handed, tasks, latestIdentity, latest, window, r.0, r.1);
    }
  }

  lemma MovesBehindTracker(stage: Stage, nextTracker: int, handed: seq<Handover>, latest: int, window: int, r: Stage,
                           out: seq<Item>)
    requires WellKeyed(stage) && stage.next <= nextTracker && window >= 0
    requires forall k :: k in stage.pending ==> k in HandoverIds(handed)
    requires forall k :: k in HandoverIds(handed) ==> k < nextTracker
    requires latest == -1 || latest in HandoverIds(handed)
    requires (stage.next >= 0 || stage.pending != map[]) && DrainStage(stage, latest, window) == (r, out)
    ensures WellKeyed(r) && r.next <= nextTracker && forall k :: k in r.pending ==> k in HandoverIds(handed)
  {
    DrainStageSpec(stage, latest, window);
    if stage.next < 0 {
      assert Least(stage.pending.Keys) in stage.pending;
    }
  }

  /** The ids of the tasks after a drain, and how they lie to the frontier and to the newest task. */
  lemma MovesTasks(stage: Stage, handed: seq<Handover>, tasks: seq<Item>, latestIdentity: int, latest: int, window: int,
                   r: Stage, out: seq<Item>)
    requires WellKeyed(stage) && window >= 0 && IncreasingItems(tasks)
    requires forall k :: k in stage.pending ==> k in HandoverIds(handed)
    requires forall k :: k in ItemIds(tasks) ==> k in HandoverIds(handed) && 0 <= k < stage.next && k <= latestIdentity
    requires if tasks == [] then latestIdentity == -1 && stage.next == -1 else latestIdentity in ItemIds(tasks)
    requires (stage.next >= 0 || stage.pending != map[]) && DrainStage(stage, latest, window) == (r, out)
    ensures var all, newest := tasks + out, LatestItem(latestIdentity, out);
            && IncreasingItems(all) && all != [] && newest in ItemIds(all)
            && forall k :: k in ItemIds(all) ==> k in HandoverIds(handed) && 0 <= k < r.next && k <= newest
  {
    DrainStageSpec(stage, latest, window);
    if stage.next < 0 {
      FirstTaken(stage, latest, window);
      assert Least(stage.pending.Keys) in stage.pending;
    }
    LatestItemMax(latestIdentity, out);
    ItemIdsConcat(tasks, out);
    IncreasingConcat(tasks, out, Max(0, stage.next));
  }

  lemma RecognitionMoves(stage: Stage, nextTracker: int, handed: seq<Handover>, tasks: seq<Item>, latestIdentity: int,
                         latest: int, window: int, r: Stage, out: seq<Item>)
    requires RecognitionInv(stage, nextTracker, handed, tasks, latestIdentity, latest, window) && window >= 0
    requires forall k :: k in HandoverIds(handed) ==> k < nextTracker
    requires latest == -1 || latest in HandoverIds(handed)
    requires (stage.next >= 0 || stage.pending != map[]) && DrainStage(stage, latest, window) == (r, out)
    ensures RecognitionInv(r, nextTracker, handed, tasks + out, LatestItem(latestIdentity, out), latest, window)
  {
    MovesBehindTracker(stage, nextTracker, handed, latest, window, r, out);
    MovesTasks(stage, handed, tasks, latestIdentity, latest, window, r, out);
    DrainStageSpec(stage, latest, window);
    RecognitionGivenUp(stage, tasks, latest, window, r, out);
  }

  lemma RecognitionGivenUp(stage: Stage, tasks: seq<Item>, latest: int, window: int, after: Stage, out: seq<Item>)
    requires tasks + out != [] && (tasks == [] ==> stage.next == -1)
    requires tasks != [] ==> stage.next >= 0
    requires tasks != [] ==>
      (forall k :: GivenUp(k, tasks[0].frameId, stage.next, ItemIds(tasks)) ==> latest - k > window)
    requires Reordered(StartStage(stage), latest, window, after, out)
    requires WellKeyed(stage)
    ensures forall k :: GivenUp(k, (tasks + out)[0].frameId, after.next, ItemIds(tasks + out)) ==> latest - k > window
  {
    ItemIdsConcat(tasks, out);
    forall k | GivenUp(k, (tasks + out)[0].frameId, after.next, ItemIds(tasks + out)) ensures latest - k > window {
      if tasks != [] {
        if k < stage.next {
          assert GivenUp(k, tasks[0].frameId, stage.next, ItemIds(tasks));
        }
      } else {
        assert out[0].frameId in stage.pending;
        assert k !in ItemIds(out);
      }
    }
  }

  lemma CommitGrows(stage: Stage, nextRecognition: int, tracked: seq<TrackerUpdate>, tasks: seq<Item>, done: seq<Item>,
                    latest: int, window: int, nextRecognition': int, out: seq<Item>)
    requires CommitInv(stage, nextRecognition, tracked, tasks, done, latest, window)
    requires nextRecognition <= nextRecognition'
    requires nextRecognition < 0 <= nextRecognition' ==>
      tasks == [] && tracked != [] && tracked[0].frame.id <= nextRecognition'
    ensures CommitInv(stage, nextRecognition', tracked, tasks + out, done, LatestItem(latest, out), window)
  {
    LatestItemMax(latest, out);
    ItemIdsConcat(tasks, out);
    if tracked != [] {
      forall k | GivenUp(k, tracked[0].frame.id, stage.next, ItemIds(done)) ensures LatestItem(latest, out) - k > window {
        assert latest - k > window;
      }
    }
  }

  lemma FirstTracked(tracked: seq<TrackerUpdate>, k: int)
    requires IncreasingUpdates(tracked) && k in UpdateIds(tracked)
    ensures tracked != [] && tracked[0].frame.id <= k
  {
  }

  lemma DrainRecognitionInv(s: State)
    requires Inv(s)
    ensures Inv(DrainRecognition(s))
    ensures StageSettled(DrainRecognition(s).recognition, s.latestRecognition, s.cfg.window)
  {
    var r := DrainStage(s.recognition, s.latestRecognition, s.cfg.window);
    Provenance(s);
    assert s.calls.tracked + [] == s.calls.tracked;
    RecognitionDrained(s.recognition, s.intake.next, s.calls.handedOver, s.calls.identityTasks, s.latestIdentity,
                       s.latestRecognition, s.cfg.window);
    DrainStageSpec(s.recognition, s.latestRecognition, s.cfg.window);
    if s.recognition.next < 0 <= r.0.next {
      var first := Least(s.recognition.pending.Keys);
      assert first in s.recognition.pending;
      FirstTaken(s.recognition, s.latestRecognition, s.cfg.window);
      FirstTracked(s.calls.tracked, first);
      NoIdsNoItems(s.calls.identityTasks);
    }
    CommitGrows(s.commit, s.recognition.next, s.calls.tracked, s.calls.identityTasks, s.calls.committed,
                s.latestIdentity, s.cfg.window, r.0.next, r.1);
  }

  lemma CommitDrained(stage: Stage, nextRecognition: int, tracked: seq<TrackerUpdate>, tasks: seq<Item>, done: seq<Item>,
                      latest: int, window: int)
    requires CommitInv(stage, nextRecognition, tracked, tasks, done, latest, window) && window >= 0
    requires forall k :: k in ItemIds(tasks) ==> k < nextRecognition
    requires tasks == [] ==> latest == -1
    requires tasks != [] ==> latest in ItemIds(tasks)
    requires tracked == [] ==> tasks == []
    ensures var r := DrainStage(stage, latest, window);
            CommitInv(r.0, nextRecognition, tracked, tasks, done + r.1, latest, window)
  {
    var r := DrainStage(stage, latest, window);
    DrainStageSpec(stage, latest, window);
    if tracked == [] {
      assert stage.pending == map[] by { assert forall k :: k !in stage.pending; }
      assert done + [] == done;
    } else {
      ItemIdsConcat(done, r.1);
      IncreasingConcat(done, r.1, stage.next);
      forall k | GivenUp(k, tracked[0].frame.id, r.0.next, ItemIds(done + r.1)) ensures latest - k > window {
        if k < stage.next {
          assert GivenUp(k, tracked[0].frame.id, stage.next, ItemIds(done));
        }
      }
    }
  }

  lemma DrainCommitInv(s: State)
    requires Inv(s)
    ensures Inv(DrainCommit(s))
    ensures StageSettled(DrainCommit(s).commit, s.latestIdentity, s.cfg.window)
  {
    if s.calls.tracked == [] {
      NothingBeforeTracking(s.calls.tracked, s.faceFrames, s.calls.handedOver, s.recognition, s.intake.next,
                            s.calls.identityTasks, s.latestIdentity, s.latestRecognition, s.cfg.window);
    }
    CommitDrained(s.commit, s.recognition.next, s.calls.tracked, s.calls.identityTasks, s.calls.committed,
                  s.latestIdentity, s.cfg.window);
    DrainStageSpec(s.commit, s.latestIdentity, s.cfg.window);
  }

  // A whole drain

  /** What holds between a drain and the next call. */
  ghost predicate Settled(s: State) {
    && IntakeSettled(s.intake, s.cfg.window)
    && FacesSettled(s.faceFrames, s.latestFace, s.cfg.window)
    && StageSettled(s.recognition, s.latestRecognition, s.cfg.window)
    && StageSettled(s.commit, s.latestIdentity, s.cfg.window)
  }

  lemma {:induction false} DrainStagesInv(s: State)
    requires Inv(s)
    ensures Inv(DrainStages(s)) && Settled(DrainStages(s)) && DrainStages(s).cfg == s.cfg
  {
    var s1 := DrainProbes(s);
    var s2 := DrainTracking(s1);
    var s3 := DrainFaces(s2);
    var s4 := DrainRecognition(s3);
    DrainProbesInv(s);
    DrainTrackingInv(s1);
    DrainFacesInv(s2);
    DrainRecognitionInv(s3);
    DrainCommitInv(s4);
  }

  // The size limit

  ghost predicate Roomy(s: State) {
    s.cfg.limit > s.cfg.window
  }

  lemma FramesFit(q: Intake, tracked: seq<TrackerUpdate>, window: int)
    requires TrackInv(q.next, q.frames, tracked) && IntakeSettled(q, window) && window >= 0
    ensures |q.frames| <= window + 1
  {
    if q.frames == map[] {
      assert |q.frames| == 0;
    } else {
      CardinalityBound(q.frames.Keys, q.next, q.next + window + 1);
      assert |q.frames.Keys| == |q.frames|;
    }
  }

  lemma ProbesFit(queuedProbes: map<int, set<string>>, q: Intake, latestFace: int, cfg: Config, window: int)
    requires ProbesInv(queuedProbes, q.frames.Keys + UpdateIds([]), latestFace, cfg) && |q.frames| <= window + 1
    ensures |queuedProbes| <= window + 1
  {
    assert UpdateIds([]) == {};
    forall k | k in queuedProbes.Keys ensures k in q.frames.Keys {
      assert k in q.frames.Keys + UpdateIds([]);
    }
    SubsetSize(queuedProbes.Keys, q.frames.Keys);
    assert |queuedProbes.Keys| == |queuedProbes| && |q.frames.Keys| == |q.frames|;
  }

  lemma {:induction false} SubsetSize(a: set<int>, b: set<int>)
    requires a <= b
    ensures |a| <= |b|
    decreases b
  {
    Inhabited(a);
    if a != {} {
      var x :| x in a;
      SubsetSize(a - {x}, b - {x});
    }
  }

  lemma FacesFit(faceFrames: map<int, PendingFaceFrame>, latestFace: int, window: int)
    requires FacesSettled(faceFrames, latestFace, window) && window >= 0
    ensures |faceFrames| <= window + 1
  {
    CardinalityBound(faceFrames.Keys, latestFace - window, latestFace + 1);
    assert |faceFrames.Keys| == |faceFrames|;
  }

  lemma StageFits(stage: Stage, latest: int, window: int)
    requires WellKeyed(stage) && StageSettled(stage, latest, window) && window >= 0
    requires forall k :: k in stage.pending ==> k <= latest
    ensures |stage.pending| <= window
  {
    assert |stage.pending.Keys| == |stage.pending|;
    if latest < 0 || stage.next < 0 {
      CardinalityBound(stage.pending.Keys, 0, 0);
    } else {
      CardinalityBound(stage.pending.Keys, stage.next + 1, stage.next + 1 + window);
    }
  }

  /** After the drains every queue but the detections and the early face results fits the window. */
  lemma QueuesFit(s: State)
    requires Inv(s) && Settled(s)
    ensures |s.intake.frames| <= s.cfg.window + 1 && |s.queuedProbes| <= s.cfg.window + 1
    ensures |s.faceFrames| <= s.cfg.window + 1
    ensures |s.recognition.pending| <= s.cfg.window && |s.commit.pending| <= s.cfg.window
  {
    FramesFit(s.intake, s.calls.tracked + [], s.cfg.window);
    ProbesFit(s.queuedProbes, s.intake, s.latestFace, s.cfg, s.cfg.window);
    FacesFit(s.faceFrames, s.latestFace, s.cfg.window);
    StageFits(s.recognition, s.latestRecognition, s.cfg.window);
    StageFits(s.commit, s.latestIdentity, s.cfg.window);
  }

  lemma {:induction false} TrimSubmap<T>(m: map<int, T>, limit: int)
    requires limit >= 1
    ensures TrimMap(m, limit).Keys <= m.Keys && |TrimMap(m, limit)| <= limit
    ensures forall k :: k in TrimMap(m, limit) ==> TrimMap(m, limit)[k] == m[k]
    decreases |m|
  {
    if |m| > limit {
      var k := Least(m.Keys);
      assert (m - {k}).Keys == m.Keys - {k};
      TrimSubmap(m - {k}, limit);
    }
  }

  lemma {:induction false} TrimFacesSubmap(faceFrames: map<int, PendingFaceFrame>, next: int, limit: int)
    requires limit >= 1
    ensures var r := TrimFaceFrames(faceFrames, next, limit).0;
            forall k :: k in r ==> k in faceFrames && r[k] == faceFrames[k]
    decreases |faceFrames|
  {
    if |faceFrames| > limit {
      var k := Least(faceFrames.Keys);
      assert (faceFrames - {k}).Keys == faceFrames.Keys - {k};
      TrimFacesSubmap(faceFrames - {k}, if next < 0 || k >= next then k + 1 else next, limit);
    }
  }

  /**
   trim_pending_ takes nothing from the frames, the face frames, the recognition results or the identity results, and
   leaves the commit frontier alone, when the limit exceeds the window.
   */
  lemma {:induction false} TrimIdle(s: State)
    requires Inv(s) && Settled(s) && Roomy(s)
    ensures Trim(s) == s.(intake := s.intake.(detections := TrimMap(s.intake.detections, s.cfg.limit)),
                          early := TrimMap(s.early, s.cfg.limit))
  {
    QueuesFit(s);
  }

  lemma {:induction false} TrimInv(s: State)
    requires Inv(s) && Settled(s) && Roomy(s)
    ensures Inv(Trim(s)) && Settled(Trim(s))
  {
    TrimIdle(s);
    TrimSubmap(s.intake.detections, s.cfg.limit);
  }

  lemma DrainIsStep(s: State, op: Op)
    requires op == DrainReady
    ensures Step(s, op) == Drain(s)
  {
  }

  lemma {:induction false} DrainInv(s: State)
    requires Inv(s) && Roomy(s)
    ensures Inv(Drain(s)) && Settled(Drain(s)) && Drain(s).cfg == s.cfg
  {
    DrainStagesInv(s);
    TrimInv(DrainStages(s));
  }

  lemma {:induction false} StepInv(s: State, op: Op)
    requires Inv(s) && Roomy(s) && Allowed(s, op)
    ensures Inv(Step(s, op)) && Step(s, op).cfg == s.cfg
  {
    match op
    case FrameIn(frame) => PushFrameInv(s, frame);
    case Detection(frameId, boxes) => PushDetectionInv(s, frameId, boxes);
    case FaceAnswer(r) => PushFaceInv(s, r);
    case Recognition(r) => PushRecognitionInv(s, r);
    case Identity(r) => PushIdentityInv(s, r);
    case DrainReady => DrainInv(s);
  }
}
