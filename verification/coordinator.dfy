/**
 The reorder buffer itself, updated in place as in core/src/pipeline/stream_coordinator.cpp. Every method computes the
 function of the same name in CoordinatorSpec.
 */
module Coordinator {
  import opened Types
  import opened OrderedKeys
  import opened CoordinatorSpec
  import FacePolicy

  class StreamCoordinator {
    const cfg: Config

    var nextTracker: int
    var nextRecognition: int
    var nextCommit: int
    var latestFace: int
    var latestRecognition: int
    var latestIdentity: int

    var frames: map<int, Frame>
    var detections: map<int, seq<Box>>
    var queuedProbes: map<int, set<string>>
    var early: map<int, seq<FaceResult>>
    var faceFrames: map<int, PendingFaceFrame>
    var recognitions: map<int, Item>
    var identities: map<int, Item>

    var calls: Calls

    ghost function Abs(): State
      reads this
    {
      State(cfg, Intake(nextTracker, frames, detections), Stage(nextRecognition, recognitions),
            Stage(nextCommit, identities), latestFace, latestRecognition, latestIdentity, queuedProbes, early, faceFrames,
            calls)
    }

    constructor (faceDetection: bool, window: int, limit: int, policy: FacePolicy.Config,
                 tracker: seq<TrackerUpdate> -> seq<Box>)
      ensures window >= 0 ==> cfg.window == window
      ensures limit >= 1 ==> cfg.limit == limit
      ensures cfg.faceDetection == faceDetection && cfg.independent == policy.independent && cfg.tracker == tracker
      ensures forall id, tracks, faces :: cfg.apply(id, tracks, faces) == FacePolicy.Apply(id, tracks, faces, policy)
      ensures Abs() == Initial(cfg)
    {
      cfg := ConfigData(Max(0, window), Max(1, limit), faceDetection, policy.independent,
                        (id: int, tracks: seq<Box>, faces: seq<seq<Face>>) => FacePolicy.Apply(id, tracks, faces, policy),
                        tracker);
      nextTracker, nextRecognition, nextCommit := -1, -1, -1;
      latestFace, latestRecognition, latestIdentity := -1, -1, -1;
      frames, detections, queuedProbes, early := map[], map[], map[], map[];
      faceFrames, recognitions, identities := map[], map[], map[];
      calls := Calls([], [], [], [], []);
    }

    method PushFrame(frame: Frame)
      modifies this
      ensures Abs() == CoordinatorSpec.PushFrame(old(Abs()), frame)
    {
      if nextTracker >= 0 && frame.id < nextTracker { return; }
      frames := frames[frame.id := frame];
    }

    method PushPersonDetection(frameId: int, boxes: seq<Box>)
      modifies this
      ensures Abs() == PushDetection(old(Abs()), frameId, boxes)
    {
      if nextTracker >= 0 && frameId < nextTracker { return; }
      detections := detections[frameId := boxes];
    }

    method PushFaceResult(r: FaceResult)
      modifies this
      ensures Abs() == PushFace(old(Abs()), r)
    {
      if r.frameId !in faceFrames {
        if cfg.independent && (nextCommit < 0 || r.frameId >= nextCommit) {
          early := early[r.frameId := EarlyAt(early, r.frameId) + [r]];
        }
        return;
      }
      var p := faceFrames[r.frameId];
      if r.probeId !in p.probes { return; }
      faceFrames := faceFrames[r.frameId := p.(probes := p.probes - {r.probeId}, results := p.results + [r])];
    }

    method PushRecognitionResult(r: Item)
      modifies this
      ensures Abs() == PushRecognition(old(Abs()), r)
    {
      if nextRecognition >= 0 && r.frameId < nextRecognition { return; }
      recognitions := recognitions[r.frameId := r];
    }

    method PushIdentityResult(r: Item)
      modifies this
      ensures Abs() == PushIdentity(old(Abs()), r)
    {
      if nextCommit >= 0 && r.frameId < nextCommit { return; }
      identities := identities[r.frameId := r];
    }

    method DrainReady()
      modifies this
      ensures Abs() == Drain(old(Abs()))
    {
      DrainIndependentFaceProbes();
      DrainTracking();
      DrainFaceReady();
      DrainRecognitionReady();
      DrainCommitReady();
      TrimPending();
    }

    method DrainIndependentFaceProbes()
      modifies this
      ensures Abs() == DrainProbes(old(Abs()))
    {
      if !cfg.faceDetection || !cfg.independent { return; }
      var keys := SortedKeys(frames.Keys);
      ghost var s := Abs();
      for i := 0 to |keys|
        invariant s == Abs() && frames == old(frames)
        invariant ProbeFold(s, keys[i..]) == ProbeFold(old(Abs()), keys)
      {
        ghost var rest := keys[i..];
        assert rest[0] == keys[i] && rest[1..] == keys[i + 1..];
        var k := keys[i];
        assert k in keys;
        QueueProbes(k);
        s := Abs();
      }
    }

    method QueueProbes(k: int)
      requires k in frames
      modifies this
      ensures Abs() == ProbeStep(old(Abs()), k)
      ensures frames == old(frames)
    {
      if nextTracker >= 0 && k < nextTracker { return; }
      if k in queuedProbes { return; }
      if k in faceFrames { return; }
      var probes := PlannedProbes(frames[k]);
      if probes == {} { return; }
      queuedProbes := queuedProbes[k := probes];
      latestFace := Max(latestFace, k);
      calls := calls.(probed := calls.probed + [k]);
    }

    method DrainTracking()
      modifies this
      ensures Abs() == CoordinatorSpec.DrainTracking(old(Abs()))
    {
      if nextTracker < 0 && frames != map[] {
        nextTracker := Least(frames.Keys);
      }
      ghost var r := IntakeLoop(Abs().intake, cfg.window);
      ghost var final := DropStaleDetections(r.0);
      RunTracking(final);
      if nextTracker >= 0 {
        detections := EraseBelow(detections, nextTracker);
      }
    }

    method RunTracking(ghost final: Intake)
      modifies this
      ensures Abs().intake == IntakeLoop(old(Abs()).intake, cfg.window).0
      ensures Abs().(intake := final)
           == ProcessAll(old(Abs()).(intake := final), IntakeLoop(old(Abs()).intake, cfg.window).1)
    {
      ghost var r := IntakeLoop(Abs().intake, cfg.window);
      ghost var goal := ProcessAll(Abs().(intake := final), r.1);
      ghost var s := Abs();
      while nextTracker >= 0
        invariant s == Abs() && IntakeLoop(s.intake, cfg.window).0 == r.0
        invariant ProcessAll(s.(intake := final), IntakeLoop(s.intake, cfg.window).1) == goal
        decreases |frames|, if nextTracker in frames then 0 else 1
      {
        var k := nextTracker;
        if k in frames && k in detections {
          LoopTracksNext(s, final);
          TrackAndAdvance(detections[k], final);
          s := Abs();
          continue;
        }
        if k !in frames {
          if frames != map[] && Least(frames.Keys) > k {
            nextTracker := Least(frames.Keys);
            s := Abs();
            continue;
          }
          break;
        }
        var overdue := Overdue();
        if overdue {
          LoopTracksNext(s, final);
          TrackAndAdvance([], final);
          s := Abs();
          continue;
        }
        break;
      }
    }

    static lemma LoopTracksNext(s: State, final: Intake)
      requires 0 <= s.intake.next && s.intake.next in s.intake.frames
      requires s.intake.next in s.intake.detections || LatestSeen(s.intake) - s.intake.next > s.cfg.window
      ensures var now, later := IntakeLoop(s.intake, s.cfg.window), IntakeLoop(Advance(s.intake), s.cfg.window);
              && now.0 == later.0
              && ProcessAll(s.(intake := final), now.1)
              == ProcessAll(ProcessTracked(s.(intake := final), NextUpdate(s.intake)), later.1)
    {
    }

    method Overdue() returns (r: bool)
      ensures r == (LatestSeen(Abs().intake) - nextTracker > cfg.window)
    {
      var latestFrame := if frames == map[] then nextTracker else Greatest(frames.Keys);
      var latestDetection := if detections == map[] then nextTracker else Greatest(detections.Keys);
      var latestSeen := Max(latestFrame, latestDetection);
      return latestSeen - nextTracker > cfg.window;
    }

    /** The common tail of the two branches of the tracking loop that process a frame. */
    method TrackAndAdvance(boxes: seq<Box>, ghost final: Intake)
      requires nextTracker in frames
      requires TrackerUpdate(frames[nextTracker], boxes) == NextUpdate(Abs().intake)
      modifies this
      ensures Abs().intake == Advance(old(Abs()).intake)
      ensures Abs().(intake := final) == ProcessTracked(old(Abs()).(intake := final), NextUpdate(old(Abs()).intake))
      ensures |frames| < |old(frames)|
    {
      var k := nextTracker;
      ProcessIgnoresIntake(Abs(), NextUpdate(Abs().intake), final);
      ProcessTrackedFrame(frames[k], boxes);
      assert (frames - {k}).Keys == frames.Keys - {k};
      frames, detections, nextTracker := frames - {k}, detections - {k}, k + 1;
    }

    static lemma ProcessIgnoresIntake(s: State, u: TrackerUpdate, intake: Intake)
      ensures ProcessTracked(s.(intake := intake), u) == ProcessTracked(s, u).(intake := intake)
      ensures ProcessTracked(s, u).intake == s.intake
    {
    }

    /** A frame for which new probes were planned waits for them; any other is handed over at once if none is open. */
    method ProcessTrackedFrame(frame: Frame, boxes: seq<Box>)
      modifies this
      ensures Abs() == ProcessTracked(old(Abs()), TrackerUpdate(frame, boxes))
    {
      StoreTracked(frame, boxes);
      if faceFrames[frame.id].probes == {} {
        HandOver(frame.id);
      }
    }

    method StoreTracked(frame: Frame, boxes: seq<Box>)
      modifies this
      ensures Abs() == TrackFrame(old(Abs()), TrackerUpdate(frame, boxes))
    {
      var tracked' := calls.tracked + [TrackerUpdate(frame, boxes)];
      var planned, entry := MakeEntry(frame, cfg.tracker(tracked'));
      Store(frame, tracked', planned, entry);
    }

    /** Probes that were queued ahead are taken over, otherwise the frame is planned now. */
    method MakeEntry(frame: Frame, boxes: seq<Box>) returns (planned: bool, entry: PendingFaceFrame)
      ensures planned == (FreshProbes(Abs(), frame) != {})
      ensures entry == NewFaceFrame(Abs(), frame, boxes)
    {
      var tracks, probes, plan := boxes, {}, {};
      if cfg.faceDetection && cfg.independent && frame.id in queuedProbes {
        probes := queuedProbes[frame.id];
      } else {
        tracks := ResetTracks(boxes);
        if cfg.faceDetection {
          plan := PlannedProbes(frame);
        }
      }
      var open, results := AbsorbEarly(probes, EarlyAt(early, frame.id));
      planned, entry := plan != {}, PendingFaceFrame(frame, tracks, open + plan, results, false);
    }

    method Store(frame: Frame, tracked: seq<TrackerUpdate>, planned: bool, entry: PendingFaceFrame)
      modifies this
      ensures Abs() == StoreEntry(old(Abs()), frame, tracked, planned, entry)
    {
      RecordTracked(frame, tracked, planned);
      if cfg.faceDetection && cfg.independent && frame.id in queuedProbes {
        queuedProbes := queuedProbes - {frame.id};
      }
      if nextCommit < 0 {
        nextCommit := frame.id;
      }
      early := early - {frame.id};
      faceFrames := faceFrames[frame.id := entry];
    }

    method RecordTracked(frame: Frame, tracked: seq<TrackerUpdate>, planned: bool)
      modifies this`calls, this`latestFace
      ensures latestFace == if planned then Max(old(latestFace), frame.id) else old(latestFace)
      ensures calls == old(calls).(tracked := tracked,
                                   probed := if planned then old(calls).probed + [frame.id] else old(calls).probed)
    {
      calls := calls.(tracked := tracked);
      if planned {
        latestFace := Max(latestFace, frame.id);
        calls := calls.(probed := calls.probed + [frame.id]);
      }
    }

    static method AbsorbEarly(queued: set<string>, arrived: seq<FaceResult>)
      returns (probes: set<string>, results: seq<FaceResult>)
      ensures (probes, results) == Absorb(queued, [], arrived)
    {
      probes, results := queued, [];
      for i := 0 to |arrived|
        invariant Absorb(probes, results, arrived[i..]) == Absorb(queued, [], arrived)
      {
        assert arrived[i..][1..] == arrived[i + 1..];
        if arrived[i].probeId in probes {
          probes := probes - {arrived[i].probeId};
          results := results + [arrived[i]];
        }
      }
    }

    method HandOver(k: int)
      requires k in faceFrames
      modifies this`faceFrames, this`latestRecognition, this`calls
      ensures Abs() == QueueRecognition(old(Abs()), k)
    {
      var p := faceFrames[k];
      if p.queued { return; }
      var h := MakeHandover(cfg, p);
      latestRecognition := Max(latestRecognition, p.frame.id);
      faceFrames := faceFrames[k := p.(tracks := h.task.tracks, queued := true)];
      calls := calls.(handedOver := calls.handedOver + [h]);
    }

    method DrainFaceReady()
      modifies this
      ensures Abs() == DrainFaces(old(Abs()))
    {
      VisitFaces();
    }

    method VisitFaces()
      modifies this`faceFrames, this`latestRecognition, this`calls
      ensures var due := DueHandovers(cfg, old(faceFrames), SortedKeys(old(faceFrames).Keys), latestFace);
              && latestRecognition == LatestHanded(old(latestRecognition), due)
              && calls == old(calls).(handedOver := old(calls).handedOver + due)
      ensures faceFrames == StillWaiting(old(faceFrames), [], latestFace, cfg.window)
    {
      var rest := SortedKeys(faceFrames.Keys);
      ghost var all, calls0 := faceFrames, calls;
      ghost var due := DueHandovers(cfg, all, rest, latestFace);
      ghost var goal, latest := calls.handedOver + due, LatestHanded(latestRecognition, due);
      AllWaiting(all, rest, latestFace, cfg.window);
      while rest != []
        invariant Unvisited(all, rest)
        invariant faceFrames == StillWaiting(all, rest, latestFace, cfg.window)
        invariant due == DueHandovers(cfg, all, rest, latestFace)
        invariant calls.handedOver + due == goal && LatestHanded(latestRecognition, due) == latest
        invariant calls == calls0.(handedOver := calls.handedOver)
        decreases |rest|
      {
        due := VisitNext(all, rest, due);
        rest := rest[1..];
      }
    }

    static ghost predicate Unvisited(all: map<int, PendingFaceFrame>, rest: seq<int>) {
      Ascending(rest) && forall k :: k in rest ==> k in all
    }

    /** One iteration, seen from the whole sweep: `rest` are the entries not yet visited. */
    method VisitNext(ghost all: map<int, PendingFaceFrame>, rest: seq<int>, ghost due: seq<Handover>)
      returns (ghost due': seq<Handover>)
      requires rest != [] && Unvisited(all, rest)
      requires faceFrames == StillWaiting(all, rest, latestFace, cfg.window)
      requires due == DueHandovers(cfg, all, rest, latestFace)
      modifies this`faceFrames, this`latestRecognition, this`calls
      ensures Unvisited(all, rest[1..])
      ensures faceFrames == StillWaiting(all, rest[1..], latestFace, cfg.window)
      ensures due' == DueHandovers(cfg, all, rest[1..], latestFace)
      ensures calls.handedOver + due' == old(calls).handedOver + due
      ensures LatestHanded(latestRecognition, due') == LatestHanded(old(latestRecognition), due)
      ensures calls == old(calls).(handedOver := calls.handedOver)
    {
      StillWaitingStep(all, rest, latestFace, cfg.window);
      ghost var handed := FaceReady(rest[0]);
      due' := due;
      if handed {
        AppendOne(old(calls).handedOver, due);
        due' := due[1..];
      }
    }

    static lemma AllWaiting(all: map<int, PendingFaceFrame>, keys: seq<int>, latestFace: int, window: int)
      requires forall k :: k in all ==> k in keys
      ensures StillWaiting(all, keys, latestFace, window) == all
    {
    }

    static lemma AppendOne<T>(done: seq<T>, rest: seq<T>)
      requires rest != []
      ensures done + [rest[0]] + rest[1..] == done + rest
    {
    }

    static lemma StillWaitingStep(all: map<int, PendingFaceFrame>, keys: seq<int>, latestFace: int, window: int)
      requires keys != [] && Ascending(keys) && forall x :: x in keys ==> x in all
      ensures keys[0] in StillWaiting(all, keys, latestFace, window)
      ensures StillWaiting(all, keys, latestFace, window)[keys[0]] == all[keys[0]]
      ensures StillWaiting(all, keys[1..], latestFace, window)
           == if Waits(keys[0], all[keys[0]], latestFace, window) then StillWaiting(all, keys, latestFace, window)
              else StillWaiting(all, keys, latestFace, window) - {keys[0]}
    {
      assert forall x :: x in keys <==> x == keys[0] || x in keys[1..];
      assert keys[0] !in keys[1..];
    }

    /** One iteration: an entry that is due is handed over; a queued one is erased. */
    method FaceReady(k: int) returns (ghost handed: bool)
      requires k in faceFrames
      modifies this`faceFrames, this`latestRecognition, this`calls
      ensures handed == Due(k, old(faceFrames)[k], latestFace, cfg.window)
      ensures var h := MakeHandover(cfg, old(faceFrames)[k]);
              if handed then
                && calls == old(calls).(handedOver := old(calls).handedOver + [h])
                && latestRecognition == Max(old(latestRecognition), h.task.frameId)
              else calls == old(calls) && latestRecognition == old(latestRecognition)
      ensures faceFrames == if Waits(k, old(faceFrames)[k], latestFace, cfg.window) then old(faceFrames)
                            else old(faceFrames) - {k}
    {
      var p := faceFrames[k];
      var timedOut := p.probes != {} && latestFace >= 0 && latestFace - k > cfg.window;
      handed := false;
      ghost var all := faceFrames;
      if !p.queued && (p.probes == {} || timedOut) {
        faceFrames := faceFrames[k := p.(probes := {})];
        HandOver(k);
        handed := true;
      }
      if faceFrames[k].queued {
        faceFrames := faceFrames - {k};
        assert faceFrames == all - {k};
      }
    }

    method DrainRecognitionReady()
      modifies this
      ensures Abs() == DrainRecognition(old(Abs()))
    {
      if nextRecognition < 0 && recognitions != map[] {
        nextRecognition := Least(recognitions.Keys);
      }
      RunRecognition();
      if nextRecognition >= 0 {
        recognitions := EraseBelow(recognitions, nextRecognition);
      }
    }

    method RunRecognition()
      modifies this`recognitions, this`nextRecognition, this`latestIdentity, this`calls
      ensures var r := ReorderLoop(Stage(old(nextRecognition), old(recognitions)), latestRecognition, cfg.window);
              && Stage(nextRecognition, recognitions) == r.0
              && latestIdentity == LatestItem(old(latestIdentity), r.1)
              && calls == old(calls).(identityTasks := old(calls).identityTasks + r.1)
    {
      ghost var r := ReorderLoop(Stage(nextRecognition, recognitions), latestRecognition, cfg.window);
      ghost var calls0, rest := calls, r.1;
      ghost var goal, latest := calls.identityTasks + rest, LatestItem(latestIdentity, rest);
      while nextRecognition >= 0
        invariant ReorderLoop(Stage(nextRecognition, recognitions), latestRecognition, cfg.window) == (r.0, rest)
        invariant calls.identityTasks + rest == goal && LatestItem(latestIdentity, rest) == latest
        invariant calls == calls0.(identityTasks := calls.identityTasks)
        decreases |recognitions|, latestRecognition - nextRecognition
      {
        var k := nextRecognition;
        if k in recognitions {
          AppendOne(calls.identityTasks, rest);
          QueueIdentity();
          rest := rest[1..];
          continue;
        }
        if latestRecognition >= 0 && latestRecognition - k > cfg.window {
          nextRecognition := nextRecognition + 1;
          continue;
        }
        break;
      }
    }

    method QueueIdentity()
      requires nextRecognition in recognitions
      modifies this`recognitions, this`nextRecognition, this`latestIdentity, this`calls
      ensures var r := old(recognitions)[old(nextRecognition)];
              && calls == old(calls).(identityTasks := old(calls).identityTasks + [r])
              && latestIdentity == Max(old(latestIdentity), r.frameId)
      ensures recognitions == old(recognitions) - {old(nextRecognition)} && |recognitions| < |old(recognitions)|
      ensures nextRecognition == old(nextRecognition) + 1
    {
      var r := recognitions[nextRecognition];
      latestIdentity := Max(latestIdentity, r.frameId);
      calls := calls.(identityTasks := calls.identityTasks + [r]);
      assert (recognitions - {nextRecognition}).Keys == recognitions.Keys - {nextRecognition};
      recognitions := recognitions - {nextRecognition};
      nextRecognition := nextRecognition + 1;
    }

    method DrainCommitReady()
      modifies this
      ensures Abs() == DrainCommit(old(Abs()))
    {
      if nextCommit < 0 && identities != map[] {
        nextCommit := Least(identities.Keys);
      }
      RunCommit();
      if nextCommit >= 0 {
        identities := EraseBelow(identities, nextCommit);
      }
    }

    method RunCommit()
      modifies this`identities, this`nextCommit, this`calls
      ensures var r := ReorderLoop(Stage(old(nextCommit), old(identities)), latestIdentity, cfg.window);
              && Stage(nextCommit, identities) == r.0
              && calls == old(calls).(committed := old(calls).committed + r.1)
    {
      ghost var r := ReorderLoop(Stage(nextCommit, identities), latestIdentity, cfg.window);
      ghost var calls0, rest := calls, r.1;
      ghost var goal := calls.committed + rest;
      while nextCommit >= 0
        invariant ReorderLoop(Stage(nextCommit, identities), latestIdentity, cfg.window) == (r.0, rest)
        invariant calls.committed + rest == goal && calls == calls0.(committed := calls.committed)
        decreases |identities|, latestIdentity - nextCommit
      {
        var k := nextCommit;
        if k in identities {
          AppendOne(calls.committed, rest);
          calls := calls.(committed := calls.committed + [identities[k]]);
          assert (identities - {k}).Keys == identities.Keys - {k};
          identities := identities - {k};
          nextCommit := nextCommit + 1;
          rest := rest[1..];
          continue;
        }
        if latestIdentity >= 0 && latestIdentity - k > cfg.window {
          nextCommit := nextCommit + 1;
          continue;
        }
        break;
      }
    }

    /** Erases entries from the front of the map while they lie below the frontier. */
    static method EraseBelow<T>(m: map<int, T>, bound: int) returns (r: map<int, T>)
      ensures r == DropBelow(m, bound)
    {
      r := m;
      while r != map[] && Least(r.Keys) < bound
        invariant r.Keys <= m.Keys
        invariant DropBelow(r, bound) == DropBelow(m, bound)
        decreases |r|
      {
        var k := Least(r.Keys);
        assert (r - {k}).Keys == r.Keys - {k};
        r := r - {k};
      }
      assert forall k :: k in r ==> k >= bound;
      assert r == DropBelow(r, bound);
    }

    static method TrimFront<T>(m: map<int, T>, limit: int) returns (r: map<int, T>)
      requires limit >= 1
      ensures r == TrimMap(m, limit)
    {
      r := m;
      while |r| > limit
        invariant TrimMap(r, limit) == TrimMap(m, limit)
        decreases |r|
      {
        var k := Least(r.Keys);
        assert (r - {k}).Keys == r.Keys - {k};
        r := r - {k};
      }
    }

    method TrimPending()
      modifies this
      ensures Abs() == Trim(old(Abs()))
    {
      TrimIntake();
      TrimProbes();
      TrimFaces();
      TrimResults();
    }

    method TrimIntake()
      modifies this`frames, this`detections
      ensures Abs() == CoordinatorSpec.TrimIntake(old(Abs()))
    {
      ghost var s := CoordinatorSpec.TrimIntake(Abs());
      frames := TrimFront(frames, cfg.limit);
      assert frames == s.intake.frames;
      detections := TrimFront(detections, cfg.limit);
    }

    method TrimProbes()
      modifies this`queuedProbes, this`early
      ensures Abs() == CoordinatorSpec.TrimProbes(old(Abs()))
    {
      ghost var s := CoordinatorSpec.TrimProbes(Abs());
      queuedProbes := TrimFront(queuedProbes, cfg.limit);
      assert queuedProbes == s.queuedProbes;
      early := TrimFront(early, cfg.limit);
    }

    method TrimResults()
      modifies this`recognitions, this`identities
      ensures Abs() == CoordinatorSpec.TrimResults(old(Abs()))
    {
      ghost var s := CoordinatorSpec.TrimResults(Abs());
      recognitions := TrimFront(recognitions, cfg.limit);
      assert recognitions == s.recognition.pending;
      identities := TrimFront(identities, cfg.limit);
    }

    method TrimFaces()
      modifies this`faceFrames, this`nextCommit
      ensures Abs() == CoordinatorSpec.TrimFaces(old(Abs()))
    {
      while |faceFrames| > cfg.limit
        invariant TrimFaceFrames(faceFrames, nextCommit, cfg.limit)
               == TrimFaceFrames(old(faceFrames), old(nextCommit), cfg.limit)
        decreases |faceFrames|
      {
        var k := Least(faceFrames.Keys);
        if nextCommit < 0 || k >= nextCommit {
          nextCommit := k + 1;
        }
        assert (faceFrames - {k}).Keys == faceFrames.Keys - {k};
        faceFrames := faceFrames - {k};
      }
    }
  }
}
