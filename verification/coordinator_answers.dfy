/**
 Which frames wait for their faces: the answers that were pushed decide, together with the probes that were issued.
 */
module CoordinatorAnswers {
  import opened Types
  import Sequences
  import opened OrderedKeys
  import opened CoordinatorSpec
  import opened CoordinatorInvariants
  import opened CoordinatorDrains
  import opened CoordinatorRuns
  import opened CoordinatorTheorems
  import opened CoordinatorProvenance
  import opened CoordinatorProbes

  /**
   Call `i` answers the probe of frame `k`. In independent mode it may come at any time, otherwise only once the probe
   has been issued.
   */
  ghost predicate AnswersAt(cfg: Config, ops: seq<Op>, i: nat, k: int)
    requires i < |ops|
  {
    && ops[i].FaceAnswer? && ops[i].face.frameId == k && ops[i].face.probeId == ProbeId(k)
    && (cfg.independent || k in Run(cfg, ops[..i]).calls.probed)
  }

  ghost predicate Answered(cfg: Config, ops: seq<Op>, k: int) {
    exists i: nat :: i < |ops| && AnswersAt(cfg, ops, i, k)
  }

  ghost function AnsweredIn(cfg: Config, ops: seq<Op>): int -> bool {
    (k: int) => Answered(cfg, ops, k)
  }

  lemma AnsweredStays(cfg: Config, ops: seq<Op>, op: Op, k: int)
    requires Answered(cfg, ops, k)
    ensures Answered(cfg, ops + [op], k)
  {
    var i: nat :| i < |ops| && AnswersAt(cfg, ops, i, k);
    assert (ops + [op])[..i] == ops[..i] && (ops + [op])[i] == ops[i];
    assert AnswersAt(cfg, ops + [op], i, k);
  }

  lemma AnsweredNow(cfg: Config, ops: seq<Op>, r: FaceResult)
    requires r.probeId == ProbeId(r.frameId) && (cfg.independent || r.frameId in Run(cfg, ops).calls.probed)
    ensures Answered(cfg, ops + [FaceAnswer(r)], r.frameId)
  {
    var longer := ops + [FaceAnswer(r)];
    assert longer[..|ops|] == ops && longer[|ops|] == FaceAnswer(r);
    assert AnswersAt(cfg, longer, |ops|, r.frameId);
  }

  /** Either the frame was answered before the last call, or the last call answers it. */
  lemma AnsweredBefore(cfg: Config, ops: seq<Op>, op: Op, k: int)
    requires Answered(cfg, ops + [op], k)
    ensures || Answered(cfg, ops, k)
            || (op.FaceAnswer? && op.face.frameId == k && op.face.probeId == ProbeId(k)
                && (cfg.independent || k in Run(cfg, ops).calls.probed))
  {
    var longer := ops + [op];
    var i: nat :| i < |longer| && AnswersAt(cfg, longer, i, k);
    if i < |ops| {
      assert longer[..i] == ops[..i] && longer[i] == ops[i];
      assert AnswersAt(cfg, ops, i, k);
    } else {
      assert longer[..i] == ops;
    }
  }

  // What results tell, seen from the frames: no answer, no result; no result, still open or overdue

  ghost predicate EntryTells(k: int, p: PendingFaceFrame, probed: seq<int>, answered: int -> bool) {
    && (p.results != [] ==> answered(k))
    && (!p.queued && p.results == [] && k in probed ==> p.probes != {})
  }

  ghost predicate HandoverTells(h: Handover, probed: seq<int>, latestFace: int, window: int, answered: int -> bool) {
    if h.results != [] then answered(h.task.frameId)
    else h.task.frameId in probed ==> latestFace - h.task.frameId > window
  }

  ghost predicate EntriesTell(faceFrames: map<int, PendingFaceFrame>, probed: seq<int>, answered: int -> bool) {
    forall k :: k in faceFrames ==> EntryTells(k, faceFrames[k], probed, answered)
  }

  ghost predicate HandoversTell(handed: seq<Handover>, probed: seq<int>, latestFace: int, window: int,
                                answered: int -> bool) {
    forall h :: h in handed ==> HandoverTells(h, probed, latestFace, window, answered)
  }

  ghost predicate EarlyTells(early: map<int, seq<FaceResult>>, answered: int -> bool) {
    forall k, r :: k in early && r in early[k] && r.probeId == ProbeId(k) ==> answered(k)
  }

  /** A frame with an issued probe has been tracked or is still expected, and then its probe is queued. */
  ghost predicate ProbedAlive(probed: seq<int>, tracked: set<int>, expected: set<int>,
                              queuedProbes: map<int, set<string>>) {
    && (forall k :: k in probed ==> k in tracked || (k in expected && k in queuedProbes))
    && (forall k :: k in queuedProbes ==> queuedProbes[k] != {})
  }

  ghost predicate TellsDuring(s: State, updates: seq<TrackerUpdate>, answered: int -> bool) {
    && EntriesTell(s.faceFrames, s.calls.probed, answered)
    && HandoversTell(s.calls.handedOver, s.calls.probed, s.latestFace, s.cfg.window, answered)
    && EarlyTells(s.early, answered)
    && ProbedAlive(s.calls.probed, UpdateIds(s.calls.tracked), s.intake.frames.Keys + UpdateIds(updates), s.queuedProbes)
  }

  ghost predicate TellsInv(s: State, answered: int -> bool) {
    TellsDuring(s, [], answered)
  }

  lemma TellsMore(s: State, answered: int -> bool, answered': int -> bool)
    requires TellsInv(s, answered) && forall k :: answered(k) ==> answered'(k)
    ensures TellsInv(s, answered')
  {
    forall k | k in s.faceFrames ensures EntryTells(k, s.faceFrames[k], s.calls.probed, answered') {
      assert EntryTells(k, s.faceFrames[k], s.calls.probed, answered);
    }
    forall h | h in s.calls.handedOver
      ensures HandoverTells(h, s.calls.probed, s.latestFace, s.cfg.window, answered')
    {
      assert HandoverTells(h, s.calls.probed, s.latestFace, s.cfg.window, answered);
    }
  }

  /** A probe is issued for a frame that has no entry and was not handed over. */
  lemma IssueTells(faceFrames: map<int, PendingFaceFrame>, handed: seq<Handover>, probed: seq<int>, latestFace: int,
                   window: int, answered: int -> bool, k: int, latestFace': int)
    requires EntriesTell(faceFrames, probed, answered) && HandoversTell(handed, probed, latestFace, window, answered)
    requires k !in faceFrames && k !in HandoverIds(handed) && latestFace <= latestFace'
    ensures EntriesTell(faceFrames, probed + [k], answered)
    ensures HandoversTell(handed, probed + [k], latestFace', window, answered)
  {
    forall x | x in faceFrames ensures EntryTells(x, faceFrames[x], probed + [k], answered) {
      assert EntryTells(x, faceFrames[x], probed, answered);
    }
    forall h | h in handed ensures HandoverTells(h, probed + [k], latestFace', window, answered) {
      assert HandoverTells(h, probed, latestFace, window, answered);
      var i :| 0 <= i < |handed| && handed[i] == h;
      assert handed[i].task.frameId in HandoverIds(handed);
    }
  }

  lemma ProbeStepTells(s: State, k: int, answered: int -> bool)
    requires Inv(s) && TellsInv(s, answered) && k in s.intake.frames
    ensures TellsInv(ProbeStep(s, k), answered)
  {
    var t := ProbeStep(s, k);
    if t != s {
      Provenance(s);
      assert k in s.intake.frames && s.intake.frames[k].id == k;
      IssueTells(s.faceFrames, s.calls.handedOver, s.calls.probed, s.latestFace, s.cfg.window, answered, k, t.latestFace);
    }
  }

  lemma {:induction false} ProbeFoldTells(s: State, keys: seq<int>, answered: int -> bool)
    requires Inv(s) && TellsInv(s, answered) && s.cfg.faceDetection && s.cfg.independent
    requires forall k :: k in keys ==> k in s.intake.frames
    ensures TellsInv(ProbeFold(s, keys), answered)
    decreases |keys|
  {
    if keys != [] {
      ProbeStepTells(s, keys[0], answered);
      ProbeStepInv(s, keys[0]);
      ProbeFoldTells(ProbeStep(s, keys[0]), keys[1..], answered);
    }
  }

  // Tracking

  /** Absorbed results answer an open probe; without one the probes stay open. */
  lemma {:induction false} AbsorbTells(probes: set<string>, results: seq<FaceResult>, arrived: seq<FaceResult>)
    ensures var r := Absorb(probes, results, arrived);
            && |r.1| >= |results|
            && (r.1 == results ==> r.0 == probes)
            && (r.1 != results ==> exists x :: x in arrived && x.probeId in probes)
    decreases |arrived|
  {
    if arrived != [] {
      assert arrived[0] in arrived;
      if arrived[0].probeId in probes {
        AbsorbTells(probes - {arrived[0].probeId}, results + [arrived[0]], arrived[1..]);
      } else {
        AbsorbTells(probes, results, arrived[1..]);
      }
    }
  }

  lemma NewEntryTells(s: State, frame: Frame, boxes: seq<Box>, expected: set<int>, probed: seq<int>,
                      answered: int -> bool)
    requires ProbesInv(s.queuedProbes, expected, s.latestFace, s.cfg) && QueuedIssued(s.queuedProbes, s.calls.probed)
    requires EarlyTells(s.early, answered)
    requires forall k :: k in s.queuedProbes ==> s.queuedProbes[k] != {}
    requires frame.id in probed ==> FreshProbes(s, frame) != {} || frame.id in s.queuedProbes
    ensures EntryTells(frame.id, NewFaceFrame(s, frame, boxes), probed, answered)
  {
    var k := frame.id;
    var probes := if ProbedAhead(s, k) then s.queuedProbes[k] else {};
    AbsorbTells(probes, [], EarlyAt(s.early, k));
    if ProbedAhead(s, k) {
      assert Issued(k, s.queuedProbes[k], s.calls.probed);
    }
  }

  lemma AliveMoves(s: State, updates: seq<TrackerUpdate>, probed: seq<int>)
    requires updates != []
    requires ProbedAlive(s.calls.probed, UpdateIds(s.calls.tracked), s.intake.frames.Keys + UpdateIds(updates),
                         s.queuedProbes)
    requires probed == s.calls.probed || probed == s.calls.probed + [updates[0].frame.id]
    ensures ProbedAlive(probed, UpdateIds(s.calls.tracked + [updates[0]]),
                        s.intake.frames.Keys + UpdateIds(updates[1..]),
                        if ProbedAhead(s, updates[0].frame.id) then s.queuedProbes - {updates[0].frame.id}
                        else s.queuedProbes)
  {
    UpdateIdsAppend(s.calls.tracked, updates[0]);
    assert updates == [updates[0]] + updates[1..];
    PrependUpdate([], updates[0], updates[1..]);
  }

  lemma TrackFrameTells(s: State, updates: seq<TrackerUpdate>, answered: int -> bool)
    requires updates != [] && InvDuring(s, updates) && AnswersInv(s) && TellsDuring(s, updates, answered)
    ensures TellsDuring(TrackFrame(s, updates[0]), updates[1..], answered)
  {
    var u, t := updates[0], TrackFrame(s, updates[0]);
    var k := u.frame.id;
    NotYetTracked(s, updates);
    IssueTells(s.faceFrames - {k}, s.calls.handedOver, s.calls.probed, s.latestFace, s.cfg.window, answered, k,
               t.latestFace);
    AliveMoves(s, updates, t.calls.probed);
    NewEntryTells(s, u.frame, s.cfg.tracker(t.calls.tracked), s.intake.frames.Keys + UpdateIds(updates), t.calls.probed,
                  answered);
    SameTells(s, t, k, answered);
  }

  lemma NotYetTracked(s: State, updates: seq<TrackerUpdate>)
    requires updates != [] && InvDuring(s, updates)
    ensures updates[0].frame.id !in UpdateIds(s.calls.tracked)
    ensures updates[0].frame.id !in HandoverIds(s.calls.handedOver) && updates[0].frame.id !in s.faceFrames
  {
    var all := s.calls.tracked + updates;
    assert all[|s.calls.tracked|] == updates[0];
    forall i | 0 <= i < |s.calls.tracked| ensures s.calls.tracked[i].frame.id != updates[0].frame.id {
      assert s.calls.tracked[i] == all[i];
    }
  }

  lemma SameTells(s: State, t: State, k: int, answered: int -> bool)
    requires EntriesTell(s.faceFrames, s.calls.probed, answered) && k !in s.faceFrames
    requires t.calls.probed == s.calls.probed || t.calls.probed == s.calls.probed + [k]
    requires k in t.faceFrames && t.faceFrames == s.faceFrames[k := t.faceFrames[k]]
    requires EntryTells(k, t.faceFrames[k], t.calls.probed, answered)
    ensures EntriesTell(t.faceFrames, t.calls.probed, answered)
  {
    forall x | x in t.faceFrames ensures EntryTells(x, t.faceFrames[x], t.calls.probed, answered) {
      if x != k {
        assert EntryTells(x, s.faceFrames[x], s.calls.probed, answered);
      }
    }
  }

  lemma MoreHandovers(handed: seq<Handover>, due: seq<Handover>, probed: seq<int>, latestFace: int, window: int,
                      answered: int -> bool)
    requires HandoversTell(handed, probed, latestFace, window, answered)
    requires HandoversTell(due, probed, latestFace, window, answered)
    ensures HandoversTell(handed + due, probed, latestFace, window, answered)
  {
    forall h | h in handed + due ensures HandoverTells(h, probed, latestFace, window, answered) {
      assert h in handed || h in due;
    }
  }

  lemma QueueTells(s: State, updates: seq<TrackerUpdate>, k: int, answered: int -> bool)
    requires TellsDuring(s, updates, answered) && k in s.faceFrames && s.faceFrames[k].probes == {}
    requires s.faceFrames[k].frame.id == k
    ensures TellsDuring(QueueRecognition(s, k), updates, answered)
  {
    var p := s.faceFrames[k];
    if !p.queued {
      var h, t := MakeHandover(s.cfg, p), QueueRecognition(s, k);
      assert EntryTells(k, p, s.calls.probed, answered);
      MoreHandovers(s.calls.handedOver, [h], s.calls.probed, s.latestFace, s.cfg.window, answered);
      forall x | x in t.faceFrames ensures EntryTells(x, t.faceFrames[x], s.calls.probed, answered) {
        assert EntryTells(x, s.faceFrames[x], s.calls.probed, answered);
      }
    }
  }

  lemma ProcessTrackedTells(s: State, updates: seq<TrackerUpdate>, answered: int -> bool)
    requires updates != [] && InvDuring(s, updates) && AnswersInv(s) && TellsDuring(s, updates, answered)
    ensures TellsDuring(ProcessTracked(s, updates[0]), updates[1..], answered)
  {
    TrackFrameTells(s, updates, answered);
    var t, k := TrackFrame(s, updates[0]), updates[0].frame.id;
    if t.faceFrames[k].probes == {} {
      QueueTells(t, updates[1..], k, answered);
    }
  }

  lemma ProcessTrackedAnswers(s: State, u: TrackerUpdate)
    requires AnswersInv(s)
    ensures AnswersInv(ProcessTracked(s, u))
  {
    TrackFrameAnswers(s, u);
    QueueAnswers(TrackFrame(s, u), u.frame.id);
  }

  lemma {:induction false} ProcessAllTells(s: State, updates: seq<TrackerUpdate>, answered: int -> bool)
    requires InvDuring(s, updates) && AnswersInv(s) && TellsDuring(s, updates, answered)
    ensures TellsInv(ProcessAll(s, updates), answered)
    decreases |updates|
  {
    if updates != [] {
      ProcessTrackedTells(s, updates, answered);
      ProcessTrackedInv(s, updates);
      ProcessTrackedAnswers(s, updates[0]);
      ProcessAllTells(ProcessTracked(s, updates[0]), updates[1..], answered);
    }
  }

  /** After the intake loop the frames taken off the queue are the ones that are still to be processed. */
  lemma IntakeDuring(s: State)
    requires Inv(s) && AnswersInv(s)
    ensures var r := DrainIntake(s.intake, s.cfg.window);
            InvDuring(s.(intake := r.0), r.1) && AnswersInv(s.(intake := r.0))
            && s.intake.frames.Keys == r.0.frames.Keys + UpdateIds(r.1)
  {
    var r := DrainIntake(s.intake, s.cfg.window);
    assert s.calls.tracked + [] == s.calls.tracked;
    DrainIntakeInv(s.intake, s.cfg.window, s.calls.tracked);
    RecognitionGrows(s.recognition, s.intake.next, s.calls.handedOver, s.calls.identityTasks, s.latestIdentity,
                     s.latestRecognition, s.cfg.window,
                     r.0.next, s.calls.handedOver, s.latestRecognition);
    assert UpdateIds([]) == {};
    LoopKeyed(StartIntake(s.intake), s.cfg.window);
  }

  lemma DrainTrackingTells(s: State, answered: int -> bool)
    requires Inv(s) && AnswersInv(s) && TellsInv(s, answered)
    ensures TellsInv(DrainTracking(s), answered)
  {
    var r := DrainIntake(s.intake, s.cfg.window);
    IntakeDuring(s);
    assert UpdateIds([]) == {};
    ProcessAllTells(s.(intake := r.0), r.1, answered);
  }

  // The sweep over the face frames

  lemma {:induction false} DueTells(cfg: Config, all: map<int, PendingFaceFrame>, keys: seq<int>, latestFace: int,
                                    probed: seq<int>, answered: int -> bool)
    requires (forall k :: k in keys ==> k in all) && EntriesTell(all, probed, answered)
    requires forall k :: k in all ==> all[k].frame.id == k
    ensures HandoversTell(DueHandovers(cfg, all, keys, latestFace), probed, latestFace, cfg.window, answered)
    decreases |keys|
  {
    if keys != [] {
      var k := keys[0];
      assert k in keys;
      assert EntryTells(k, all[k], probed, answered);
      DueTells(cfg, all, keys[1..], latestFace, probed, answered);
    }
  }

  lemma DrainFacesTells(s: State, answered: int -> bool)
    requires AnswersInv(s) && TellsInv(s, answered)
    ensures TellsInv(DrainFaces(s), answered)
  {
    var keys := SortedKeys(s.faceFrames.Keys);
    var due := DueHandovers(s.cfg, s.faceFrames, keys, s.latestFace);
    forall k | k in s.faceFrames ensures s.faceFrames[k].frame.id == k {
      assert EntryAnswers(k, s.faceFrames[k], s.calls.probed);
    }
    DueTells(s.cfg, s.faceFrames, keys, s.latestFace, s.calls.probed, answered);
    MoreHandovers(s.calls.handedOver, due, s.calls.probed, s.latestFace, s.cfg.window, answered);
    forall k | k in DrainFaces(s).faceFrames
      ensures EntryTells(k, DrainFaces(s).faceFrames[k], s.calls.probed, answered)
    {
      assert EntryTells(k, s.faceFrames[k], s.calls.probed, answered);
    }
  }

  lemma TrimTells(s: State, answered: int -> bool)
    requires Inv(s) && Settled(s) && Roomy(s) && TellsInv(s, answered)
    ensures TellsInv(Trim(s), answered)
  {
    TrimIdle(s);
    TrimSubmap(s.early, s.cfg.limit);
  }

  lemma DrainProbesTells(s: State, answered: int -> bool)
    requires Inv(s) && AnswersInv(s) && TellsInv(s, answered)
    ensures TellsInv(DrainProbes(s), answered) && AnswersInv(DrainProbes(s))
  {
    if s.cfg.faceDetection && s.cfg.independent {
      ProbeFoldTells(s, SortedKeys(s.intake.frames.Keys), answered);
      ProbeFoldAnswers(s, SortedKeys(s.intake.frames.Keys));
    }
  }

  lemma LateStagesTell(s: State, answered: int -> bool)
    requires TellsInv(s, answered)
    ensures TellsInv(DrainCommit(DrainRecognition(s)), answered)
  {
  }

  lemma DrainTells(s: State, answered: int -> bool)
    requires Inv(s) && Roomy(s) && AnswersInv(s) && TellsInv(s, answered)
    ensures TellsInv(Drain(s), answered)
  {
    DrainProbesTells(s, answered);
    DrainProbesInv(s);
    var s1 := DrainProbes(s);
    DrainTrackingTells(s1, answered);
    DrainTrackingAnswers(s1);
    DrainFacesTells(DrainTracking(s1), answered);
    LateStagesTell(DrainFaces(DrainTracking(s1)), answered);
    DrainStagesInv(s);
    TrimTells(DrainStages(s), answered);
  }

  // Pushes

  lemma PushFaceTells(s: State, r: FaceResult, answered: int -> bool)
    requires AnswersInv(s) && TellsInv(s, answered)
    requires r.probeId == ProbeId(r.frameId) && (s.cfg.independent || r.frameId in s.calls.probed) ==> answered(r.frameId)
    ensures TellsInv(PushFace(s, r), answered)
  {
    var t := PushFace(s, r);
    if r.frameId in s.faceFrames {
      assert EntryAnswers(r.frameId, s.faceFrames[r.frameId], s.calls.probed);
      forall k | k in t.faceFrames ensures EntryTells(k, t.faceFrames[k], s.calls.probed, answered) {
        assert EntryTells(k, s.faceFrames[k], s.calls.probed, answered);
      }
    }
  }

  lemma OtherPushTells(s: State, op: Op, answered: int -> bool)
    requires op != DrainReady && !op.FaceAnswer? && TellsInv(s, answered)
    ensures TellsInv(Step(s, op), answered)
  {
  }

  lemma {:induction false} RunTells(cfg: Config, ops: seq<Op>)
    requires Legal(cfg, ops) && cfg.limit > cfg.window
    ensures TellsInv(Run(cfg, ops), AnsweredIn(cfg, ops))
    decreases |ops|
  {
    if ops == [] {
      assert UpdateIds([]) == {};
    } else {
      var before, op := ops[..|ops| - 1], ops[|ops| - 1];
      Sequences.SplitLast(ops);
      LegalPrefix(cfg, ops);
      RunTells(cfg, before);
      StepTells(cfg, before, op);
    }
  }

  lemma {:induction false} StepTells(cfg: Config, ops: seq<Op>, op: Op)
    requires Legal(cfg, ops) && cfg.limit > cfg.window && TellsInv(Run(cfg, ops), AnsweredIn(cfg, ops))
    ensures TellsInv(Run(cfg, ops + [op]), AnsweredIn(cfg, ops + [op]))
  {
    var s, answered := Run(cfg, ops), AnsweredIn(cfg, ops + [op]);
    RunStep(cfg, ops, op);
    RunInv(cfg, ops);
    RunAnswers(cfg, ops);
    forall k | AnsweredIn(cfg, ops)(k) ensures answered(k) {
      AnsweredStays(cfg, ops, op, k);
    }
    TellsMore(s, AnsweredIn(cfg, ops), answered);
    if op.FaceAnswer? {
      var r := op.face;
      if r.probeId == ProbeId(r.frameId) && (s.cfg.independent || r.frameId in s.calls.probed) {
        AnsweredNow(cfg, ops, r);
      }
      PushFaceTells(s, r, answered);
    } else if op == DrainReady {
      DrainTells(s, answered);
    } else {
      OtherPushTells(s, op, answered);
    }
  }

  // An answer closes the probe

  ghost predicate HasAnswer(results: seq<FaceResult>, k: int) {
    exists r :: r in results && r.probeId == ProbeId(k)
  }

  /** A tracked frame waits for nothing; for another one the answer is kept, unless the frame can no longer be tracked. */
  ghost predicate Closed(s: State, k: int) {
    if k in UpdateIds(s.calls.tracked) then
      k in HandoverIds(s.calls.handedOver) || (k in s.faceFrames && s.faceFrames[k].probes == {})
    else s.cfg.independent && (k < s.intake.next || (k in s.early && HasAnswer(s.early[k], k)))
  }

  lemma CommitBehindTracker(s: State)
    requires Inv(s)
    ensures s.commit.next <= s.intake.next
  {
    if s.calls.tracked != [] {
      assert s.calls.tracked + [] == s.calls.tracked;
      assert s.calls.tracked[0].frame.id in UpdateIds(s.calls.tracked);
    }
  }

  lemma AnswerClosesTracked(s: State, r: FaceResult)
    requires Conserved(s.calls.tracked, s.faceFrames, s.calls.handedOver) && AnswersInv(s)
    requires r.probeId == ProbeId(r.frameId) && r.frameId in UpdateIds(s.calls.tracked)
    ensures Closed(PushFace(s, r), r.frameId)
  {
    var k := r.frameId;
    PushFaceIs(s, r);
    if k !in HandoverIds(s.calls.handedOver) {
      assert EntryAnswers(k, s.faceFrames[k], s.calls.probed);
      assert s.faceFrames[k].probes <= {ProbeId(k)};
      assert CoordinatorTheorems.Answered(s.faceFrames[k], r).probes == {};
    }
  }

  lemma AnswerKept(s: State, r: FaceResult)
    requires Inv(s) && r.probeId == ProbeId(r.frameId) && s.cfg.independent && r.frameId !in UpdateIds(s.calls.tracked)
    ensures Closed(PushFace(s, r), r.frameId)
  {
    PushFaceIs(s, r);
    CommitBehindTracker(s);
    assert r in EarlyAt(s.early, r.frameId) + [r];
  }

  lemma AnswerCloses(s: State, r: FaceResult, answered: int -> bool)
    requires Inv(s) && AnswersInv(s) && TellsInv(s, answered)
    requires r.probeId == ProbeId(r.frameId) && (s.cfg.independent || r.frameId in s.calls.probed)
    ensures Closed(PushFace(s, r), r.frameId)
  {
    if r.frameId in UpdateIds(s.calls.tracked) {
      AnswerClosesTracked(s, r);
    } else {
      AnswerKept(s, r);
    }
  }

  lemma PushKeepsClosed(s: State, op: Op, k: int)
    requires op != DrainReady && Closed(s, k)
    ensures Closed(Step(s, op), k)
  {
    if op.FaceAnswer? {
      PushFaceIs(s, op.face);
      if k !in UpdateIds(s.calls.tracked) && k >= s.intake.next {
        var r :| r in s.early[k] && r.probeId == ProbeId(k);
        assert r in s.early[k] + [op.face];
      }
    }
  }

  // Drains

  /** In independent mode the probes of every pending frame are issued ahead, if it has any. */
  lemma {:induction false} FoldCovers(s: State, keys: seq<int>, k: int)
    requires (forall x :: x in keys ==> x in s.intake.frames) && k in keys && k !in s.faceFrames && k >= s.intake.next
    ensures var t := ProbeFold(s, keys);
            && t.intake == s.intake && t.early == s.early && t.cfg == s.cfg
            && (k in t.queuedProbes || PlannedProbes(s.intake.frames[k]) == {})
    decreases |keys|
  {
    var s1 := ProbeStep(s, keys[0]);
    if k in keys[1..] {
      FoldCovers(s1, keys[1..], k);
    } else {
      FoldKeeps(s1, keys[1..], k);
    }
  }

  lemma {:induction false} FoldKeeps(s: State, keys: seq<int>, k: int)
    requires forall x :: x in keys ==> x in s.intake.frames
    ensures var t := ProbeFold(s, keys);
            && t.intake == s.intake && t.early == s.early && t.cfg == s.cfg
            && (k in s.queuedProbes ==> k in t.queuedProbes)
    decreases |keys|
  {
    if keys != [] {
      FoldKeeps(ProbeStep(s, keys[0]), keys[1..], k);
    }
  }

  /** An early answer closes the probe that was issued ahead. */
  lemma {:induction false} AbsorbCloses(probes: set<string>, results: seq<FaceResult>, arrived: seq<FaceResult>, k: int)
    requires probes <= {ProbeId(k)} && HasAnswer(arrived, k)
    ensures Absorb(probes, results, arrived).0 == {}
    decreases |arrived|
  {
    var r :| r in arrived && r.probeId == ProbeId(k);
    if arrived[0].probeId == ProbeId(k) {
      assert probes - {ProbeId(k)} == {} && (ProbeId(k) !in probes ==> probes == {});
      AbsorbNothingOpen(arrived[1..], if arrived[0].probeId in probes then results + [arrived[0]] else results);
    } else {
      assert r in arrived[1..];
      AbsorbCloses(probes, results, arrived[1..], k);
    }
  }

  lemma {:induction false} AbsorbNothingOpen(arrived: seq<FaceResult>, results: seq<FaceResult>)
    ensures Absorb({}, results, arrived) == ({}, results)
    decreases |arrived|
  {
    if arrived != [] {
      AbsorbNothingOpen(arrived[1..], results);
    }
  }

  lemma PendingCloses(s: State, k: int)
    requires Inv(s) && AnswersInv(s) && s.cfg.independent && k in s.intake.frames && k !in s.faceFrames
    requires k in s.early && HasAnswer(s.early[k], k)
    ensures OpenProbes(s, k) == {}
  {
    var s1, frame := DrainProbes(s), s.intake.frames[k];
    var keys := SortedKeys(s.intake.frames.Keys);
    if s.cfg.faceDetection {
      FoldCovers(s, keys, k);
      ProbeFoldAnswers(s, keys);
      assert k in s1.queuedProbes ==> Issued(k, s1.queuedProbes[k], s1.calls.probed);
    }
    assert s1.early == s.early && s1.cfg == s.cfg;
    var probes := if ProbedAhead(s1, k) then s1.queuedProbes[k] else {};
    AbsorbCloses(probes, [], s1.early[k], k);
    assert FreshProbes(s1, frame) == {};
  }

  lemma {:induction false} ProcessAllEarly(s: State, updates: seq<TrackerUpdate>, k: int)
    requires k !in UpdateIds(updates)
    ensures var t := ProcessAll(s, updates);
            && t.cfg == s.cfg && s.calls.handedOver <= t.calls.handedOver
            && (k in s.early ==> k in t.early && t.early[k] == s.early[k])
    decreases |updates|
  {
    if updates != [] {
      assert updates == [updates[0]] + updates[1..];
      PrependUpdate([], updates[0], updates[1..]);
      ProcessAllEarly(ProcessTracked(s, updates[0]), updates[1..], k);
    }
  }

  lemma {:induction false} ProcessAllHands(s: State, updates: seq<TrackerUpdate>)
    ensures s.calls.handedOver <= ProcessAll(s, updates).calls.handedOver
    decreases |updates|
  {
    if updates != [] {
      ProcessAllHands(ProcessTracked(s, updates[0]), updates[1..]);
    }
  }

  lemma DrainHands(s: State)
    ensures s.calls.handedOver <= Drain(s).calls.handedOver
  {
    ProbeFoldFaces(s, SortedKeys(s.intake.frames.Keys));
    var s1 := DrainProbes(s);
    var r := DrainIntake(s1.intake, s1.cfg.window);
    ProcessAllHands(s1.(intake := r.0), r.1);
  }

  lemma PrefixIds(a: seq<Handover>, b: seq<Handover>)
    requires a <= b
    ensures HandoverIds(a) <= HandoverIds(b)
  {
    assert b == a + b[|a|..];
    HandoverIdsConcat(a, b[|a|..]);
  }

  /** A drain leaves the early results of frames that it does not track, as long as none are trimmed. */
  lemma EarlyStays(s: State, k: int)
    requires Inv(s) && Roomy(s) && k !in UpdateIds(Drain(s).calls.tracked) && |DrainStages(s).early| <= s.cfg.limit
    ensures k in s.early ==> k in Drain(s).early && Drain(s).early[k] == s.early[k]
  {
    FoldKeeps(s, SortedKeys(s.intake.frames.Keys), k);
    var s1 := DrainProbes(s);
    DrainTracked(s);
    DrainProbesInv(s);
    DrainTrackingInv(s1);
    var r := DrainIntake(s1.intake, s1.cfg.window);
    UpdateIdsConcat(s1.calls.tracked, r.1);
    ProcessAllEarly(s1.(intake := r.0), r.1, k);
    DrainStagesInv(s);
    TrimIdle(DrainStages(s));
  }

  lemma FrontierGrows(s: State)
    requires Inv(s) && Roomy(s)
    ensures Drain(s).intake.next >= s.intake.next && Drain(s).cfg == s.cfg
    ensures UpdateIds(s.calls.tracked) <= UpdateIds(Drain(s).calls.tracked)
    ensures forall k :: k in UpdateIds(Drain(s).calls.tracked) && k !in UpdateIds(s.calls.tracked) ==> k in s.intake.frames
  {
    DrainProbesInv(s);
    var s1 := DrainProbes(s);
    DrainTrackingInv(s1);
    DrainTracked(s);
    var r := DrainIntake(s1.intake, s1.cfg.window);
    assert s.calls.tracked + [] == s.calls.tracked;
    DrainIntakeInv(s.intake, s.cfg.window, s.calls.tracked);
    UpdateIdsConcat(s.calls.tracked, r.1);
    DrainStagesInv(s);
    TrimIdle(DrainStages(s));
  }

  lemma {:induction false} DrainKeepsClosed(s: State, k: int)
    requires Inv(s) && Roomy(s) && AnswersInv(s) && Closed(s, k) && |DrainStages(s).early| <= s.cfg.limit
    ensures Closed(Drain(s), k)
    ensures k in UpdateIds(Drain(s).calls.tracked) ==> k in HandoverIds(Drain(s).calls.handedOver)
  {
    var t := Drain(s);
    FrontierGrows(s);
    DrainHands(s);
    PrefixIds(s.calls.handedOver, t.calls.handedOver);
    if k in HandoverIds(s.calls.handedOver) {
      Provenance(s);
    } else if k in UpdateIds(s.calls.tracked) {
      WaitingBefore(s, k);
      DrainHandsOver(s, k, OpenProbes(s, k));
    } else if k in UpdateIds(t.calls.tracked) {
      assert s.intake.frames[k].id == k;
      PendingCloses(s, k);
      TrackedNow(s, k);
      DrainHandsOver(s, k, OpenProbes(s, k));
    } else {
      EarlyStays(s, k);
    }
  }

  // Whole runs

  /** Every drain of the sequence finds a history that satisfies `p`. */
  ghost predicate BeforeDrains(ops: seq<Op>, p: seq<Op> -> bool) {
    forall n :: 0 <= n < |ops| && ops[n] == DrainReady ==> p(ops[..n])
  }

  ghost function EarlyResultsFit(cfg: Config): seq<Op> -> bool {
    (ops: seq<Op>) => |DrainStages(Run(cfg, ops)).early| <= cfg.limit
  }

  /** No drain has to trim early face results. */
  ghost predicate EarlyFits(cfg: Config, ops: seq<Op>) {
    BeforeDrains(ops, EarlyResultsFit(cfg))
  }

  lemma BeforeEarlierDrains(ops: seq<Op>, op: Op, p: seq<Op> -> bool)
    requires BeforeDrains(ops + [op], p)
    ensures BeforeDrains(ops, p) && (op == DrainReady ==> p(ops))
  {
    var longer := ops + [op];
    assert longer[..|ops|] == ops && longer[|ops|] == op;
    forall n | 0 <= n < |ops| && ops[n] == DrainReady ensures p(ops[..n]) {
      assert longer[..n] == ops[..n] && longer[n] == ops[n];
    }
  }

  lemma {:induction false} StepClosed(cfg: Config, ops: seq<Op>, op: Op, k: int)
    requires Legal(cfg, ops) && cfg.limit > cfg.window && Answered(cfg, ops + [op], k)
    requires Answered(cfg, ops, k) ==> Closed(Run(cfg, ops), k)
    requires op == DrainReady ==> EarlyResultsFit(cfg)(ops)
    ensures Closed(Run(cfg, ops + [op]), k)
  {
    var s := Run(cfg, ops);
    RunInv(cfg, ops);
    RunAnswers(cfg, ops);
    RunTells(cfg, ops);
    RunStep(cfg, ops, op);
    AnsweredBefore(cfg, ops, op, k);
    if !Answered(cfg, ops, k) {
      AnswerCloses(s, op.face, AnsweredIn(cfg, ops));
    } else if op == DrainReady {
      DrainKeepsClosed(s, k);
    } else {
      PushKeepsClosed(s, op, k);
    }
  }

  ghost function ClosedIn(cfg: Config, k: int): seq<Op> -> bool {
    (ops: seq<Op>) => Answered(cfg, ops, k) ==> Closed(Run(cfg, ops), k)
  }

  lemma {:induction false} OneMoreClosed(cfg: Config, ops: seq<Op>, op: Op, k: int)
    requires Legal(cfg, ops) && cfg.limit > cfg.window && ClosedIn(cfg, k)(ops)
    requires op == DrainReady ==> EarlyResultsFit(cfg)(ops)
    ensures ClosedIn(cfg, k)(ops + [op])
  {
    if Answered(cfg, ops + [op], k) {
      StepClosed(cfg, ops, op, k);
    }
  }

  lemma {:induction false} AnsweredIsClosed(cfg: Config, ops: seq<Op>, k: int)
    requires Legal(cfg, ops) && cfg.limit > cfg.window && EarlyFits(cfg, ops)
    ensures ClosedIn(cfg, k)(ops)
    decreases |ops|
  {
    if ops != [] {
      var before, op := ops[..|ops| - 1], ops[|ops| - 1];
      Sequences.SplitLast(ops);
      LegalPrefix(cfg, ops);
      BeforeEarlierDrains(before, op, EarlyResultsFit(cfg));
      AnsweredIsClosed(cfg, before, k);
      OneMoreClosed(cfg, before, op, k);
    }
  }

  /** A probe of a frame more than the window newer has been issued. */
  ghost predicate Overdue(probed: seq<int>, k: int, window: int) {
    exists n :: n in probed && n - k > window
  }

  lemma OverdueIsLatest(latestFace: int, probed: seq<int>, k: int, window: int)
    requires ProbedInv(latestFace, probed) && window >= 0 && k >= 0
    ensures Overdue(probed, k, window) <==> latestFace - k > window
  {
  }

  lemma LegalDrain(cfg: Config, ops: seq<Op>)
    requires Legal(cfg, ops)
    ensures Legal(cfg, ops + [DrainReady])
  {
    var longer := ops + [DrainReady];
    forall i | 0 <= i < |longer| ensures Allowed(Run(cfg, longer[..i]), longer[i]) {
      if i < |ops| {
        assert longer[..i] == ops[..i] && longer[i] == ops[i];
      }
    }
  }

  lemma {:induction false} DrainClosed(cfg: Config, ops: seq<Op>, k: int)
    requires Legal(cfg, ops) && cfg.limit > cfg.window && Closed(Run(cfg, ops), k)
    requires EarlyResultsFit(cfg)(ops)
    requires k in UpdateIds(Run(cfg, ops + [DrainReady]).calls.tracked)
    ensures k in HandoverIds(Run(cfg, ops + [DrainReady]).calls.handedOver)
  {
    RunInv(cfg, ops);
    RunAnswers(cfg, ops);
    RunDrain(cfg, ops);
    DrainKeepsClosed(Run(cfg, ops), k);
  }

  lemma HandedTells(s: State, k: int, answered: int -> bool, window: int)
    requires TellsInv(s, answered) && k in HandoverIds(s.calls.handedOver) && s.cfg.window == window
    ensures answered(k) || k !in s.calls.probed || s.latestFace - k > window
  {
    var i :| 0 <= i < |s.calls.handedOver| && s.calls.handedOver[i].task.frameId == k;
    assert HandoverTells(s.calls.handedOver[i], s.calls.probed, s.latestFace, window, answered);
  }

  lemma {:induction false} HandedHasReason(cfg: Config, ops: seq<Op>, k: int)
    requires Legal(cfg, ops) && cfg.limit > cfg.window
    requires k in HandoverIds(Run(cfg, ops).calls.handedOver)
    ensures var probed := Run(cfg, ops).calls.probed;
            k !in probed || Answered(cfg, ops, k) || Overdue(probed, k, cfg.window)
  {
    var s := Run(cfg, ops);
    RunInv(cfg, ops);
    Provenance(s);
    RunTells(cfg, ops);
    LatestFaceIsNewestProbe(cfg, ops);
    HandedTells(s, k, AnsweredIn(cfg, ops), cfg.window);
    OverdueIsLatest(s.latestFace, s.calls.probed, k, cfg.window);
  }

  lemma {:induction false} WaitingHasProbe(cfg: Config, ops: seq<Op>, k: int)
    requires Legal(cfg, ops) && cfg.limit > cfg.window
    requires k in UpdateIds(Run(cfg, ops + [DrainReady]).calls.tracked)
    requires k !in HandoverIds(Run(cfg, ops + [DrainReady]).calls.handedOver)
    ensures var probed := Run(cfg, ops + [DrainReady]).calls.probed;
            k in probed && !Overdue(probed, k, cfg.window)
  {
    var s := Run(cfg, ops + [DrainReady]);
    LegalDrain(cfg, ops);
    HandedOverOnce(cfg, ops);
    RunInv(cfg, ops + [DrainReady]);
    RunAnswers(cfg, ops + [DrainReady]);
    LatestFaceIsNewestProbe(cfg, ops + [DrainReady]);
    assert EntryAnswers(k, s.faceFrames[k], s.calls.probed);
    Provenance(s);
    OverdueIsLatest(s.latestFace, s.calls.probed, k, cfg.window);
  }

  lemma {:induction false} AnsweredIsHandedOver(cfg: Config, ops: seq<Op>, k: int)
    requires Legal(cfg, ops) && cfg.limit > cfg.window && EarlyFits(cfg, ops + [DrainReady]) && Answered(cfg, ops, k)
    requires k in UpdateIds(Run(cfg, ops + [DrainReady]).calls.tracked)
    ensures k in HandoverIds(Run(cfg, ops + [DrainReady]).calls.handedOver)
  {
    BeforeEarlierDrains(ops, DrainReady, EarlyResultsFit(cfg));
    AnsweredIsClosed(cfg, ops, k);
    DrainClosed(cfg, ops, k);
  }

  /**
   After a drain that trims no early result, a tracked frame is with the recognizer if and only if no probe was issued for
   it, its probe was answered, or a probe of a frame more than the window newer was issued.
   */
  lemma {:induction false} HandedOverExactlyWhenAnswered(cfg: Config, ops: seq<Op>, k: int)
    requires Legal(cfg, ops) && cfg.limit > cfg.window && EarlyFits(cfg, ops + [DrainReady])
    requires k in UpdateIds(Run(cfg, ops + [DrainReady]).calls.tracked)
    ensures var s := Run(cfg, ops + [DrainReady]);
            k in HandoverIds(s.calls.handedOver) <==>
              k !in s.calls.probed || Answered(cfg, ops, k) || Overdue(s.calls.probed, k, cfg.window)
  {
    if k in HandoverIds(Run(cfg, ops + [DrainReady]).calls.handedOver) {
      LegalDrain(cfg, ops);
      HandedHasReason(cfg, ops + [DrainReady], k);
      if Answered(cfg, ops + [DrainReady], k) {
        AnsweredBefore(cfg, ops, DrainReady, k);
      }
    } else {
      WaitingHasProbe(cfg, ops, k);
      if Answered(cfg, ops, k) {
        AnsweredIsHandedOver(cfg, ops, k);
      }
    }
  }

  /** A frame that goes to the recognizer without a result, although a probe was issued for it, was overdue. */
  lemma {:induction false} UnansweredOnlyWhenOverdue(cfg: Config, ops: seq<Op>, h: Handover)
    requires Legal(cfg, ops) && cfg.limit > cfg.window
    requires h in Run(cfg, ops).calls.handedOver && h.results == [] && h.task.frameId in Run(cfg, ops).calls.probed
    ensures Overdue(Run(cfg, ops).calls.probed, h.task.frameId, cfg.window)
  {
    var s := Run(cfg, ops);
    RunInv(cfg, ops);
    RunTells(cfg, ops);
    LatestFaceIsNewestProbe(cfg, ops);
    assert HandoverTells(h, s.calls.probed, s.latestFace, s.cfg.window, AnsweredIn(cfg, ops));
    assert s.latestFace in s.calls.probed || s.latestFace == -1;
    Provenance(s);
    var i :| 0 <= i < |s.calls.handedOver| && s.calls.handedOver[i] == h;
    assert h.task.frameId in HandoverIds(s.calls.handedOver);
  }

  // Which frames have a probe

  ghost predicate Probed(cfg: Config, u: TrackerUpdate, probed: seq<int>) {
    cfg.faceDetection && u.frame.hasImage ==> u.frame.id in probed
  }

  ghost predicate AllProbed(cfg: Config, tracked: seq<TrackerUpdate>, probed: seq<int>) {
    forall u :: u in tracked ==> Probed(cfg, u, probed)
  }

  /** Tracking issues the probes of its frames, except in independent mode, where they were issued ahead. */
  lemma {:induction false} ProcessAllProbes(s: State, updates: seq<TrackerUpdate>)
    requires AllProbed(s.cfg, s.calls.tracked, s.calls.probed)
    requires s.cfg.independent ==> AllProbed(s.cfg, updates, s.calls.probed)
    ensures var t := ProcessAll(s, updates); AllProbed(s.cfg, t.calls.tracked, t.calls.probed)
    decreases |updates|
  {
    if updates != [] {
      var u, t := updates[0], ProcessTracked(s, updates[0]);
      assert u in updates && forall x :: x in updates[1..] ==> x in updates;
      assert !s.cfg.independent && s.cfg.faceDetection && u.frame.hasImage ==> FreshProbes(s, u.frame) != {};
      forall x | x in s.calls.tracked + [u] ensures Probed(s.cfg, x, t.calls.probed) {
        assert x in s.calls.tracked || x == u;
        assert x == u ==> u.frame.id in s.calls.probed + [u.frame.id];
      }
      forall x | x in updates[1..] && s.cfg.independent ensures Probed(s.cfg, x, t.calls.probed) {
        assert Probed(s.cfg, x, s.calls.probed);
      }
      ProcessAllProbes(t, updates[1..]);
    }
  }

  lemma {:induction false} FoldProbes(s: State, keys: seq<int>)
    requires forall x :: x in keys ==> x in s.intake.frames
    ensures s.calls.probed <= ProbeFold(s, keys).calls.probed && ProbeFold(s, keys).calls.tracked == s.calls.tracked
    decreases |keys|
  {
    if keys != [] {
      FoldProbes(ProbeStep(s, keys[0]), keys[1..]);
    }
  }

  lemma UpdateProbed(s: State, u: TrackerUpdate)
    requires Inv(s) && AnswersInv(s) && (exists answered :: TellsInv(s, answered))
    requires s.cfg.independent && u in DrainIntake(s.intake, s.cfg.window).1
    ensures Probed(s.cfg, u, DrainProbes(s).calls.probed)
  {
    var k := u.frame.id;
    FrameOfUpdate(s, u);
    if s.cfg.faceDetection && u.frame.hasImage {
      var answered :| TellsInv(s, answered);
      PendingHasNoEntry(s, k);
      FoldCovers(s, SortedKeys(s.intake.frames.Keys), k);
      DrainProbesTells(s, answered);
      var t := DrainProbes(s);
      assert Issued(k, t.queuedProbes[k], t.calls.probed);
    }
  }

  lemma PendingHasNoEntry(s: State, k: int)
    requires Inv(s) && k in s.intake.frames
    ensures k !in s.faceFrames && k >= s.intake.next
  {
    Provenance(s);
  }

  /** Only the first two stages issue probes and track frames. */
  lemma EarlyStagesOnly(s: State)
    ensures Drain(s).calls.probed == DrainTracking(DrainProbes(s)).calls.probed
    ensures Drain(s).calls.tracked == DrainTracking(DrainProbes(s)).calls.tracked
  {
  }

  lemma StaysProbed(cfg: Config, updates: seq<TrackerUpdate>, probed: seq<int>, probed': seq<int>)
    requires AllProbed(cfg, updates, probed) && probed <= probed'
    ensures AllProbed(cfg, updates, probed')
  {
    forall u | u in updates ensures Probed(cfg, u, probed') {
      assert Probed(cfg, u, probed);
    }
  }

  lemma UpdatesProbed(s: State)
    requires Inv(s) && AnswersInv(s) && (exists answered :: TellsInv(s, answered)) && s.cfg.independent
    ensures AllProbed(s.cfg, DrainIntake(s.intake, s.cfg.window).1, DrainProbes(s).calls.probed)
  {
    forall u | u in DrainIntake(s.intake, s.cfg.window).1 ensures Probed(s.cfg, u, DrainProbes(s).calls.probed) {
      UpdateProbed(s, u);
    }
  }

  lemma TrackingProbes(s: State)
    requires AllProbed(s.cfg, s.calls.tracked, s.calls.probed)
    requires s.cfg.independent ==> AllProbed(s.cfg, DrainIntake(s.intake, s.cfg.window).1, s.calls.probed)
    ensures AllProbed(s.cfg, DrainTracking(s).calls.tracked, DrainTracking(s).calls.probed)
  {
    var r := DrainIntake(s.intake, s.cfg.window);
    ProcessAllProbes(s.(intake := r.0), r.1);
  }

  lemma DrainProbesAll(s: State)
    requires Inv(s) && AnswersInv(s) && (exists answered :: TellsInv(s, answered))
    requires AllProbed(s.cfg, s.calls.tracked, s.calls.probed)
    ensures AllProbed(s.cfg, Drain(s).calls.tracked, Drain(s).calls.probed)
  {
    DrainProbesInv(s);
    FoldProbes(s, SortedKeys(s.intake.frames.Keys));
    StaysProbed(s.cfg, s.calls.tracked, s.calls.probed, DrainProbes(s).calls.probed);
    if s.cfg.independent {
      UpdatesProbed(s);
    }
    TrackingProbes(DrainProbes(s));
    EarlyStagesOnly(s);
  }

  /** With face detection a probe is issued for every tracked frame that has an image. */
  lemma {:induction false} EveryImageIsProbed(cfg: Config, ops: seq<Op>)
    requires Legal(cfg, ops) && cfg.limit > cfg.window
    ensures AllProbed(cfg, Run(cfg, ops).calls.tracked, Run(cfg, ops).calls.probed)
    decreases |ops|
  {
    if ops != [] {
      var before, op := ops[..|ops| - 1], ops[|ops| - 1];
      Sequences.SplitLast(ops);
      LegalPrefix(cfg, ops);
      EveryImageIsProbed(cfg, before);
      RunInv(cfg, before);
      if op == DrainReady {
        RunAnswers(cfg, before);
        RunTells(cfg, before);
        RunDrain(cfg, before);
        DrainProbesAll(Run(cfg, before));
      } else {
        PushesCallNobody(Run(cfg, before), op);
      }
    }
  }

  lemma PushesCallNobody(s: State, op: Op)
    requires op != DrainReady
    ensures Step(s, op).calls == s.calls
  {
  }
}
