/**
 What the two reordering stages guarantee whatever is pushed and however the limits are set: nothing here depends on
 which results answer queued tasks, on non-negative ids or on the limit exceeding the window.
 */
module CoordinatorCommits {
  import opened Types
  import Sequences
  import opened OrderedKeys
  import opened CoordinatorSpec
  import opened CoordinatorInvariants
  import opened CoordinatorDrains
  import opened CoordinatorRuns
  import opened CoordinatorTheorems

  datatype StageKind = RecognitionStage | CommitStage

  /** The result that a call pushes into a stage, if it does. */
  ghost function ResultOf(op: Op, kind: StageKind): Option<Item> {
    match op
    case Recognition(r) => if kind == RecognitionStage then Some(r) else None
    case Identity(r) => if kind == CommitStage then Some(r) else None
    case _ => None
  }

  /** The result that was pushed last for a frame. */
  ghost function LatestPushed(ops: seq<Op>, id: int, kind: StageKind): (r: Option<Item>)
    ensures r.Some? ==> r.value.frameId == id
  {
    if ops == [] then None
    else
      var last := ResultOf(ops[|ops| - 1], kind);
      if last.Some? && last.value.frameId == id then last else LatestPushed(ops[..|ops| - 1], id, kind)
  }

  /** Results behind the frontier may linger after the frontier was forced forward; the others are the latest pushed. */
  ghost predicate UpToDate(stage: Stage, ops: seq<Op>, kind: StageKind) {
    forall k :: k in stage.pending && (stage.next < 0 || k >= stage.next) ==>
      LatestPushed(ops, k, kind) == Some(stage.pending[k])
  }

  /** What a stage has let through lies behind its frontier, in increasing order. */
  ghost predicate LetThrough(done: seq<Item>, next: int) {
    IncreasingItems(done) && forall k :: k in ItemIds(done) ==> 0 <= k < next
  }

  ghost predicate StageSound(stage: Stage, done: seq<Item>, ops: seq<Op>, kind: StageKind) {
    UpToDate(stage, ops, kind) && LetThrough(done, stage.next)
  }

  ghost predicate StagesSound(s: State, ops: seq<Op>) {
    && StageSound(s.recognition, s.calls.identityTasks, ops, RecognitionStage)
    && StageSound(s.commit, s.calls.committed, ops, CommitStage)
  }

  ghost predicate AllLatest(items: seq<Item>, ops: seq<Op>, kind: StageKind) {
    forall i :: 0 <= i < |items| ==> LatestPushed(ops, items[i].frameId, kind) == Some(items[i])
  }

  // One stage

  /** The loop takes up-to-date results in id order from the frontier on. */
  ghost predicate Takes(stage: Stage, after: Stage, out: seq<Item>, ops: seq<Op>, kind: StageKind) {
    && UpToDate(after, ops, kind) && AllLatest(out, ops, kind) && IncreasingItems(out)
    && after.next >= stage.next
    && (forall k :: k in ItemIds(out) ==> 0 <= stage.next <= k < after.next)
  }

  lemma TakeOne(stage: Stage, after: Stage, out: seq<Item>, ops: seq<Op>, kind: StageKind)
    requires UpToDate(stage, ops, kind) && stage.next >= 0 && stage.next in stage.pending
    requires Takes(Stage(stage.next + 1, stage.pending - {stage.next}), after, out, ops, kind)
    ensures Takes(stage, after, [stage.pending[stage.next]] + out, ops, kind)
  {
    var r := stage.pending[stage.next];
    assert LatestPushed(ops, stage.next, kind) == Some(r);
    PrependItem(r, out);
  }

  lemma {:induction false} LoopTakes(stage: Stage, latest: int, window: int, ops: seq<Op>, kind: StageKind)
    requires window >= 0 && UpToDate(stage, ops, kind)
    ensures var r := ReorderLoop(stage, latest, window); Takes(stage, r.0, r.1, ops, kind)
    decreases |stage.pending|, latest - stage.next
  {
    var k := stage.next;
    if k < 0 {
    } else if k in stage.pending {
      assert (stage.pending - {k}).Keys == stage.pending.Keys - {k};
      var next := Stage(k + 1, stage.pending - {k});
      LoopTakes(next, latest, window, ops, kind);
      TakeOne(stage, ReorderLoop(next, latest, window).0, ReorderLoop(next, latest, window).1, ops, kind);
    } else if latest >= 0 && latest - k > window {
      LoopTakes(stage.(next := k + 1), latest, window, ops, kind);
    }
  }

  lemma PrependItem(r: Item, rest: seq<Item>)
    requires IncreasingItems(rest) && forall k :: k in ItemIds(rest) ==> r.frameId < k
    ensures IncreasingItems([r] + rest) && ItemIds([r] + rest) == {r.frameId} + ItemIds(rest)
  {
    ItemIdsConcat([r], rest);
    ItemIdsAppend([], r);
    assert [] + [r] == [r];
    var all := [r] + rest;
    forall i, j | 0 <= i < j < |all| ensures all[i].frameId < all[j].frameId {
      assert all[j] == rest[j - 1];
      assert rest[j - 1].frameId in ItemIds(rest);
    }
  }

  /** A stage that is still to be started has let nothing through. */
  lemma NothingYet(done: seq<Item>, next: int)
    requires LetThrough(done, next) && next < 0
    ensures done == []
  {
    NoIdsNoItems(done);
    assert forall k :: k !in ItemIds(done);
  }

  lemma DrainStageSound(stage: Stage, done: seq<Item>, latest: int, window: int, ops: seq<Op>, kind: StageKind)
    requires StageSound(stage, done, ops, kind) && window >= 0
    ensures var r := DrainStage(stage, latest, window);
            StageSound(r.0, done + r.1, ops, kind) && AllLatest(r.1, ops, kind)
  {
    var start := StartStage(stage);
    if stage.next < 0 {
      NothingYet(done, stage.next);
    }
    LoopTakes(start, latest, window, ops, kind);
    var r := DrainStage(stage, latest, window);
    ItemIdsConcat(done, r.1);
    IncreasingConcat(done, r.1, start.next);
  }

  lemma PushSound(stage: Stage, done: seq<Item>, ops: seq<Op>, kind: StageKind, op: Op)
    requires StageSound(stage, done, ops, kind)
    ensures var r := ResultOf(op, kind);
            StageSound(if r.Some? then PushStage(stage, r.value) else stage, done, ops + [op], kind)
  {
    var last := ResultOf(op, kind);
    forall k ensures LatestPushed(ops + [op], k, kind)
                  == if last.Some? && last.value.frameId == k then last else LatestPushed(ops, k, kind) {
      assert (ops + [op])[..|ops|] == ops;
    }
  }

  /** Fewer results, and a frontier that has moved forward or started before anything was let through. */
  lemma FewerSound(stage: Stage, stage': Stage, done: seq<Item>, ops: seq<Op>, kind: StageKind)
    requires StageSound(stage, done, ops, kind) && (stage.next >= 0 ==> stage'.next >= stage.next)
    requires forall k :: k in stage'.pending ==> k in stage.pending && stage'.pending[k] == stage.pending[k]
    ensures StageSound(stage', done, ops, kind)
  {
    if stage.next < 0 {
      NothingYet(done, stage.next);
    }
  }

  // A whole drain

  /** The earlier stages of a drain touch the commit stage at most to start it, and the recognition stage not at all. */
  ghost predicate OnlyStarts(s: State, t: State) {
    && t.recognition == s.recognition && t.calls.identityTasks == s.calls.identityTasks
    && t.calls.committed == s.calls.committed && t.commit.pending == s.commit.pending
    && (s.commit.next >= 0 ==> t.commit.next == s.commit.next)
  }

  lemma {:induction false} ProbeFoldStarts(s: State, keys: seq<int>)
    requires forall k :: k in keys ==> k in s.intake.frames
    ensures OnlyStarts(s, ProbeFold(s, keys))
    decreases |keys|
  {
    if keys != [] {
      ProbeFoldStarts(ProbeStep(s, keys[0]), keys[1..]);
    }
  }

  lemma {:induction false} ProcessAllStarts(s: State, updates: seq<TrackerUpdate>)
    ensures OnlyStarts(s, ProcessAll(s, updates))
    decreases |updates|
  {
    if updates != [] {
      ProcessTrackedStarts(s, updates[0]);
      ProcessAllStarts(ProcessTracked(s, updates[0]), updates[1..]);
    }
  }

  lemma ProcessTrackedStarts(s: State, u: TrackerUpdate)
    ensures OnlyStarts(s, ProcessTracked(s, u))
  {
  }

  lemma DrainStarts(s: State)
    ensures OnlyStarts(s, DrainFaces(DrainTracking(DrainProbes(s))))
  {
    ProbeFoldStarts(s, SortedKeys(s.intake.frames.Keys));
    var t := DrainProbes(s);
    assert OnlyStarts(s, t);
    var r := DrainIntake(t.intake, t.cfg.window);
    ProcessAllStarts(t.(intake := r.0), r.1);
    var t' := DrainTracking(t);
    assert OnlyStarts(s, t');
  }

  lemma {:induction false} TrimFaceFramesNext(faceFrames: map<int, PendingFaceFrame>, next: int, limit: int)
    requires limit >= 1
    ensures next >= 0 ==> TrimFaceFrames(faceFrames, next, limit).1 >= next
    decreases |faceFrames|
  {
    if |faceFrames| > limit {
      var k := Least(faceFrames.Keys);
      assert (faceFrames - {k}).Keys == faceFrames.Keys - {k};
      TrimFaceFramesNext(faceFrames - {k}, if next < 0 || k >= next then k + 1 else next, limit);
    }
  }

  lemma TrimSound(s: State, ops: seq<Op>)
    requires StagesSound(s, ops)
    ensures StagesSound(Trim(s), ops)
  {
    TrimFaceFramesNext(s.faceFrames, s.commit.next, s.cfg.limit);
    TrimSubmap(s.recognition.pending, s.cfg.limit);
    TrimSubmap(s.commit.pending, s.cfg.limit);
    var t := Trim(s);
    FewerSound(s.recognition, t.recognition, s.calls.identityTasks, ops, RecognitionStage);
    FewerSound(s.commit, t.commit, s.calls.committed, ops, CommitStage);
  }

  /** The log of a stage grows at its end, by results that are the latest pushed for their frames. */
  ghost predicate GrowsByLatest(before: seq<Item>, after: seq<Item>, ops: seq<Op>, kind: StageKind) {
    exists out :: AllLatest(out, ops, kind) && after == before + out
  }

  lemma DrainSound(s: State, ops: seq<Op>)
    requires StagesSound(s, ops)
    ensures StagesSound(Drain(s), ops)
    ensures GrowsByLatest(s.calls.identityTasks, Drain(s).calls.identityTasks, ops, RecognitionStage)
    ensures GrowsByLatest(s.calls.committed, Drain(s).calls.committed, ops, CommitStage)
  {
    var t := DrainFaces(DrainTracking(DrainProbes(s)));
    DrainStarts(s);
    FewerSound(s.commit, t.commit, s.calls.committed, ops, CommitStage);
    LateStagesSound(t, ops);
    TrimSound(DrainCommit(DrainRecognition(t)), ops);
  }

  lemma LateStagesSound(s: State, ops: seq<Op>)
    requires StagesSound(s, ops)
    ensures var t := DrainCommit(DrainRecognition(s));
            && StagesSound(t, ops)
            && GrowsByLatest(s.calls.identityTasks, t.calls.identityTasks, ops, RecognitionStage)
            && GrowsByLatest(s.calls.committed, t.calls.committed, ops, CommitStage)
  {
    DrainStageSound(s.recognition, s.calls.identityTasks, s.latestRecognition, s.cfg.window, ops, RecognitionStage);
    var t := DrainRecognition(s);
    DrainStageSound(t.commit, t.calls.committed, t.latestIdentity, t.cfg.window, ops, CommitStage);
  }

  // Whole runs

  lemma PushKeeps(s: State, op: Op)
    requires op != DrainReady
    ensures var t, r, i := Step(s, op), ResultOf(op, RecognitionStage), ResultOf(op, CommitStage);
            && t.calls == s.calls
            && t.recognition == (if r.Some? then PushStage(s.recognition, r.value) else s.recognition)
            && t.commit == (if i.Some? then PushStage(s.commit, i.value) else s.commit)
  {
  }

  lemma StepSound(s: State, ops: seq<Op>, op: Op)
    requires StagesSound(s, ops)
    ensures StagesSound(Step(s, op), ops + [op])
  {
    var t := if op == DrainReady then Drain(s) else s;
    if op == DrainReady {
      DrainSound(s, ops);
    } else {
      PushKeeps(s, op);
    }
    PushSound(t.recognition, t.calls.identityTasks, ops, RecognitionStage, op);
    PushSound(t.commit, t.calls.committed, ops, CommitStage, op);
  }

  lemma {:induction false} AnyRunSound(cfg: Config, ops: seq<Op>)
    ensures StagesSound(Run(cfg, ops), ops)
    decreases |ops|
  {
    if ops != [] {
      var before, op := ops[..|ops| - 1], ops[|ops| - 1];
      Sequences.SplitLast(ops);
      AnyRunSound(cfg, before);
      StepSound(Run(cfg, before), before, op);
    }
  }

  /**
   Frames are committed in strictly increasing id order, hence at most once, whatever the rest of the pipeline does; and
   so are identity tasks queued.
   */
  lemma CommitsIncrease(cfg: Config, ops: seq<Op>)
    ensures IncreasingItems(Run(cfg, ops).calls.committed) && IncreasingItems(Run(cfg, ops).calls.identityTasks)
    ensures forall k :: k in ItemIds(Run(cfg, ops).calls.committed) ==> 0 <= k < Run(cfg, ops).commit.next
    ensures forall k :: k in ItemIds(Run(cfg, ops).calls.identityTasks) ==> 0 <= k < Run(cfg, ops).recognition.next
  {
    AnyRunSound(cfg, ops);
  }

  /**
   A drain adds commits and identity tasks only at the end of their logs: each commit is the last identity result that was
   pushed for its frame, and each identity task the last recognition result.
   */
  lemma CommitsCarryLatest(cfg: Config, ops: seq<Op>)
    ensures var s, t := Run(cfg, ops), Run(cfg, ops + [DrainReady]);
            && GrowsByLatest(s.calls.committed, t.calls.committed, ops, CommitStage)
            && GrowsByLatest(s.calls.identityTasks, t.calls.identityTasks, ops, RecognitionStage)
  {
    AnyRunSound(cfg, ops);
    RunDrain(cfg, ops);
    DrainSound(Run(cfg, ops), ops);
  }

  /** Pushes call nobody: tracker updates, tasks and commits come from drains only. */
  lemma OnlyDrainsAct(cfg: Config, ops: seq<Op>, op: Op)
    requires op != DrainReady
    ensures Run(cfg, ops + [op]).calls == Run(cfg, ops).calls
  {
    RunStep(cfg, ops, op);
  }
}
