/**
 Reordering refines a sequential pipeline: when frames are pushed in increasing id order, the tracker sees them in that
 order, once each, with the detections that a simple scan of the call history gives them.
 */
module CoordinatorTracking {
  import opened Types
  import Sequences
  import opened OrderedKeys
  import opened CoordinatorSpec
  import opened CoordinatorInvariants
  import opened CoordinatorDrains
  import opened CoordinatorRuns

  // The sequential reference: a queue of frames, scanned at every drain

  /** The frames in the order in which they were pushed. */
  ghost function Pushed(ops: seq<Op>): seq<Frame> {
    if ops == [] then []
    else
      var before, last := Pushed(ops[..|ops| - 1]), ops[|ops| - 1];
      if last.FrameIn? then before + [last.frame] else before
  }

  /** The detections that were pushed last for a frame. */
  ghost function Detected(ops: seq<Op>, id: int): Option<seq<Box>> {
    if ops == [] then None
    else
      var last := ops[|ops| - 1];
      if last.Detection? && last.frameId == id then Some(last.boxes) else Detected(ops[..|ops| - 1], id)
  }

  ghost function SeenId(op: Op): int {
    match op
    case FrameIn(frame) => frame.id
    case Detection(id, _) => id
    case _ => -1
  }

  /** An id more than the window ahead of `id` has been seen. */
  ghost predicate SeenAhead(ops: seq<Op>, id: int, window: int) {
    exists i :: 0 <= i < |ops| && SeenId(ops[i]) > id + window
  }

  /** The frames at the front of the queue that are matched or overdue, each with its detections or with none. */
  ghost function Scan(queue: seq<Frame>, ops: seq<Op>, window: int): seq<TrackerUpdate>
    decreases |queue|
  {
    if queue == [] then []
    else
      var boxes := Detected(ops, queue[0].id);
      if boxes.Some? then [TrackerUpdate(queue[0], boxes.value)] + Scan(queue[1..], ops, window)
      else if SeenAhead(ops, queue[0].id, window) then [TrackerUpdate(queue[0], [])] + Scan(queue[1..], ops, window)
      else []
  }

  lemma {:induction false} ScanLength(queue: seq<Frame>, ops: seq<Op>, window: int)
    ensures |Scan(queue, ops, window)| <= |queue|
    ensures forall i :: 0 <= i < |Scan(queue, ops, window)| ==> Scan(queue, ops, window)[i].frame == queue[i]
    decreases |queue|
  {
    if queue != [] {
      ScanLength(queue[1..], ops, window);
    }
  }

  /** The tracker updates made so far, and the frames that are still queued. */
  datatype Pipeline = Pipeline(tracked: seq<TrackerUpdate>, waiting: seq<Frame>)

  /** One step of the reference: frames join the queue at its end, and a drain scans it. */
  ghost function Follow(p: Pipeline, ops: seq<Op>, op: Op, window: int): Pipeline {
    match op
    case FrameIn(f) => p.(waiting := p.waiting + [f])
    case DrainReady =>
      var updates := Scan(p.waiting, ops, window);
      ScanLength(p.waiting, ops, window);
      Pipeline(p.tracked + updates, p.waiting[|updates|..])
    case _ => p
  }

  ghost function Sequential(ops: seq<Op>, window: int): Pipeline {
    if ops == [] then Pipeline([], [])
    else
      var before := ops[..|ops| - 1];
      Follow(Sequential(before, window), before, ops[|ops| - 1], window)
  }

  lemma SequentialStep(ops: seq<Op>, op: Op, window: int)
    ensures Sequential(ops + [op], window) == Follow(Sequential(ops, window), ops, op, window)
  {
    assert (ops + [op])[..|ops|] == ops;
  }

  ghost function Frames(updates: seq<TrackerUpdate>): seq<Frame> {
    seq(|updates|, i requires 0 <= i < |updates| => updates[i].frame)
  }

  /** The reference tracks every frame once, in the order of the pushes. */
  lemma {:induction false} SequentialConserves(ops: seq<Op>, window: int)
    ensures Pushed(ops) == Frames(Sequential(ops, window).tracked) + Sequential(ops, window).waiting
    decreases |ops|
  {
    if ops != [] {
      var before, op := ops[..|ops| - 1], ops[|ops| - 1];
      var p := Sequential(before, window);
      SequentialConserves(before, window);
      if op.FrameIn? {
        assert Pushed(ops) == Frames(p.tracked) + (p.waiting + [op.frame]);
      } else if op == DrainReady {
        ScanConserves(p, before, window);
      }
    }
  }

  lemma ScanConserves(p: Pipeline, ops: seq<Op>, window: int)
    ensures var q := Follow(p, ops, DrainReady, window);
            Frames(q.tracked) + q.waiting == Frames(p.tracked) + p.waiting
  {
    var updates := Scan(p.waiting, ops, window);
    ScanLength(p.waiting, ops, window);
    assert Frames(p.tracked + updates) == Frames(p.tracked) + Frames(updates);
    assert Frames(updates) == p.waiting[..|updates|];
  }

  // Facts about histories

  lemma {:induction false} PushedElements(ops: seq<Op>, f: Frame)
    ensures f in Pushed(ops) <==> exists i :: 0 <= i < |ops| && ops[i] == FrameIn(f)
    decreases |ops|
  {
    if ops != [] {
      var before := ops[..|ops| - 1];
      PushedElements(before, f);
      forall i | 0 <= i < |before| ensures ops[i] == before[i] {
      }
      assert forall i :: 0 <= i < |ops| ==> i < |before| || ops[i] == ops[|ops| - 1];
    }
  }

  lemma {:induction false} DetectedElements(ops: seq<Op>, id: int)
    ensures Detected(ops, id).Some? <==> exists i :: 0 <= i < |ops| && ops[i].Detection? && ops[i].frameId == id
    decreases |ops|
  {
    if ops != [] {
      var before := ops[..|ops| - 1];
      DetectedElements(before, id);
      forall i | 0 <= i < |before| ensures ops[i] == before[i] {
      }
      assert forall i :: 0 <= i < |ops| ==> i < |before| || ops[i] == ops[|ops| - 1];
    }
  }

  // The queues of the coordinator hold the history that is not yet tracked

  ghost predicate IncreasingFrames(fs: seq<Frame>) {
    (forall i :: 0 <= i < |fs| ==> fs[i].id >= 0) && forall i, j :: 0 <= i < j < |fs| ==> fs[i].id < fs[j].id
  }

  ghost predicate Holds(frames: map<int, Frame>, fs: seq<Frame>) {
    && (forall i :: 0 <= i < |fs| ==> fs[i].id in frames && frames[fs[i].id] == fs[i])
    && (forall k :: k in frames ==> frames[k] in fs && frames[k].id == k)
  }

  ghost predicate Remembers(detections: map<int, seq<Box>>, next: int, ops: seq<Op>) {
    forall k :: k >= next ==>
      (k in detections <==> Detected(ops, k).Some?) && (k in detections ==> Detected(ops, k) == Some(detections[k]))
  }

  /** `fs` are the frames of the history from `next` on. */
  ghost predicate Rest(fs: seq<Frame>, next: int, ops: seq<Op>) {
    && IncreasingFrames(fs) && (forall i :: 0 <= i < |fs| ==> fs[i].id >= next)
    && (forall f :: f in fs ==> f in Pushed(ops))
    && (forall f :: f in Pushed(ops) && f.id >= next ==> f in fs)
  }

  ghost predicate QueueInv(q: Intake, fs: seq<Frame>, ops: seq<Op>) {
    Holds(q.frames, fs) && Remembers(q.detections, q.next, ops) && Rest(fs, q.next, ops)
  }

  /** The newest key decides whether any key is more than the window ahead. */
  lemma LatestSeenIsAny(q: Intake, window: int)
    requires window >= 0
    ensures LatestSeen(q) - q.next > window <==>
      (exists k :: k in q.frames && k - q.next > window) || (exists k :: k in q.detections && k - q.next > window)
  {
    if q.frames != map[] { assert Greatest(q.frames.Keys) in q.frames; }
    if q.detections != map[] { assert Greatest(q.detections.Keys) in q.detections; }
    forall k | k in q.frames ensures k <= LatestSeen(q) {
      assert k in q.frames.Keys;
    }
    forall k | k in q.detections ensures k <= LatestSeen(q) {
      assert k in q.detections.Keys;
    }
  }

  lemma KeySeen(q: Intake, fs: seq<Frame>, ops: seq<Op>, window: int, k: int)
    requires QueueInv(q, fs, ops) && k - q.next > window >= 0 && (k in q.frames || k in q.detections)
    ensures SeenAhead(ops, q.next, window)
  {
    if k in q.frames {
      PushedElements(ops, q.frames[k]);
      var i :| 0 <= i < |ops| && ops[i] == FrameIn(q.frames[k]);
      assert SeenId(ops[i]) > q.next + window;
    } else {
      DetectedElements(ops, k);
      var i :| 0 <= i < |ops| && ops[i].Detection? && ops[i].frameId == k;
      assert SeenId(ops[i]) > q.next + window;
    }
  }

  lemma SeenIsKey(q: Intake, fs: seq<Frame>, ops: seq<Op>, window: int, i: nat)
    requires QueueInv(q, fs, ops) && q.next >= 0 && window >= 0 && i < |ops| && SeenId(ops[i]) > q.next + window
    ensures SeenId(ops[i]) in q.frames || SeenId(ops[i]) in q.detections
  {
    if ops[i].FrameIn? {
      PushedElements(ops, ops[i].frame);
    } else {
      DetectedElements(ops, ops[i].frameId);
    }
  }

  /** The loop's test on the maps is the test on the history. */
  lemma SeenAheadIsLatestSeen(q: Intake, fs: seq<Frame>, ops: seq<Op>, window: int)
    requires QueueInv(q, fs, ops) && q.next >= 0 && window >= 0
    ensures LatestSeen(q) - q.next > window <==> SeenAhead(ops, q.next, window)
  {
    LatestSeenIsAny(q, window);
    if LatestSeen(q) - q.next > window {
      var k :| (k in q.frames || k in q.detections) && k - q.next > window;
      KeySeen(q, fs, ops, window, k);
    }
    if SeenAhead(ops, q.next, window) {
      var i: nat :| i < |ops| && SeenId(ops[i]) > q.next + window;
      SeenIsKey(q, fs, ops, window, i);
    }
  }

  lemma InTail(fs: seq<Frame>, f: Frame)
    requires f in fs && f != fs[0]
    ensures f in fs[1..]
  {
    var i :| 0 <= i < |fs| && fs[i] == f;
    assert fs[1..][i - 1] == f;
  }

  lemma QueueFront(q: Intake, fs: seq<Frame>, ops: seq<Op>)
    requires QueueInv(q, fs, ops) && q.next in q.frames
    ensures fs != [] && fs[0] == q.frames[q.next] && fs[0].id == q.next
  {
    assert q.frames[q.next] in fs;
    var i :| 0 <= i < |fs| && fs[i] == q.frames[q.next];
    assert fs[i].id == q.next && fs[0].id >= q.next;
    assert i == 0;
  }

  lemma AdvanceQueue(q: Intake, fs: seq<Frame>, ops: seq<Op>)
    requires QueueInv(q, fs, ops) && q.next in q.frames
    ensures fs != [] && fs[0] == q.frames[q.next] && QueueInv(Advance(q), fs[1..], ops)
  {
    QueueFront(q, fs, ops);
    AdvanceFrames(q, fs, ops);
    forall f | f in Pushed(ops) && f.id >= q.next + 1 ensures f in fs[1..] {
      InTail(fs, f);
    }
  }

  lemma AdvanceFrames(q: Intake, fs: seq<Frame>, ops: seq<Op>)
    requires fs != [] && Holds(q.frames, fs) && IncreasingFrames(fs) && fs[0].id == q.next
    ensures Holds(Advance(q).frames, fs[1..])
  {
    forall k | k in q.frames && k != q.next ensures q.frames[k] in fs[1..] {
      InTail(fs, q.frames[k]);
    }
  }

  lemma SkipQueue(q: Intake, fs: seq<Frame>, ops: seq<Op>)
    requires QueueInv(q, fs, ops) && q.frames != map[] && q.next < Least(q.frames.Keys)
    ensures QueueInv(q.(next := Least(q.frames.Keys)), fs, ops)
  {
  }

  lemma FrontOfQueue(q: Intake, fs: seq<Frame>, ops: seq<Op>)
    requires QueueInv(q, fs, ops) && q.next !in q.frames
    ensures fs == [] ==> q.frames == map[]
    ensures fs != [] ==> q.frames != map[] && Least(q.frames.Keys) > q.next
  {
    if q.frames != map[] {
      assert Least(q.frames.Keys) in q.frames;
      assert q.frames[Least(q.frames.Keys)] in fs;
    }
    if fs != [] {
      assert fs[0].id in q.frames.Keys;
    }
  }

  lemma {:induction false} ScanFront(q: Intake, fs: seq<Frame>, ops: seq<Op>, window: int)
    requires QueueInv(q, fs, ops) && q.next in q.frames && q.next >= 0 && window >= 0
    ensures fs != []
    ensures Scan(fs, ops, window)
         == if q.next in q.detections || LatestSeen(q) - q.next > window then
              [NextUpdate(q)] + Scan(fs[1..], ops, window)
            else []
  {
    AdvanceQueue(q, fs, ops);
    SeenAheadIsLatestSeen(q, fs, ops, window);
  }

  ghost predicate Scanned(r: (Intake, seq<TrackerUpdate>), fs: seq<Frame>, ops: seq<Op>, window: int) {
    r.1 == Scan(fs, ops, window) && |r.1| <= |fs| && QueueInv(r.0, fs[|r.1|..], ops)
  }

  lemma ScannedOne(r: (Intake, seq<TrackerUpdate>), u: TrackerUpdate, fs: seq<Frame>, ops: seq<Op>, window: int)
    requires fs != [] && Scanned(r, fs[1..], ops, window)
    requires Scan(fs, ops, window) == [u] + Scan(fs[1..], ops, window)
    ensures Scanned((r.0, [u] + r.1), fs, ops, window)
  {
    assert fs[1..][|r.1|..] == fs[|r.1| + 1..];
  }

  lemma ScannedNone(q: Intake, fs: seq<Frame>, ops: seq<Op>, window: int)
    requires QueueInv(q, fs, ops) && Scan(fs, ops, window) == []
    ensures Scanned((q, []), fs, ops, window)
  {
    assert fs[0..] == fs;
  }

  /** The tracking loop is the scan of the queue. */
  lemma {:induction false} LoopIsScan(q: Intake, fs: seq<Frame>, ops: seq<Op>, window: int)
    requires QueueInv(q, fs, ops) && q.next >= 0 && window >= 0
    ensures Scanned(IntakeLoop(q, window), fs, ops, window)
    decreases |q.frames|, if q.next in q.frames then 0 else 1
  {
    LoopUnrolls(q, window);
    if q.next in q.frames {
      AdvanceQueue(q, fs, ops);
      ScanFront(q, fs, ops, window);
      if q.next in q.detections || LatestSeen(q) - q.next > window {
        assert (q.frames - {q.next}).Keys == q.frames.Keys - {q.next};
        LoopIsScan(Advance(q), fs[1..], ops, window);
        ScannedOne(IntakeLoop(Advance(q), window), NextUpdate(q), fs, ops, window);
      } else {
        ScannedNone(q, fs, ops, window);
      }
    } else {
      FrontOfQueue(q, fs, ops);
      if q.frames != map[] {
        SkipQueue(q, fs, ops);
        LoopIsScan(q.(next := Least(q.frames.Keys)), fs, ops, window);
      } else {
        ScannedNone(q, fs, ops, window);
      }
    }
  }

  // Whole drains

  /** The frontier never runs ahead of the newest frame by more than one. */
  ghost predicate NotAhead(q: Intake, ops: seq<Op>) {
    q.next == -1 || (q.next >= 0 && exists f :: f in Pushed(ops) && f.id >= q.next - 1)
  }

  predicate Near(next: int, start: int, ids: set<int>) {
    next == start || next in ids || next - 1 in ids
  }

  lemma NextAdvances(q: Intake, start: int, ids: set<int>)
    requires q.frames.Keys <= ids && q.next in q.frames
    ensures |Advance(q).frames| < |q.frames|
    ensures Advance(q).frames.Keys <= ids && Near(Advance(q).next, start, ids)
  {
    assert (q.frames - {q.next}).Keys == q.frames.Keys - {q.next};
  }

  lemma {:induction false} LoopNext(q: Intake, window: int, start: int, ids: set<int>)
    requires q.frames.Keys <= ids && Near(q.next, start, ids)
    ensures Near(IntakeLoop(q, window).0.next, start, ids)
    decreases |q.frames|, if q.next in q.frames then 0 else 1
  {
    if q.next >= 0 {
      LoopUnrolls(q, window);
      if q.next in q.frames {
        NextAdvances(q, start, ids);
        if q.next in q.detections || LatestSeen(q) - q.next > window {
          LoopNext(Advance(q), window, start, ids);
        }
      } else if q.frames != map[] && Least(q.frames.Keys) > q.next {
        LoopNext(q.(next := Least(q.frames.Keys)), window, start, ids);
      }
    }
  }

  lemma StartQueue(q: Intake, fs: seq<Frame>, ops: seq<Op>)
    requires QueueInv(q, fs, ops) && NotAhead(q, ops)
    ensures QueueInv(StartIntake(q), fs, ops) && NotAhead(StartIntake(q), ops)
    ensures StartIntake(q).next < 0 ==> fs == [] && q.frames == map[]
  {
    if q.next < 0 && q.frames != map[] {
      var m := Least(q.frames.Keys);
      assert m in q.frames && q.frames[m] in Pushed(ops);
    } else if q.next < 0 {
      NoFrames(q, fs, ops);
    }
  }

  lemma NoFrames(q: Intake, fs: seq<Frame>, ops: seq<Op>)
    requires QueueInv(q, fs, ops) && q.frames == map[]
    ensures fs == []
  {
    forall f ensures f !in fs {
      assert f in fs ==> f.id in q.frames;
    }
    NonemptyList(fs);
  }

  lemma {:induction false} QueueFits(q: Intake, fs: seq<Frame>, ops: seq<Op>, window: int)
    requires QueueInv(q, fs, ops) && NotAhead(q, ops) && window >= 0
    requires Stuck(q, window) && (q.frames != map[] ==> q.next >= 0)
    ensures |q.frames| <= window + 1
  {
    forall k | k in q.frames ensures q.frames[k].id == k && k >= 0 && k >= q.next {
      assert q.frames[k] in fs;
    }
    StuckSettled(q, window);
    assert UpdateIds([]) == {};
    FramesFit(q, [], window);
  }

  lemma {:induction false} DrainIsScan(q: Intake, fs: seq<Frame>, ops: seq<Op>, window: int)
    requires QueueInv(q, fs, ops) && NotAhead(q, ops) && window >= 0
    ensures var r := DrainIntake(q, window);
            Scanned(r, fs, ops, window) && NotAhead(r.0, ops) && |r.0.frames| <= window + 1
  {
    var start := StartIntake(q);
    StartQueue(q, fs, ops);
    assert fs[0..] == fs;
    if start.next >= 0 {
      LoopIsScan(start, fs, ops, window);
      LoopNext(start, window, start.next, start.frames.Keys);
      IntakeLoopStops(start, window);
      var r := IntakeLoop(start, window);
      forall k | k in start.frames ensures start.frames[k] in Pushed(ops) && start.frames[k].id == k {
        assert start.frames[k] in fs;
      }
      QueueFits(r.0, fs[|r.1|..], ops, window);
    }
  }

  lemma {:induction false} ProbeFoldIntake(s: State, keys: seq<int>)
    requires forall k :: k in keys ==> k in s.intake.frames
    ensures SameIntake(s, ProbeFold(s, keys))
    decreases |keys|
  {
    if keys != [] {
      ProbeFoldIntake(ProbeStep(s, keys[0]), keys[1..]);
    }
  }

  /** A drain touches the intake and the tracker only through the tracking loop and the trim. */
  lemma DrainTracks(s: State)
    ensures var r := DrainIntake(s.intake, s.cfg.window);
            && Drain(s).calls.tracked == s.calls.tracked + r.1 && Drain(s).cfg == s.cfg
            && Drain(s).intake == Intake(r.0.next, TrimMap(r.0.frames, s.cfg.limit), TrimMap(r.0.detections, s.cfg.limit))
  {
    ProbeFoldIntake(s, SortedKeys(s.intake.frames.Keys));
    var t := DrainProbes(s);
    assert SameIntake(s, t);
    var r := DrainIntake(t.intake, t.cfg.window);
    ProcessAllFrame(t.(intake := r.0), r.1);
  }

  // Whole runs

  /** Frames arrive in strictly increasing id order. */
  ghost predicate Ordered(ops: seq<Op>) {
    IncreasingFrames(Pushed(ops))
  }

  /** No drain leaves more detections than the limit. */
  ghost predicate BacklogFits(cfg: Config, ops: seq<Op>) {
    forall i :: 0 <= i < |ops| && ops[i] == DrainReady ==>
      |DrainIntake(Run(cfg, ops[..i]).intake, cfg.window).0.detections| <= cfg.limit
  }

  ghost predicate Refines(q: Intake, tracked: seq<TrackerUpdate>, ops: seq<Op>, window: int) {
    && tracked == Sequential(ops, window).tracked
    && QueueInv(q, Sequential(ops, window).waiting, ops)
    && NotAhead(q, ops)
  }

  lemma {:induction false} PrefixAssumptions(cfg: Config, ops: seq<Op>)
    requires ops != [] && Ordered(ops) && BacklogFits(cfg, ops)
    ensures var before := ops[..|ops| - 1]; Ordered(before) && BacklogFits(cfg, before)
  {
    var before := ops[..|ops| - 1];
    forall i | 0 <= i < |before| && before[i] == DrainReady
      ensures |DrainIntake(Run(cfg, before[..i]).intake, cfg.window).0.detections| <= cfg.limit
    {
      assert before[..i] == ops[..i];
    }
    var all := Pushed(ops);
    forall i | 0 <= i < |Pushed(before)| ensures Pushed(before)[i] == all[i] {
    }
  }

  lemma FramePushed(q: Intake, fs: seq<Frame>, ops: seq<Op>, f: Frame)
    requires QueueInv(q, fs, ops) && NotAhead(q, ops) && IncreasingFrames(Pushed(ops) + [f])
    ensures q.next < 0 || f.id >= q.next
    ensures QueueInv(q.(frames := q.frames[f.id := f]), fs + [f], ops + [FrameIn(f)])
  {
    var all, ops' := Pushed(ops) + [f], ops + [FrameIn(f)];
    assert ops'[..|ops|] == ops;
    forall x | x in Pushed(ops) ensures x.id < f.id {
      var i :| 0 <= i < |Pushed(ops)| && Pushed(ops)[i] == x;
      assert all[i] == x && all[|Pushed(ops)|] == f;
    }
    assert f.id >= 0 by { assert all[|Pushed(ops)|] == f; }
    forall k ensures Detected(ops', k) == Detected(ops, k) {
    }
    FrameHeld(q.frames, fs, f);
  }

  lemma FrameHeld(frames: map<int, Frame>, fs: seq<Frame>, f: Frame)
    requires Holds(frames, fs) && forall x :: x in fs ==> x.id < f.id
    ensures Holds(frames[f.id := f], fs + [f])
  {
    var longer := fs + [f];
    assert longer[|fs|] == f;
    forall i | 0 <= i < |longer|
      ensures longer[i].id in frames[f.id := f] && frames[f.id := f][longer[i].id] == longer[i]
    {
      if i < |fs| { assert fs[i] in fs; }
    }
    forall k | k in frames ensures k != f.id && frames[k] in longer {
      assert frames[k] in fs;
    }
  }

  lemma DetectionPushed(q: Intake, fs: seq<Frame>, ops: seq<Op>, id: int, boxes: seq<Box>)
    requires QueueInv(q, fs, ops)
    ensures var q' := if q.next >= 0 && id < q.next then q else q.(detections := q.detections[id := boxes]);
            QueueInv(q', fs, ops + [Detection(id, boxes)])
  {
    var ops' := ops + [Detection(id, boxes)];
    assert ops'[..|ops|] == ops;
    forall k ensures Detected(ops', k) == if k == id then Some(boxes) else Detected(ops, k) {
    }
  }

  lemma OtherPushed(q: Intake, fs: seq<Frame>, ops: seq<Op>, op: Op)
    requires QueueInv(q, fs, ops) && !op.FrameIn? && !op.Detection?
    ensures QueueInv(q, fs, ops + [op])
  {
    assert (ops + [op])[..|ops|] == ops;
    forall k ensures Detected(ops + [op], k) == Detected(ops, k) {
    }
  }

  lemma NotAheadGrows(q: Intake, ops: seq<Op>, op: Op)
    requires NotAhead(q, ops)
    ensures NotAhead(q, ops + [op])
  {
    assert (ops + [op])[..|ops|] == ops;
    if q.next >= 0 {
      var f :| f in Pushed(ops) && f.id >= q.next - 1;
      assert f in Pushed(ops + [op]);
    }
  }

  lemma {:induction false} DrainQueue(q: Intake, fs: seq<Frame>, ops: seq<Op>, window: int)
    requires QueueInv(q, fs, ops) && NotAhead(q, ops) && window >= 0
    ensures var r := DrainIntake(q, window);
            && |r.0.frames| <= window + 1 && r.1 == Scan(fs, ops, window) && |r.1| <= |fs|
            && QueueInv(r.0, fs[|r.1|..], ops + [DrainReady]) && NotAhead(r.0, ops + [DrainReady])
  {
    var r := DrainIntake(q, window);
    DrainIsScan(q, fs, ops, window);
    OtherPushed(r.0, fs[|r.1|..], ops, DrainReady);
    NotAheadGrows(r.0, ops, DrainReady);
  }

  lemma {:induction false} DrainRefines(q: Intake, tracked: seq<TrackerUpdate>, ops: seq<Op>, window: int)
    requires Refines(q, tracked, ops, window) && window >= 0
    ensures var r := DrainIntake(q, window);
            |r.0.frames| <= window + 1 && Refines(r.0, tracked + r.1, ops + [DrainReady], window)
  {
    var p := Sequential(ops, window);
    DrainQueue(q, p.waiting, ops, window);
    SequentialStep(ops, DrainReady, window);
    var updates := DrainIntake(q, window).1;
    assert Follow(p, ops, DrainReady, window) == Pipeline(tracked + updates, p.waiting[|updates|..]);
  }

  lemma FrameInRefines(q: Intake, tracked: seq<TrackerUpdate>, ops: seq<Op>, window: int, f: Frame)
    requires Refines(q, tracked, ops, window) && Ordered(ops + [FrameIn(f)])
    ensures q.next < 0 || f.id >= q.next
    ensures Refines(q.(frames := q.frames[f.id := f]), tracked, ops + [FrameIn(f)], window)
  {
    assert (ops + [FrameIn(f)])[..|ops|] == ops;
    SequentialStep(ops, FrameIn(f), window);
    FramePushed(q, Sequential(ops, window).waiting, ops, f);
    NotAheadGrows(q, ops, FrameIn(f));
  }

  lemma DetectionRefines(q: Intake, tracked: seq<TrackerUpdate>, ops: seq<Op>, window: int, id: int, boxes: seq<Box>)
    requires Refines(q, tracked, ops, window)
    ensures var q' := if q.next >= 0 && id < q.next then q else q.(detections := q.detections[id := boxes]);
            Refines(q', tracked, ops + [Detection(id, boxes)], window)
  {
    SequentialStep(ops, Detection(id, boxes), window);
    DetectionPushed(q, Sequential(ops, window).waiting, ops, id, boxes);
    NotAheadGrows(q, ops, Detection(id, boxes));
  }

  lemma OtherRefines(q: Intake, tracked: seq<TrackerUpdate>, ops: seq<Op>, window: int, op: Op)
    requires Refines(q, tracked, ops, window) && !op.FrameIn? && !op.Detection? && op != DrainReady
    ensures Refines(q, tracked, ops + [op], window)
  {
    SequentialStep(ops, op, window);
    OtherPushed(q, Sequential(ops, window).waiting, ops, op);
    NotAheadGrows(q, ops, op);
  }

  lemma OtherIntake(s: State, op: Op)
    requires !op.FrameIn? && !op.Detection? && op != DrainReady
    ensures var t := Step(s, op); t.cfg == s.cfg && t.intake == s.intake && t.calls == s.calls
  {
  }

  lemma StepRefines(s: State, ops: seq<Op>, op: Op)
    requires Refines(s.intake, s.calls.tracked, ops, s.cfg.window) && s.cfg.limit > s.cfg.window
    requires Ordered(ops + [op])
    requires op == DrainReady ==> |DrainIntake(s.intake, s.cfg.window).0.detections| <= s.cfg.limit
    ensures Refines(Step(s, op).intake, Step(s, op).calls.tracked, ops + [op], s.cfg.window) && Step(s, op).cfg == s.cfg
  {
    match op
    case FrameIn(f) => FrameInRefines(s.intake, s.calls.tracked, ops, s.cfg.window, f);
    case Detection(id, boxes) => DetectionRefines(s.intake, s.calls.tracked, ops, s.cfg.window, id, boxes);
    case DrainReady =>
      DrainTracks(s);
      DrainRefines(s.intake, s.calls.tracked, ops, s.cfg.window);
    case _ =>
      OtherIntake(s, op);
      OtherRefines(s.intake, s.calls.tracked, ops, s.cfg.window, op);
  }

  lemma {:induction false} RunRefines(cfg: Config, ops: seq<Op>)
    requires cfg.limit > cfg.window && Ordered(ops) && BacklogFits(cfg, ops)
    ensures Refines(Run(cfg, ops).intake, Run(cfg, ops).calls.tracked, ops, cfg.window) && Run(cfg, ops).cfg == cfg
    decreases |ops|
  {
    if ops != [] {
      var before, op := ops[..|ops| - 1], ops[|ops| - 1];
      Sequences.SplitLast(ops);
      PrefixAssumptions(cfg, ops);
      RunRefines(cfg, before);
      StepRefines(Run(cfg, before), before, op);
    }
  }

  /**
   Whatever the interleaving of pushes and drains, the tracker is updated as by the sequential scan: once for every
   frame taken off the front of the queue, in id order; and the frames still pending are exactly the rest of the queue.
   */
  lemma {:induction false} TrackingIsSequential(cfg: Config, ops: seq<Op>)
    requires cfg.limit > cfg.window && Ordered(ops) && BacklogFits(cfg, ops)
    ensures Run(cfg, ops).calls.tracked == Sequential(ops, cfg.window).tracked
    ensures Holds(Run(cfg, ops).intake.frames, Sequential(ops, cfg.window).waiting)
    ensures Pushed(ops) == Frames(Run(cfg, ops).calls.tracked) + Sequential(ops, cfg.window).waiting
  {
    RunRefines(cfg, ops);
    SequentialConserves(ops, cfg.window);
  }

  // Timely detections

  /** Before every drain that has seen an id more than the window ahead of a pending frame, its detections arrived. */
  ghost predicate Timely(ops: seq<Op>, window: int) {
    forall n, f :: 0 <= n < |ops| && ops[n] == DrainReady && f in Pushed(ops[..n]) && SeenAhead(ops[..n], f.id, window) ==>
      Detected(ops[..n], f.id).Some?
  }

  ghost predicate DetectorAnswers(ops: seq<Op>, detect: int -> seq<Box>) {
    forall i :: 0 <= i < |ops| && ops[i].Detection? ==> ops[i].boxes == detect(ops[i].frameId)
  }

  /** The in-order pipeline without queues: every frame with its own detections. */
  ghost function InOrder(frames: seq<Frame>, detect: int -> seq<Box>): seq<TrackerUpdate> {
    seq(|frames|, i requires 0 <= i < |frames| => TrackerUpdate(frames[i], detect(frames[i].id)))
  }

  lemma {:induction false} DetectedAnswer(ops: seq<Op>, detect: int -> seq<Box>, id: int)
    requires DetectorAnswers(ops, detect)
    ensures Detected(ops, id).Some? ==> Detected(ops, id).value == detect(id)
    decreases |ops|
  {
    if ops != [] {
      var before := ops[..|ops| - 1];
      forall i | 0 <= i < |before| && before[i].Detection? ensures before[i].boxes == detect(before[i].frameId) {
        assert before[i] == ops[i];
      }
      DetectedAnswer(before, detect, id);
    }
  }

  lemma {:induction false} ScanInOrder(queue: seq<Frame>, ops: seq<Op>, window: int, detect: int -> seq<Box>)
    requires DetectorAnswers(ops, detect)
    requires forall f :: f in queue && SeenAhead(ops, f.id, window) ==> Detected(ops, f.id).Some?
    ensures forall i :: 0 <= i < |Scan(queue, ops, window)| ==>
              Scan(queue, ops, window)[i].detections == detect(Scan(queue, ops, window)[i].frame.id)
    decreases |queue|
  {
    if queue != [] {
      DetectedAnswer(ops, detect, queue[0].id);
      assert queue[0] in queue;
      ScanInOrder(queue[1..], ops, window, detect);
    }
  }

  ghost predicate WithOwnDetections(tracked: seq<TrackerUpdate>, detect: int -> seq<Box>) {
    forall i :: 0 <= i < |tracked| ==> tracked[i].detections == detect(tracked[i].frame.id)
  }

  lemma {:induction false} SequentialInOrder(ops: seq<Op>, window: int, detect: int -> seq<Box>)
    requires DetectorAnswers(ops, detect) && Timely(ops, window)
    ensures WithOwnDetections(Sequential(ops, window).tracked, detect)
    decreases |ops|
  {
    if ops != [] {
      var before := ops[..|ops| - 1];
      forall i | 0 <= i < |before| && before[i].Detection? ensures before[i].boxes == detect(before[i].frameId) {
        assert before[i] == ops[i];
      }
      assert Timely(before, window) by {
        forall n, f | 0 <= n < |before| && before[n] == DrainReady && f in Pushed(before[..n])
                      && SeenAhead(before[..n], f.id, window)
          ensures Detected(before[..n], f.id).Some?
        {
          assert before[n] == ops[n] && before[..n] == ops[..n];
        }
      }
      SequentialInOrder(before, window, detect);
      if ops[|ops| - 1] == DrainReady {
        var p := Sequential(before, window);
        SequentialConserves(before, window);
        forall f | f in p.waiting && SeenAhead(before, f.id, window) ensures Detected(before, f.id).Some? {
          assert f in Pushed(before);
          assert ops[..|before|] == before;
        }
        ScanInOrder(p.waiting, before, window, detect);
      }
    }
  }

  /**
   With timely detections the update sequence is that of the in-order pipeline, cut off at the frames still pending, so
   the boxes returned by the tracker are those of the in-order pipeline as well.
   */
  lemma ReorderingIsInvisible(cfg: Config, ops: seq<Op>, detect: int -> seq<Box>)
    requires cfg.limit > cfg.window && Ordered(ops) && BacklogFits(cfg, ops)
    requires DetectorAnswers(ops, detect) && Timely(ops, cfg.window)
    ensures Run(cfg, ops).calls.tracked <= InOrder(Pushed(ops), detect)
  {
    TrackingIsSequential(cfg, ops);
    SequentialInOrder(ops, cfg.window, detect);
    var tracked := Run(cfg, ops).calls.tracked;
    forall i | 0 <= i < |tracked| ensures tracked[i] == InOrder(Pushed(ops), detect)[i] {
      assert Frames(tracked)[i] == Pushed(ops)[i];
    }
  }

  lemma {:induction false} ScanAll(queue: seq<Frame>, ops: seq<Op>, window: int)
    requires forall f :: f in queue ==> Detected(ops, f.id).Some?
    ensures |Scan(queue, ops, window)| == |queue|
    decreases |queue|
  {
    if queue != [] {
      assert queue[0] in queue;
      ScanAll(queue[1..], ops, window);
    }
  }

  /** And once the detections of all frames have arrived, the next drain completes the in-order pipeline. */
  lemma ReorderingCompletes(cfg: Config, ops: seq<Op>, detect: int -> seq<Box>)
    requires cfg.limit > cfg.window && Ordered(ops + [DrainReady]) && BacklogFits(cfg, ops + [DrainReady])
    requires DetectorAnswers(ops + [DrainReady], detect) && Timely(ops + [DrainReady], cfg.window)
    requires forall f :: f in Pushed(ops) ==> Detected(ops, f.id).Some?
    ensures Run(cfg, ops + [DrainReady]).calls.tracked == InOrder(Pushed(ops), detect)
  {
    var ops' := ops + [DrainReady];
    assert ops'[..|ops|] == ops;
    ReorderingIsInvisible(cfg, ops', detect);
    TrackingIsSequential(cfg, ops');
    SequentialStep(ops, DrainReady, cfg.window);
    SequentialConserves(ops, cfg.window);
    var waiting := Sequential(ops, cfg.window).waiting;
    forall f | f in waiting ensures f in Pushed(ops) {
      assert Pushed(ops) == Frames(Sequential(ops, cfg.window).tracked) + waiting;
    }
    ScanAll(waiting, ops, cfg.window);
    assert Sequential(ops', cfg.window).waiting == [];
  }

  // Missed deadlines

  /** The drain at `n` tracks the frame: with its detections, or overdue and with none. */
  ghost predicate TrackedAt(u: TrackerUpdate, ops: seq<Op>, n: nat, window: int) {
    && n < |ops| && ops[n] == DrainReady && u.frame in Pushed(ops[..n])
    && (|| Detected(ops[..n], u.frame.id) == Some(u.detections)
        || (Detected(ops[..n], u.frame.id) == None && u.detections == [] && SeenAhead(ops[..n], u.frame.id, window)))
  }

  lemma {:induction false} ScanTracked(queue: seq<Frame>, ops: seq<Op>, window: int, u: TrackerUpdate)
    requires u in Scan(queue, ops, window)
    ensures u.frame in queue
    ensures || Detected(ops, u.frame.id) == Some(u.detections)
            || (Detected(ops, u.frame.id) == None && u.detections == [] && SeenAhead(ops, u.frame.id, window))
    decreases |queue|
  {
    if u in Scan(queue[1..], ops, window) {
      ScanTracked(queue[1..], ops, window, u);
    }
  }

  lemma {:induction false} SequentialTracked(ops: seq<Op>, window: int, u: TrackerUpdate)
    requires u in Sequential(ops, window).tracked
    ensures exists n: nat :: TrackedAt(u, ops, n, window)
    decreases |ops|
  {
    var before := ops[..|ops| - 1];
    var p := Sequential(before, window);
    if u in p.tracked {
      SequentialTracked(before, window, u);
      var n: nat :| TrackedAt(u, before, n, window);
      assert before[..n] == ops[..n];
      assert TrackedAt(u, ops, n, window);
    } else {
      ScanTracked(p.waiting, before, window, u);
      SequentialConserves(before, window);
      assert TrackedAt(u, ops, |before|, window);
    }
  }

  /**
   Every frame is tracked by a drain that knows its detections, or by one that comes too late for them: then it is tracked
   with the empty list, none have arrived, and an id more than the window ahead has been seen.
   */
  lemma MissedDeadline(cfg: Config, ops: seq<Op>, u: TrackerUpdate)
    requires cfg.limit > cfg.window && Ordered(ops) && BacklogFits(cfg, ops)
    requires u in Run(cfg, ops).calls.tracked
    ensures exists n: nat :: TrackedAt(u, ops, n, cfg.window)
  {
    TrackingIsSequential(cfg, ops);
    SequentialTracked(ops, cfg.window, u);
  }

  /** The scan reaches every frame that is overdue: the older ones are overdue as well. */
  lemma {:induction false} ScanReaches(queue: seq<Frame>, ops: seq<Op>, window: int, f: Frame)
    requires IncreasingFrames(queue) && f in queue && SeenAhead(ops, f.id, window)
    ensures f in Frames(Scan(queue, ops, window))
    decreases |queue|
  {
    var k :| 0 <= k < |queue| && queue[k] == f;
    assert queue[0].id <= f.id;
    assert SeenAhead(ops, queue[0].id, window) by {
      var i :| 0 <= i < |ops| && SeenId(ops[i]) > f.id + window;
      assert SeenId(ops[i]) > queue[0].id + window;
    }
    var updates := Scan(queue, ops, window);
    if k == 0 {
      assert Frames(updates)[0] == f;
    } else {
      assert queue[1..][k - 1] == f;
      ScanReaches(queue[1..], ops, window, f);
      var j :| 0 <= j < |Frames(updates[1..])| && Frames(updates[1..])[j] == f;
      assert Frames(updates)[j + 1] == f;
    }
  }

  lemma WaitingIncreases(ops: seq<Op>, window: int)
    requires Ordered(ops)
    ensures IncreasingFrames(Sequential(ops, window).waiting)
  {
    SequentialConserves(ops, window);
    var all, p := Pushed(ops), Sequential(ops, window);
    var n := |Frames(p.tracked)|;
    forall i | 0 <= i < |p.waiting| ensures p.waiting[i] == all[n + i] {
    }
  }

  lemma SequentialReaches(ops: seq<Op>, window: int, f: Frame)
    requires Ordered(ops) && f in Pushed(ops) && SeenAhead(ops, f.id, window)
    ensures f in Frames(Sequential(ops + [DrainReady], window).tracked)
  {
    var p := Sequential(ops, window);
    SequentialStep(ops, DrainReady, window);
    SequentialConserves(ops, window);
    assert f in Frames(p.tracked) || f in p.waiting;
    var updates := Scan(p.waiting, ops, window);
    assert Frames(p.tracked + updates) == Frames(p.tracked) + Frames(updates);
    if f in p.waiting {
      WaitingIncreases(ops, window);
      ScanReaches(p.waiting, ops, window, f);
    }
  }

  /** The deadline is kept: a drain that sees a frame overdue has tracked it, with or without its detections. */
  lemma {:induction false} OverdueIsTracked(cfg: Config, ops: seq<Op>, f: Frame)
    requires cfg.limit > cfg.window && Ordered(ops + [DrainReady]) && BacklogFits(cfg, ops + [DrainReady])
    requires f in Pushed(ops) && SeenAhead(ops, f.id, cfg.window)
    ensures f in Frames(Run(cfg, ops + [DrainReady]).calls.tracked)
  {
    assert (ops + [DrainReady])[..|ops|] == ops;
    TrackingIsSequential(cfg, ops + [DrainReady]);
    SequentialReaches(ops, cfg.window, f);
  }
}
