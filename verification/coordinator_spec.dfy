/**
 Specification of `StreamCoordinator` (core/src/pipeline/stream_coordinator.cpp): every call is a function from the
 state before to the state after. Callback invocations are recorded in logs. The class in coordinator.dfy is proved
 to compute these functions, and the theorems about runs are proved about them.
 */
module CoordinatorSpec {
  import opened Types
  import opened OrderedKeys

  datatype TrackerUpdate = TrackerUpdate(frame: Frame, detections: seq<Box>)

  datatype FaceResult = FaceResult(frameId: int, probeId: string, faces: seq<Face>)

  /** The common shape of recognition and identity tasks and results. */
  datatype Item = Item(frameId: int, frame: Frame, tracks: seq<Box>)

  datatype PendingFaceFrame = PendingFaceFrame(
    frame: Frame,
    tracks: seq<Box>,
    probes: set<string>,
    results: seq<FaceResult>,
    queued: bool)

  /** A recognition task together with the face results that were applied to its tracks. */
  datatype Handover = Handover(task: Item, tracked: seq<Box>, results: seq<FaceResult>)

  /**
   `tracker` maps the history of updates to the boxes returned by the last one, so it stands for any deterministic
   tracker with internal state. `apply` is the face result applier: frame id, tracks and face lists to new tracks.
   */
  datatype ConfigData = ConfigData(
    window: int,
    limit: int,
    faceDetection: bool,
    independent: bool,
    apply: (int, seq<Box>, seq<seq<Face>>) -> seq<Box>,
    tracker: seq<TrackerUpdate> -> seq<Box>)

  /** The constructor raises the window to at least 0 and the limit to at least 1. */
  type Config = c: ConfigData | c.window >= 0 && c.limit >= 1
    witness ConfigData(0, 1, false, false, (id: int, tracks: seq<Box>, faces: seq<seq<Face>>) => tracks,
                       (updates: seq<TrackerUpdate>) => [])

  /** What the coordinator has asked of the tracker and of its callbacks so far. */
  datatype Calls = Calls(
    tracked: seq<TrackerUpdate>,
    probed: seq<int>,
    handedOver: seq<Handover>,
    identityTasks: seq<Item>,
    committed: seq<Item>)

  /** next_tracker_frame_id_, pending_frames_ and pending_person_detections_. */
  datatype Intake = Intake(next: int, frames: map<int, Frame>, detections: map<int, seq<Box>>)

  /** A frontier with the results waiting behind it: the recognition stage and the commit stage have one each. */
  datatype Stage = Stage(next: int, pending: map<int, Item>)

  datatype State = State(
    cfg: Config,
    intake: Intake,
    recognition: Stage,
    commit: Stage,
    latestFace: int,
    latestRecognition: int,
    latestIdentity: int,
    queuedProbes: map<int, set<string>>,
    early: map<int, seq<FaceResult>>,
    faceFrames: map<int, PendingFaceFrame>,
    calls: Calls)

  ghost function Initial(cfg: Config): State {
    State(cfg, Intake(-1, map[], map[]), Stage(-1, map[]), Stage(-1, map[]), -1, -1, -1, map[], map[], map[],
          Calls([], [], [], [], []))
  }

  // Face probes (FaceProbePlanner::plan)

  function Digits(n: nat): string {
    if n < 10 then [('0' as int + n) as char] else Digits(n / 10) + [('0' as int + n % 10) as char]
  }

  function ProbeId(frameId: int): string {
    (if frameId < 0 then "-" + Digits(-frameId) else Digits(frameId)) + ":full"
  }

  function PlannedProbes(frame: Frame): set<string> {
    if frame.hasImage then {ProbeId(frame.id)} else {}
  }

  function ResetTracks(tracks: seq<Box>): seq<Box> {
    seq(|tracks|, i requires 0 <= i < |tracks| => tracks[i].(action := Anonymize, face := None))
  }

  // Pushes

  ghost function PushFrame(s: State, frame: Frame): State {
    var q := s.intake;
    if q.next >= 0 && frame.id < q.next then s
    else s.(intake := q.(frames := q.frames[frame.id := frame]))
  }

  ghost function PushDetection(s: State, frameId: int, boxes: seq<Box>): State {
    var q := s.intake;
    if q.next >= 0 && frameId < q.next then s
    else s.(intake := q.(detections := q.detections[frameId := boxes]))
  }

  function EarlyAt(early: map<int, seq<FaceResult>>, frameId: int): seq<FaceResult> {
    if frameId in early then early[frameId] else []
  }

  ghost function PushFace(s: State, r: FaceResult): State {
    if r.frameId !in s.faceFrames then
      if s.cfg.independent && (s.commit.next < 0 || r.frameId >= s.commit.next) then
        s.(early := s.early[r.frameId := EarlyAt(s.early, r.frameId) + [r]])
      else s
    else
      var p := s.faceFrames[r.frameId];
      if r.probeId !in p.probes then s
      else s.(faceFrames := s.faceFrames[r.frameId := p.(probes := p.probes - {r.probeId}, results := p.results + [r])])
  }

  function PushStage(stage: Stage, r: Item): Stage {
    if stage.next >= 0 && r.frameId < stage.next then stage
    else stage.(pending := stage.pending[r.frameId := r])
  }

  ghost function PushRecognition(s: State, r: Item): State {
    s.(recognition := PushStage(s.recognition, r))
  }

  ghost function PushIdentity(s: State, r: Item): State {
    s.(commit := PushStage(s.commit, r))
  }

  // drain_independent_face_probes_

  ghost function ProbeStep(s: State, k: int): (t: State)
    requires k in s.intake.frames
    ensures t.cfg == s.cfg
  {
    if (s.intake.next >= 0 && k < s.intake.next) || k in s.queuedProbes || k in s.faceFrames then s
    else
      var probes := PlannedProbes(s.intake.frames[k]);
      if probes == {} then s
      else s.(queuedProbes := s.queuedProbes[k := probes], latestFace := Max(s.latestFace, k),
              calls := s.calls.(probed := s.calls.probed + [k]))
  }

  ghost function ProbeFold(s: State, keys: seq<int>): (t: State)
    requires forall k :: k in keys ==> k in s.intake.frames
    ensures t.cfg == s.cfg
    decreases |keys|
  {
    if keys == [] then s else ProbeFold(ProbeStep(s, keys[0]), keys[1..])
  }

  ghost function DrainProbes(s: State): (t: State)
    ensures t.cfg == s.cfg
  {
    if !s.cfg.faceDetection || !s.cfg.independent then s
    else ProbeFold(s, SortedKeys(s.intake.frames.Keys))
  }

  // drain_tracking_: which frames are tracked, and with what

  function DropBelow<T>(m: map<int, T>, bound: int): map<int, T> {
    map k | k in m && k >= bound :: m[k]
  }

  /** `latest_seen`. */
  ghost function LatestSeen(q: Intake): int {
    Max(if q.frames == map[] then q.next else Greatest(q.frames.Keys),
        if q.detections == map[] then q.next else Greatest(q.detections.Keys))
  }

  /** The frame at the frontier with its detections, or with none if they have not arrived. */
  ghost function NextUpdate(q: Intake): TrackerUpdate
    requires q.next in q.frames
  {
    TrackerUpdate(q.frames[q.next], if q.next in q.detections then q.detections[q.next] else [])
  }

  ghost function Advance(q: Intake): Intake {
    Intake(q.next + 1, q.frames - {q.next}, q.detections - {q.next})
  }

  /** The tracking loop: the queues it leaves and the tracker updates it makes, in order. */
  ghost function IntakeLoop(q: Intake, window: int): (Intake, seq<TrackerUpdate>)
    decreases |q.frames|, if q.next in q.frames then 0 else 1
  {
    if q.next < 0 then (q, [])
    else if q.next in q.frames then
      if q.next in q.detections || LatestSeen(q) - q.next > window then
        assert |q.frames - {q.next}| < |q.frames| by { assert (q.frames - {q.next}).Keys == q.frames.Keys - {q.next}; }
        var rest := IntakeLoop(Advance(q), window);
        (rest.0, [NextUpdate(q)] + rest.1)
      else (q, [])
    else if q.frames != map[] && Least(q.frames.Keys) > q.next then
      IntakeLoop(q.(next := Least(q.frames.Keys)), window)
    else (q, [])
  }

  ghost function StartIntake(q: Intake): Intake {
    if q.next < 0 && q.frames != map[] then q.(next := Least(q.frames.Keys)) else q
  }

  ghost function DropStaleDetections(q: Intake): Intake {
    if q.next >= 0 then q.(detections := DropBelow(q.detections, q.next)) else q
  }

  ghost function DrainIntake(q: Intake, window: int): (Intake, seq<TrackerUpdate>) {
    var r := IntakeLoop(StartIntake(q), window);
    (DropStaleDetections(r.0), r.1)
  }

  // process_tracked_frame_

  /** Matches early face results against the probes that were queued for the frame. */
  function Absorb(probes: set<string>, results: seq<FaceResult>, arrived: seq<FaceResult>): (set<string>, seq<FaceResult>)
    decreases |arrived|
  {
    if arrived == [] then (probes, results)
    else if arrived[0].probeId in probes then
      Absorb(probes - {arrived[0].probeId}, results + [arrived[0]], arrived[1..])
    else Absorb(probes, results, arrived[1..])
  }

  function FaceLists(results: seq<FaceResult>): seq<seq<Face>> {
    seq(|results|, i requires 0 <= i < |results| => results[i].faces)
  }

  /** The recognition task for a pending frame, with the face results applied to its tracks. */
  function MakeHandover(cfg: Config, p: PendingFaceFrame): Handover {
    var tracks := cfg.apply(p.frame.id, p.tracks, FaceLists(p.results));
    Handover(Item(p.frame.id, p.frame, tracks), p.tracks, p.results)
  }

  /** queue_recognition_ for the pending frame `k`. */
  ghost function QueueRecognition(s: State, k: int): State
    requires k in s.faceFrames
  {
    var p := s.faceFrames[k];
    if p.queued then s
    else
      var h := MakeHandover(s.cfg, p);
      s.(faceFrames := s.faceFrames[k := p.(tracks := h.task.tracks, queued := true)],
         latestRecognition := Max(s.latestRecognition, p.frame.id),
         calls := s.calls.(handedOver := s.calls.handedOver + [h]))
  }

  /** Probes were queued for this frame before it was tracked. */
  predicate ProbedAhead(s: State, id: int) {
    s.cfg.faceDetection && s.cfg.independent && id in s.queuedProbes
  }

  /** The probes that process_tracked_frame_ plans itself. */
  function FreshProbes(s: State, frame: Frame): set<string> {
    if !s.cfg.faceDetection || ProbedAhead(s, frame.id) then {} else PlannedProbes(frame)
  }

  /** The entry that process_tracked_frame_ stores, before any hand-over. */
  ghost function NewFaceFrame(s: State, frame: Frame, boxes: seq<Box>): PendingFaceFrame {
    var ahead := ProbedAhead(s, frame.id);
    var tracks := if ahead then boxes else ResetTracks(boxes);
    var probes := if ahead then s.queuedProbes[frame.id] else {};
    var absorbed := Absorb(probes, [], EarlyAt(s.early, frame.id));
    PendingFaceFrame(frame, tracks, absorbed.0 + FreshProbes(s, frame), absorbed.1, false)
  }

  ghost function StoreEntry(s: State, frame: Frame, tracked: seq<TrackerUpdate>, planned: bool, entry: PendingFaceFrame)
    : State
  {
    s.(calls := s.calls.(tracked := tracked, probed := if planned then s.calls.probed + [frame.id] else s.calls.probed),
       commit := if s.commit.next < 0 then s.commit.(next := frame.id) else s.commit,
       queuedProbes := if ProbedAhead(s, frame.id) then s.queuedProbes - {frame.id} else s.queuedProbes,
       early := s.early - {frame.id},
       latestFace := if planned then Max(s.latestFace, frame.id) else s.latestFace,
       faceFrames := s.faceFrames[frame.id := entry])
  }

  /** process_tracked_frame_ up to the hand-over. */
  ghost function TrackFrame(s: State, u: TrackerUpdate): State {
    var tracked := s.calls.tracked + [u];
    StoreEntry(s, u.frame, tracked, FreshProbes(s, u.frame) != {}, NewFaceFrame(s, u.frame, s.cfg.tracker(tracked)))
  }

  ghost function ProcessTracked(s: State, u: TrackerUpdate): (t: State)
    ensures t.cfg == s.cfg
  {
    var t := TrackFrame(s, u);
    if t.faceFrames[u.frame.id].probes == {} then QueueRecognition(t, u.frame.id) else t
  }

  ghost function ProcessAll(s: State, updates: seq<TrackerUpdate>): (t: State)
    ensures t.cfg == s.cfg
    decreases |updates|
  {
    if updates == [] then s else ProcessAll(ProcessTracked(s, updates[0]), updates[1..])
  }

  ghost function DrainTracking(s: State): (t: State)
    ensures t.cfg == s.cfg
  {
    var r := DrainIntake(s.intake, s.cfg.window);
    ProcessAll(s.(intake := r.0), r.1)
  }

  // drain_face_ready_

  /** The entry still has open probes and is not overdue. */
  predicate Waits(k: int, p: PendingFaceFrame, latestFace: int, window: int) {
    !p.queued && p.probes != {} && !(latestFace >= 0 && latestFace - k > window)
  }

  predicate Due(k: int, p: PendingFaceFrame, latestFace: int, window: int) {
    !p.queued && !Waits(k, p, latestFace, window)
  }

  /** The hand-overs of the entries among `keys` that are due, in that order. */
  ghost function DueHandovers(cfg: Config, faceFrames: map<int, PendingFaceFrame>, keys: seq<int>, latestFace: int)
    : seq<Handover>
    requires forall k :: k in keys ==> k in faceFrames
    decreases |keys|
  {
    if keys == [] then []
    else
      var rest := DueHandovers(cfg, faceFrames, keys[1..], latestFace);
      if Due(keys[0], faceFrames[keys[0]], latestFace, cfg.window) then
        [MakeHandover(cfg, faceFrames[keys[0]])] + rest
      else rest
  }

  /** The entries that are left while `unvisited` are still to be looked at. */
  ghost function StillWaiting(faceFrames: map<int, PendingFaceFrame>, unvisited: seq<int>, latestFace: int, window: int)
    : map<int, PendingFaceFrame>
  {
    map k | k in faceFrames && (k in unvisited || Waits(k, faceFrames[k], latestFace, window)) :: faceFrames[k]
  }

  ghost function LatestHanded(latest: int, handed: seq<Handover>): int
    decreases |handed|
  {
    if handed == [] then latest else LatestHanded(Max(latest, handed[0].task.frameId), handed[1..])
  }

  ghost function DrainFaces(s: State): State {
    var due := DueHandovers(s.cfg, s.faceFrames, SortedKeys(s.faceFrames.Keys), s.latestFace);
    s.(faceFrames := StillWaiting(s.faceFrames, [], s.latestFace, s.cfg.window),
       latestRecognition := LatestHanded(s.latestRecognition, due),
       calls := s.calls.(handedOver := s.calls.handedOver + due))
  }

  // drain_recognition_ready_ and drain_commit_ready_: the same loop over two stages

  /** The loop lets through the result at the frontier, skips ids that are overdue, and stops otherwise. */
  ghost function ReorderLoop(stage: Stage, latest: int, window: int): (Stage, seq<Item>)
    requires window >= 0
    decreases |stage.pending|, latest - stage.next
  {
    var k := stage.next;
    if k < 0 then (stage, [])
    else if k in stage.pending then
      assert |stage.pending - {k}| < |stage.pending| by {
        assert (stage.pending - {k}).Keys == stage.pending.Keys - {k};
      }
      var rest := ReorderLoop(Stage(k + 1, stage.pending - {k}), latest, window);
      (rest.0, [stage.pending[k]] + rest.1)
    else if latest >= 0 && latest - k > window then
      ReorderLoop(stage.(next := k + 1), latest, window)
    else (stage, [])
  }

  ghost function StartStage(stage: Stage): Stage {
    if stage.next < 0 && stage.pending != map[] then stage.(next := Least(stage.pending.Keys)) else stage
  }

  ghost function DropStale(stage: Stage): Stage {
    if stage.next >= 0 then stage.(pending := DropBelow(stage.pending, stage.next)) else stage
  }

  ghost function DrainStage(stage: Stage, latest: int, window: int): (Stage, seq<Item>)
    requires window >= 0
  {
    var r := ReorderLoop(StartStage(stage), latest, window);
    (DropStale(r.0), r.1)
  }

  ghost function LatestItem(latest: int, items: seq<Item>): int
    decreases |items|
  {
    if items == [] then latest else LatestItem(Max(latest, items[0].frameId), items[1..])
  }

  ghost function DrainRecognition(s: State): State {
    var r := DrainStage(s.recognition, s.latestRecognition, s.cfg.window);
    s.(recognition := r.0,
       latestIdentity := LatestItem(s.latestIdentity, r.1),
       calls := s.calls.(identityTasks := s.calls.identityTasks + r.1))
  }

  ghost function DrainCommit(s: State): State {
    var r := DrainStage(s.commit, s.latestIdentity, s.cfg.window);
    s.(commit := r.0, calls := s.calls.(committed := s.calls.committed + r.1))
  }

  // trim_pending_

  ghost function TrimMap<T>(m: map<int, T>, limit: int): map<int, T>
    requires limit >= 1
    decreases |m|
  {
    if |m| <= limit then m
    else
      var k := Least(m.Keys);
      assert |m - {k}| < |m| by { assert (m - {k}).Keys == m.Keys - {k}; }
      TrimMap(m - {k}, limit)
  }

  /** Dropping a pending face frame also moves the commit frontier past it. */
  ghost function TrimFaceFrames(faceFrames: map<int, PendingFaceFrame>, nextCommit: int, limit: int)
    : (map<int, PendingFaceFrame>, int)
    requires limit >= 1
    decreases |faceFrames|
  {
    if |faceFrames| <= limit then (faceFrames, nextCommit)
    else
      var k := Least(faceFrames.Keys);
      assert |faceFrames - {k}| < |faceFrames| by { assert (faceFrames - {k}).Keys == faceFrames.Keys - {k}; }
      TrimFaceFrames(faceFrames - {k}, if nextCommit < 0 || k >= nextCommit then k + 1 else nextCommit, limit)
  }

  ghost function TrimIntake(s: State): State {
    var q := s.intake;
    s.(intake := q.(frames := TrimMap(q.frames, s.cfg.limit), detections := TrimMap(q.detections, s.cfg.limit)))
  }

  ghost function TrimProbes(s: State): State {
    s.(queuedProbes := TrimMap(s.queuedProbes, s.cfg.limit), early := TrimMap(s.early, s.cfg.limit))
  }

  ghost function TrimFaces(s: State): State {
    var faces := TrimFaceFrames(s.faceFrames, s.commit.next, s.cfg.limit);
    s.(faceFrames := faces.0, commit := s.commit.(next := faces.1))
  }

  ghost function TrimResults(s: State): State {
    s.(recognition := s.recognition.(pending := TrimMap(s.recognition.pending, s.cfg.limit)),
       commit := s.commit.(pending := TrimMap(s.commit.pending, s.cfg.limit)))
  }

  ghost function Trim(s: State): State {
    TrimResults(TrimFaces(TrimProbes(TrimIntake(s))))
  }

  ghost function DrainStages(s: State): State {
    DrainCommit(DrainRecognition(DrainFaces(DrainTracking(DrainProbes(s)))))
  }

  ghost function Drain(s: State): (t: State)
    ensures t.cfg == s.cfg
  {
    Trim(DrainStages(s))
  }

  // Runs

  datatype Op =
    | FrameIn(frame: Frame)
    | Detection(frameId: int, boxes: seq<Box>)
    | FaceAnswer(face: FaceResult)
    | Recognition(item: Item)
    | Identity(item: Item)
    | DrainReady

  ghost function Step(s: State, op: Op): (t: State)
    ensures t.cfg == s.cfg
  {
    match op
    case FrameIn(frame) => PushFrame(s, frame)
    case Detection(frameId, boxes) => PushDetection(s, frameId, boxes)
    case FaceAnswer(r) => PushFace(s, r)
    case Recognition(r) => PushRecognition(s, r)
    case Identity(r) => PushIdentity(s, r)
    case DrainReady => Drain(s)
  }

  /** The state after a sequence of calls on a new coordinator. */
  ghost function Run(cfg: Config, ops: seq<Op>): (t: State)
    ensures t.cfg == cfg
  {
    if ops == [] then Initial(cfg) else Step(Run(cfg, ops[..|ops| - 1]), ops[|ops| - 1])
  }

  ghost predicate Answers(task: Item, r: Item) {
    r.frameId == task.frameId && r.frame == task.frame
  }

  /** What the rest of the pipeline may call: ids are non-negative and stage results answer tasks that were queued. */
  ghost predicate Allowed(s: State, op: Op) {
    match op
    case FrameIn(frame) => frame.id >= 0
    case Recognition(r) => exists i :: 0 <= i < |s.calls.handedOver| && Answers(s.calls.handedOver[i].task, r)
    case Identity(r) => exists i :: 0 <= i < |s.calls.identityTasks| && Answers(s.calls.identityTasks[i], r)
    case _ => true
  }

  ghost predicate Legal(cfg: Config, ops: seq<Op>) {
    forall i :: 0 <= i < |ops| ==> Allowed(Run(cfg, ops[..i]), ops[i])
  }
}
