# Veilsight: models and proofs

Veilsight watches camera streams, detects and tracks people, decides whose face may be shown, and anonymizes everybody
else. This project models the parts of it that decide order, completeness and privacy, and proves what they promise:

- the per-stream reorder buffer `StreamCoordinator`, driven by any interleaving of its five push calls and `drain_ready`;
- the face recognizer, whose workers share one decision cache and one gallery, under clean-up and gallery reload;
- the identity deciders and the fallbacks of the stage workers, which close the fail-closed privacy chain;
- the assignment of detected faces to person tracks;
- the timestamp join of the two frame streams of a camera;
- the evaluation metrics: union coverage by coordinate compression, the protection rates built on it, greedy IoU matching;
- the analytics engine: segment crossing, polyline simplification, the enter / dwell / exit log of areas;
- non-maximum suppression in its two forms, and the latency histogram.

## How it is organised

Code that changes things step by step is modelled in three layers. A `...Spec` module says, call by call, which state
follows from which state. A class (or a method with loops) of the same shape as the source updates its fields in place
and is proved to compute exactly those functions. The theorems then speak about whole histories of calls.

| part | specification | code | theorems |
|---|---|---|---|
| reorder buffer | `coordinator_spec.dfy` | `coordinator.dfy` | `coordinator_invariants`, `_drains`, `_runs`, `_theorems`, `_tracking`, `_commits`, `_provenance`, `_probes`, `_answers`, `_trim`, `_gaps` |
| recognizer | `recognizer_spec.dfy`, `recognizer_workers.dfy` | `recognizer.dfy` | `recognizer_workers.dfy`, `recognizer_theorems.dfy`, `recognizer_outcomes.dfy` |
| whole pipeline | | `fail_closed.dfy` | `fail_closed.dfy`, `box_journey.dfy` |
| face assignment | `face_policy.dfy` | `face_policy.dfy` | `face_policy.dfy`, `face_rules.dfy` |
| dual source | `dual_source.dfy` | `dual_source.dfy` | `dual_source.dfy`, `dual_source_pairs.dfy` |
| metrics | `coverage.dfy`, `protection_metrics.dfy`, `greedy_match.dfy` | the same | the same |
| analytics | `segments.dfy`, `polyline.dfy`, `area_events.dfy` | the same | the same, `line_distance.dfy`, `area_transitions.dfy` |
| detectors, latency | `nms.dfy`, `histogram.dfy` | the same | the same |

`types.dfy`, `sequences.dfy`, `ordered_keys.dfy` (the iteration order of `std::map`), `geometry.dfy` and
`overlap.dfy` (what intersection over union measures) are shared.

## Assumptions about the environment

Where a theorem needs one of these, its `requires` says so; the others hold of every history of calls.

- Frame ids are not negative, and recognition and identity results answer tasks that the coordinator queued, with the
  same id and frame (`Allowed`, `Legal`). Results may be lost, late, duplicated or out of order.
- The limit on pending entries exceeds the reorder window. What depends on this says `cfg.limit > cfg.window`.
- The tracker is any deterministic function of the updates it has seen. For the privacy theorem its boxes have no identity
  and no face and are to be anonymized (`GuardedConfig`, `FacesTraced`), and what the recognizer starts for the stream are
  tasks of its coordinator (`OwnTasks`).
- A critical section of a mutex is one atomic step; everything else interleaves freely.

## What the proofs brought to light

- `latest_recognition_queued_frame_id_` bounds how long the recognition stage waits, but the stage starts at the first
  *result* that a drain finds, not at the first frame that was handed over. A result within the window of the newest task
  is ignored exactly when its frame is identified already or lies before the frame of the first identity task
  (`IgnoredWithinWindow`); in the latter case the frame is never identified or committed (`StartedPastIsFinal`). It
  happens in a legal run of eight calls, with any window of at least 1 (`LostWithinWindow`). The commit stage, which
  starts at the first tracked frame, has no such gap.
- The size limit can shorten two queues: detections, exactly when no frame is pending and there are more of them than the
  limit, and early face results, exactly when they are for more frames than the limit
  (`DetectionsTrimmedOnlyWithoutFrames`). A frame whose detections were trimmed is tracked with the empty list although
  they had arrived (`DetectionsLost`).
- The tolerances of the segment test never hide a crossing (`NeverMisses`) but accept some near misses
  (`AcceptsNearMiss`). The test is wrong exactly when an end is near the other segment, none touches it and nothing
  crosses (`WrongExactlyWhenNear`). It is exact when every side value and every gap is zero or not below the tolerance
  (`ExactWhenDecided`), hence on any grid that is not finer than about 0.00003, such as whole pixels or the foot points of
  boxes with whole coordinates (`ExactOnGrid`, `ExactOnFeet`).
- A track that is inside an area and missing from a frame gets its exit exactly when it was active, its position is known
  and the area is still enabled (`ExitExactlyWhenActive`). A track without an id is processed under id 0, which is active
  only if a track of the last frame names it, so it can enter and never exit (`UnnamedTrackGetsNoExit`).

## Model

| member | source | states |
|---|---|---|
| `CoordinatorTracking.TrackingIsSequential` | core/src/pipeline/stream_coordinator.cpp:21-109 | for every interleaving with frames pushed in increasing id order and a detection backlog within the limit, the tracker updates are those of a sequential reference that scans one queue; tracked plus still pending frames are exactly the pushed ones, in order |
| `CoordinatorTracking.ReorderingIsInvisible` | core/src/pipeline/stream_coordinator.cpp:65-109 | when detections arrive before a drain has seen an id more than the window ahead, the updates are a prefix of the in-order pipeline: every frame once, in order, with its own detections |
| `CoordinatorTracking.ReorderingCompletes` | core/src/pipeline/stream_coordinator.cpp:65-109 | and once all detections have arrived the next drain makes them the whole in-order pipeline |
| `CoordinatorTracking.MissedDeadline` | core/src/pipeline/stream_coordinator.cpp:95-99 | in every run each tracked frame was tracked by a drain that knew its detections, or with the empty list by a drain before which none had arrived and an id more than the window ahead had been seen |
| `CoordinatorTracking.OverdueIsTracked` | core/src/pipeline/stream_coordinator.cpp:90-99 | conversely, after a drain every pushed frame for which an id more than the window ahead had been pushed is tracked |
| `CoordinatorTracking.SequentialConserves` | core/src/pipeline/stream_coordinator.cpp:65-109 | the sequential reference loses, repeats and reorders no frame |
| `CoordinatorTracking.LoopIsScan` | core/src/pipeline/stream_coordinator.cpp:70-102 | the tracking loop on the two maps equals the scan of the queue against the call history |
| `CoordinatorTracking.SeenAheadIsLatestSeen` | core/src/pipeline/stream_coordinator.cpp:90-95 | the test on the newest keys of the two maps decides whether any id more than the window ahead was ever pushed |
| `CoordinatorTheorems.NothingTrimmed` | core/src/pipeline/stream_coordinator.cpp:332-358 | in every reachable state the drains leave at most window + 1 frames, queued probes and face frames and at most window results per stage, so trimming removes none of them and never moves the commit frontier |
| `CoordinatorTheorems.DetectionsTrimmedOnlyWithoutFrames` | core/src/pipeline/stream_coordinator.cpp:336-345 | detections are trimmed if and only if no frame is pending and they exceed the limit, early face results if and only if they exceed it |
| `CoordinatorTrim.DrainsKeepNewest` | core/src/pipeline/stream_coordinator.cpp:332-358 | in any run, legal or not, a drain leaves in each of the seven maps the newest entries, as many as there are or as the limit allows, and moves the commit frontier just past the face frames that it drops |
| `CoordinatorGaps.DetectionsLost` | core/src/pipeline/stream_coordinator.cpp:336-338 | for any non-empty detections, a legal run of calls with the limit above the window in which a frame is tracked with the empty list although those detections had arrived |
| `CoordinatorTheorems.FrontiersInOrder` | core/src/pipeline/stream_coordinator.cpp:256-330 | commit frontier <= recognition frontier <= tracker frontier once set; only tracked frames are handed over, only those identified, only those committed |
| `CoordinatorTheorems.GivenUpOnlyWhenOverdue` | core/src/pipeline/stream_coordinator.cpp:268-272 | a frontier passes a frame uncommitted (or unidentified) only if an identity (or recognition) task more than the window newer had been queued |
| `CoordinatorTheorems.HandedOverOnce` | core/src/pipeline/stream_coordinator.cpp:213-232 | each tracked frame is handed to recognition at most once; after a drain the others still have an open probe and no probe more than the window newer is out |
| `CoordinatorAnswers.HandedOverExactlyWhenAnswered` | core/src/pipeline/stream_coordinator.cpp:32-232 | as long as no early face result was trimmed, a tracked frame is with the recognizer after a drain if and only if no probe was issued for it, a result with the id of its probe was pushed (in independent mode at any time, otherwise once the probe was out), or a probe of a frame more than the window newer was issued |
| `CoordinatorAnswers.UnansweredOnlyWhenOverdue` | core/src/pipeline/stream_coordinator.cpp:213-225 | a frame that went to the recognizer without a face result, although a probe was issued for it, was overdue |
| `CoordinatorAnswers.EveryImageIsProbed` | core/src/pipeline/stream_coordinator.cpp:111-176 | with face detection a probe is issued for every tracked frame that has an image |
| `CoordinatorProbes.OnlyImagesAreProbed` | core/src/face_detector/face_policy.cpp:142-165 | conversely, in any run a probe is issued only with face detection and for a frame that was pushed with an image |
| `CoordinatorProbes.ProbeIdsDiffer` | core/src/face_detector/face_policy.cpp:130-132 | the probe ids of two frames differ |
| `CoordinatorTheorems.HandedOverExactlyWhenDue` | core/src/pipeline/stream_coordinator.cpp:133-232 | whatever answers were trimmed, a drain hands over a frame that was waiting or that it tracks if and only if its entry has no open probe or a probe more than the window newer has been issued |
| `CoordinatorTheorems.LatestFaceIsNewestProbe` | core/src/pipeline/stream_coordinator.cpp:111-131 | the field that decides about overdue probes is the newest frame that probes were issued for |
| `CoordinatorTheorems.ProbesAppliedOnce` | core/src/pipeline/stream_coordinator.cpp:32-44 | the results applied to a frame answer pairwise distinct probes, whatever duplicates, late or early results arrive |
| `CoordinatorProbes.AppliedResultsAnswerProbes` | core/src/pipeline/stream_coordinator.cpp:32-44 | at most one result is applied to a frame, it was pushed for it, and it answers the probe that was planned and issued for it |
| `CoordinatorGaps.IgnoredWithinWindow` | core/src/pipeline/stream_coordinator.cpp:46-49 | a recognition result within the window is ignored if and only if its frame has its identity task or lies before the first one; otherwise it is stored |
| `CoordinatorGaps.StartedPastIsFinal` | core/src/pipeline/stream_coordinator.cpp:256-275 | a frame before the first identity task is never identified and never committed, whatever follows |
| `CoordinatorGaps.LostWithinWindow` | core/src/pipeline/stream_coordinator.cpp:256-259 | for every window of at least 1, a legal run in which a result within the window for a frame that was handed over is ignored; no continuation identifies the frame and no legal one commits it |
| `CoordinatorTheorems.FirstResultStartsRecognition` | core/src/pipeline/stream_coordinator.cpp:256-259 | how it comes about: after the first drain that finds results, anything for a frame before the smallest of them is ignored |
| `CoordinatorTheorems.RunInv` | core/src/pipeline/stream_coordinator.cpp:56-63 | every legal sequence of calls keeps the invariants of all four stages |
| `CoordinatorTheorems.ArrivalOrderIsInvisible` | core/src/pipeline/stream_coordinator.cpp:21-54 | swapping two neighbouring pushes that differ in kind or frame changes nothing in the rest of any run |
| `CoordinatorTheorems.SupersededIsInvisible` | core/src/pipeline/stream_coordinator.cpp:21-54 | a frame, detection list or stage result that is pushed again before the next drain can be dropped from any run, whatever comes in between and after |
| `CoordinatorCommits.CommitsIncrease` | core/src/pipeline/stream_coordinator.cpp:300-330 | for any calls and any limits: commits and identity tasks come in strictly increasing id, hence at most once, behind their frontiers |
| `CoordinatorCommits.CommitsCarryLatest` | core/src/pipeline/stream_coordinator.cpp:256-330 | for any calls: a drain extends both logs at the end, each commit with the last identity result and each identity task with the last recognition result pushed for the frame |
| `CoordinatorCommits.OnlyDrainsAct` | core/src/pipeline/stream_coordinator.cpp:21-63 | no push updates the tracker, queues a task or commits |
| `CoordinatorProvenance.TasksAreGenuine` | core/src/pipeline/stream_coordinator.cpp:133-211 | for any calls: a recognition task is about a tracked frame; box by box its boxes are those the tracker returned for that update (place, id, score, key, confidence and state), reset to anonymize and no face unless a probe of the frame was out ahead of the tracker; the applier got them with exactly the faces of results that were pushed for that frame |
| `CoordinatorRuns.TrimIdle` | core/src/pipeline/stream_coordinator.cpp:332-358 | after the drains, trimming changes nothing but the detections and the early face results |
| `CoordinatorRuns.QueuesFit` | core/src/pipeline/stream_coordinator.cpp:65-330 | sizes of all queues after the drains, in terms of the window |
| `CoordinatorRuns.DrainStagesInv` | core/src/pipeline/stream_coordinator.cpp:56-62 | the five stages of a drain keep the invariants and settle: each stops within the window of what was queued |
| `CoordinatorRuns.FirstTaken` | core/src/pipeline/stream_coordinator.cpp:256-267 | the first results to arrive start a stage at the smallest id and are let through at once |
| `CoordinatorDrains.DrainIntakeInv` | core/src/pipeline/stream_coordinator.cpp:65-109 | tracking keeps ids increasing, loses no frame, and stops only on a frame that is neither matched nor overdue |
| `CoordinatorDrains.ReorderLoopSpec` | core/src/pipeline/stream_coordinator.cpp:261-275 | the reorder loop lets through exactly the results below its new frontier, in order, and skips only overdue ids |
| `CoordinatorDrains.DrainStageSpec` | core/src/pipeline/stream_coordinator.cpp:300-330 | a drained stage keeps only results ahead of its frontier, which is within the window of the newest task |
| `CoordinatorDrains.DueSpec` | core/src/pipeline/stream_coordinator.cpp:213-232 | a sweep over the face frames hands over each due entry once and no other |
| `CoordinatorDrains.AbsorbOnce` | core/src/pipeline/stream_coordinator.cpp:183-191 | early face results are matched to distinct open probes |
| `CoordinatorInvariants.Provenance` | core/src/pipeline/stream_coordinator.cpp:133-330 | committed, identified and handed-over frames are all tracked |
| `Coordinator.StreamCoordinator.constructor` | core/src/pipeline/stream_coordinator.cpp:8-19 | window at least 0, limit at least 1, face results applied by the face policy; initial state |
| `Coordinator.StreamCoordinator.DrainReady` | core/src/pipeline/stream_coordinator.cpp:56-63 | new state: the five stages and the trim, in this order |
| `Coordinator.StreamCoordinator.DrainIndependentFaceProbes` | core/src/pipeline/stream_coordinator.cpp:111-131 | new state: probes for pending frames that have none yet |
| `Coordinator.StreamCoordinator.DrainTracking` | core/src/pipeline/stream_coordinator.cpp:65-109 | new state: the loop over matched and overdue frames; it ends |
| `Coordinator.StreamCoordinator.ProcessTrackedFrame` | core/src/pipeline/stream_coordinator.cpp:133-211 | new state: tracker update, probes, early results, hand-over when nothing is open |
| `Coordinator.StreamCoordinator.AbsorbEarly` | core/src/pipeline/stream_coordinator.cpp:183-191 | which early results answer which queued probes |
| `Coordinator.StreamCoordinator.DrainFaceReady` | core/src/pipeline/stream_coordinator.cpp:213-232 | new state: due entries handed over and erased |
| `Coordinator.StreamCoordinator.DrainRecognitionReady` | core/src/pipeline/stream_coordinator.cpp:256-283 | new state: results let through in order, overdue ids skipped, stale results erased |
| `Coordinator.StreamCoordinator.DrainCommitReady` | core/src/pipeline/stream_coordinator.cpp:300-330 | new state: commits in order, overdue ids skipped, stale results erased |
| `Coordinator.StreamCoordinator.TrimPending` | core/src/pipeline/stream_coordinator.cpp:332-358 | new state: smallest keys erased down to the limit, commit frontier moved past lost face frames |
| `FacePolicy.StableAssignment` | core/src/face_detector/face_policy.cpp:95-120 | for any order of equal scores: each track gets at most one face, a plausible one; in the returned list a plausible track that a face would score strictly higher with, or any if it got none, shows a face of at least its detector score |
| `FacePolicy.IndependentPlacement` | core/src/face_detector/face_policy.cpp:81-121 | in independent mode, for any order of equal scores, every face has exactly one place, unplaced ones as face-only boxes with ids -1, -2, ...; tracks keep order and geometry |
| `FacePolicy.ApplyGuarded` | core/src/face_detector/face_policy.cpp:173-181 | whatever faces arrive, boxes stay without identity and to be anonymized |
| `FacePolicy.ApplyFaces` | core/src/face_detector/face_policy.cpp:173-181 | a face of the new boxes was there before or is one of the results, stamped with the frame |
| `FacePolicy.AssignFullFrameFaces` | core/src/face_detector/face_policy.cpp:81-121 | the loops compute the assignment that the theorems are about |
| `FacePolicy.BestTrackIsBest` | core/src/face_detector/face_policy.cpp:100-111 | the inner loop finds a free plausible track of highest score |
| `FaceRules.NoFaceIsLost` | core/src/face_detector/face_policy.cpp:67-121 | in independent mode every face of the last result is in the list as it was detected, fresh and of this frame: in a box of its own that lies on it, or with a person that holds its centre and at least half of it |
| `FaceRules.ApplyKeepsBoxes` | core/src/face_detector/face_policy.cpp:173-181 | applying results keeps every box but for its face; boxes are added in independent mode only, without a track id and to be anonymized |
| `FaceRules.InsideIsPlausible` | core/src/face_detector/face_policy.cpp:35-57 | a face that lies inside a person is plausible for them if and only if it scores at least the minimum and has the size for it |
| `FaceRules.PlausibleExactly` | core/src/face_detector/face_policy.cpp:35-57 | in general, if and only if in addition its centre and at least half of its area lie inside |
| `FaceRules.SmallerPersonPreferred` | core/src/face_detector/face_policy.cpp:59-65 | of two persons that contain a face the one with the smaller box scores higher |
| `FaceRules.TrackScoreMeasures` | core/src/face_detector/face_policy.cpp:59-65 | the detector score counts once, the share of the face inside twice, the overlap once: at most 3 more than the detector score, and nothing when the boxes lie apart |
| `Geometry.IouLaws` | core/src/face_detector/face_policy.cpp:9-26 | IoU is symmetric and in [0, 1], and the form of the evaluation scripts agrees with it |
| `Overlap.IouCountsCells` | core/src/face_detector/face_policy.cpp:9-26 | on whole coordinates, IoU times the number of cells in the union is the number of cells in both rectangles |
| `Overlap.IouOfPart` | core/src/face_detector/face_policy.cpp:9-26 | a rectangle inside another one scores its share of the area, and 1 with itself |
| `Overlap.IouOfApart` | core/src/face_detector/face_policy.cpp:9-26 | rectangles without a common inner point score 0 |
| `RecognizerWorkers.NoOrphans` | core/src/recognizer/mobilefacenet_recognizer.cpp:583-631 | under any interleaving with clean-up and reload every pending entry has a worker between its marking and its finish or clear |
| `RecognizerWorkers.QuietMeansSettled` | core/src/recognizer/mobilefacenet_recognizer.cpp:474-537 | when no worker is busy nothing is pending |
| `RecognizerWorkers.WorkersFinish` | core/src/recognizer/mobilefacenet_recognizer.cpp:483-531 | each step of a worker decreases a measure, so every recognition ends whatever the others do |
| `RecognizerWorkers.UninterruptedIsAlone` | core/src/recognizer/mobilefacenet_recognizer.cpp:474-537 | a recognition that runs as one piece is the run of the machine in which only its worker moves |
| `RecognizerTheorems.RecognitionFailsClosed` | core/src/recognizer/mobilefacenet_recognizer.cpp:474-537 | an allowed box of a result goes back to a face that passed the quality gates and matched with at least the threshold against one loaded, non-empty gallery: for a box with a track id a face of this stream and track, for a box without one its own face in its own frame |
| `RecognizerTheorems.AllTasksStarted` | core/src/recognizer/mobilefacenet_recognizer.cpp:474-478 | whatever was judged comes from a task that was started |
| `RecognizerTheorems.OneWorkerPerTrack` | core/src/recognizer/mobilefacenet_recognizer.cpp:545-610 | without reload and with frames in flight at most the time-to-live apart, at most one worker embeds a track |
| `RecognizerTheorems.VerdictStable` | core/src/recognizer/mobilefacenet_recognizer.cpp:562-619 | under the same conditions a finished verdict is what every later lookup finds until the entry is evicted |
| `RecognizerOutcomes.EveryBoxIsAccountedFor` | core/src/recognizer/mobilefacenet_recognizer.cpp:474-537 | over any run, a result has the boxes of a started task in the same places, each with its reason: skipped for want of a good face (all gates spelled out), failed when the network failed, pending while another worker embedded the track, else a verdict for the track, or for the box itself if it has no track, that is the first best match in one loaded gallery |
| `RecognizerOutcomes.DecidedIsShown` | core/src/recognizer/mobilefacenet_recognizer.cpp:562-610 | a decision that stands from the start of a worker to its result is shown by every box of the track in that result: key, confidence, action and state |
| `RecognizerOutcomes.RecognizedStaysRecognized` | core/src/recognizer/mobilefacenet_recognizer.cpp:562-619 | so, without reload and with close frames, a person who was recognized is shown as such on every later frame until the entry is evicted |
| `RecognizerOutcomes.EvictedExactlyWhenExpired` | core/src/recognizer/mobilefacenet_recognizer.cpp:545-581 | a decision last seen for frame f is dropped by a step if and only if it clears the cache after a reload or cleans up for a frame of the stream more than the time-to-live after f |
| `RecognizerSpec.BestIsFirstMaximum` | core/src/recognizer/mobilefacenet_recognizer.cpp:303-318 | the match is the first entry that no other beats |
| `RecognizerSpec.AllowedMeansKnown` | core/src/recognizer/mobilefacenet_recognizer.cpp:505-519 | a verdict allows if and only if some entry reaches the threshold, and then names a best one |
| `RecognizerSpec.OneTrackPerFace` | core/src/recognizer/mobilefacenet_recognizer.cpp:292-298 | two tracks showing the same face never both pass the quality gates |
| `RecognizerSpec.SimilarityIsInnerProduct` | core/src/recognizer/mobilefacenet_recognizer.cpp:303-318 | the score of an embedding is linear and picks a coordinate for unit vectors |
| `Recognizer.BestGalleryMatch` | core/src/recognizer/mobilefacenet_recognizer.cpp:303-318 | the nested loops compute the match |
| `Recognizer.PassesQualityGates` | core/src/recognizer/mobilefacenet_recognizer.cpp:254-301 | the loop over the other tracks decides the duplicate-face rule |
| `Recognizer.TrackStates.CleanupCache` | core/src/recognizer/mobilefacenet_recognizer.cpp:545-560 | exactly the entries of the stream older than the time-to-live go, an emptied stream with them |
| `Recognizer.TrackStates.ApplyCachedDecision` | core/src/recognizer/mobilefacenet_recognizer.cpp:562-581 | what the box shows for a decision, and the refreshed entry |
| `Recognizer.TrackStates.MarkInProgress` | core/src/recognizer/mobilefacenet_recognizer.cpp:583-610 | a new pending entry only if there was none |
| `Recognizer.TrackStates.FinishDecision` | core/src/recognizer/mobilefacenet_recognizer.cpp:612-619 | the entry is replaced by the decision |
| `Recognizer.TrackStates.ClearInProgress` | core/src/recognizer/mobilefacenet_recognizer.cpp:621-631 | only a pending entry is removed |
| `Recognizer.FaceRecognizer.Recognize` | core/src/recognizer/mobilefacenet_recognizer.cpp:474-537 | result and cache of a recognition, equal to those of its worker running alone |
| `Recognizer.FaceRecognizer.ReloadGallery` | core/src/recognizer/mobilefacenet_recognizer.cpp:664-680 | a failed load changes nothing, a new gallery voids all decisions |
| `FailClosed.CommittedBoxesFailClosed` | core/src/identity/identity_decider.cpp:45-63 | end to end: a committed box is allowed only under the pass-through decider, with an identity, and on evidence that goes back to a recognition task of this coordinator for a tracked frame, to a face that was reported for that frame, passed the quality gates and matched as above; a box without a track id rests on its own face in its own frame; all that is late, lost, skipped or thrown is anonymized |
| `BoxJourney.NobodyIsForgotten` | core/src/pipeline/runtime.cpp:370-434 | end to end, under any interleaving, loss and failure: what is committed for a frame goes back to one hand-over and has a box for every person that the tracker returned, in the same place, and in independent mode for every face of the applied result; only independent mode adds boxes |
| `FailClosed.PolicyTracesFaces` | core/src/face_detector/face_policy.cpp:173-181 | the face result applier of the pipeline meets the assumption about the origin of faces |
| `FailClosed.Decide` | core/src/identity/identity_decider.cpp:10-63 | the pass-through decider shows a box if and only if it was allowed and has a key, and changes nothing else; the no-op decider shows none and takes key and confidence |
| `FailClosed.RecognitionSupported` | core/src/pipeline/runtime.cpp:370-386 | results of recognition, fallbacks included, allow only boxes that were recognized, each at its own place in the frame |
| `FailClosed.IdentityFinal` | core/src/pipeline/runtime.cpp:416-434 | results of the identity stage, fallback included, allow only boxes that were recognized, at their own places, with an identity |
| `FailClosed.PolicyIsGuarded` | core/src/face_detector/face_policy.cpp:173-181 | the face result applier of the pipeline meets the assumption of the privacy theorem |
| `DualSourceTheorems.PairsInOrder` | core/src/ingest/gst_dual_source.cpp:121-151 | emitted pairs join equal timestamps of both sinks, in strictly increasing order, under consecutive frame ids |
| `DualSourcePairs.PairsAreSound` | core/src/ingest/gst_dual_source.cpp:121-163 | over any history, every pair joins two pulled frames, both with the same timestamp or both without, numbered consecutively, with the ratios of their sizes as scale |
| `DualSourcePairs.UntimedPairsInOrder` | core/src/ingest/gst_dual_source.cpp:154-162 | without timestamps both sinks are consumed in the order in which they deliver |
| `DualSourcePairs.EvictedOnlyWhenCrowded` | core/src/ingest/gst_dual_source.cpp:165-171 | the size limit evicts a packet only when eight newer ones of its sink were pulled |
| `DualSourcePairs.TrimBounds` | core/src/ingest/gst_dual_source.cpp:165-171 | after a trim at most eight packets wait on either side |
| `DualSourceTheorems.SeenOnBothIsJoined` | core/src/ingest/gst_dual_source.cpp:138-195 | a timestamp seen on both sinks is emitted, or pending on both, unless the size limit evicted a copy |
| `DualSourceTheorems.SeenOnBothIsEmitted` | core/src/ingest/gst_dual_source.cpp:138-195 | and when no match can be found, as after a read without a pair, it is emitted unless the size limit evicted a copy |
| `DualSourceTheorems.StaleIsHopeless` | core/src/ingest/gst_dual_source.cpp:173-194 | what the stale trim drops from either queue has no pending partner, and the next packet of the other sink is newer |
| `DualSource.GstDualSource.TryMatch` | core/src/ingest/gst_dual_source.cpp:138-163 | first timestamped pair, else two untimed fronts; queues and result |
| `DualSource.GstDualSource.TrimPending` | core/src/ingest/gst_dual_source.cpp:165-195 | size limit, then stale fronts; new queues |
| `DualSource.GstDualSource.Read` | core/src/ingest/gst_dual_source.cpp:197-230 | a read makes exactly the pushes, matches and trims of the rounds up to its first pair or the deadline, with the packets pulled, in order, and returns the pair that it emitted; without one, nothing that can be matched is left |
| `Coverage.ComputeUnionCoverage` | scripts/chokepoint/metrics_attack.py:29-57 | the compressed grid gives the true area of the union of the regions within the face, divided by its area |
| `Coverage.TileDecidedByCentre` | scripts/chokepoint/metrics_attack.py:50-56 | the centre decides a whole tile between neighbouring grid lines |
| `Coverage.SweepGrid` | scripts/chokepoint/metrics_attack.py:48-56 | the sum over all tiles is the number of covered cells |
| `Coverage.CoverageBounded` | scripts/chokepoint/metrics_attack.py:57-57 | the final minimum with 1 never changes the value |
| `Coverage.CoverageOfSet` | scripts/chokepoint/metrics_attack.py:29-57 | order and duplicates of regions do not matter |
| `Coverage.CoverageMonotone` | scripts/chokepoint/metrics_attack.py:29-57 | adding regions never lowers the coverage |
| `Coverage.CoverageOfOne` | scripts/chokepoint/metrics_detection.py:49-64 | for one region union coverage is the simple form |
| `ProtectionMetrics.FaceProtectionErrorRate` | scripts/chokepoint/metrics_attack.py:100-120 | the share of faces whose effective coverage is below tau |
| `ProtectionMetrics.EffectiveFaceRegionCoverageRatio` | scripts/chokepoint/metrics_attack.py:76-97 | the mean effective coverage |
| `ProtectionMetrics.NonGalleryFaceAnonymizationRecall` | scripts/chokepoint/metrics_detection.py:119-135 | the share of faces that one region covers to at least tau |
| `ProtectionMetrics.EffectiveCoverageIsMeasured` | scripts/chokepoint/metrics_attack.py:76-97 | a face in a fully anonymized frame counts as covered; otherwise its effective coverage is the share of its cells in some face region or body region of the frame |
| `ProtectionMetrics.ProtectionIsMonotone` | scripts/chokepoint/metrics_attack.py:100-120 | more face regions, body regions or fully anonymized frames never expose a face |
| `ProtectionMetrics.AnonymizedIsNotExposed` | scripts/chokepoint/metrics_attack.py:113-117 | no face is counted both as anonymized and as exposed |
| `ProtectionMetrics.RecallPlusErrorAtMostOne` | scripts/chokepoint/metrics_detection.py:119-135 | recall plus error rate is at most 1 |
| `ProtectionMetrics.ExposureLowersCoverage` | scripts/chokepoint/metrics_attack.py:86-97 | each exposed face takes at least 1 - tau off the total coverage |
| `GreedyMatch.GreedyMatchIou` | scripts/eval_mot20_detection_overlap.py:155-175 | the result is one-to-one, above the threshold, and every pair left out shares a box with a chosen pair of at least its score |
| `GreedyMatch.AtLeastHalfOfAnyMatching` | scripts/eval_mot20_detection_overlap.py:163-173 | at least half as many pairs, and half as much overlap, as any matching at that threshold |
| `GreedyMatch.EvaluateFrame` | scripts/eval_mot20_detection_overlap.py:209-216 | tp + fp = predictions and tp + fn = references on an evaluated frame |
| `GreedyMatch.OutsideMeans` | scripts/eval_mot20_detection_overlap.py:184-193 | a frame is outside the range if and only if it lies before or behind every frame with references |
| `GreedyMatch.EvaluatePersonDetections` | scripts/eval_mot20_detection_overlap.py:178-246 | no detection and no reference is lost or counted twice over all frames, and those outside the range are exactly the ones in frames before or behind all references; the matches counted, and the overlaps averaged, are those of one maximal one-to-one matching per frame; precision and recall are in [0, 1], F1 is twice the matches among the boxes of both lists, the mean overlap is between the threshold and 1 |
| `Segments.ExactIsShared` | controller/veilsight_controller/analytics_engine.py:131-155 | without tolerances the test holds if and only if the closed segments share a point, collinear and degenerate ones included |
| `Segments.NeverMisses` | controller/veilsight_controller/analytics_engine.py:131-155 | with tolerances it still holds whenever they share a point |
| `Segments.WrongExactlyWhenNear` | controller/veilsight_controller/analytics_engine.py:131-155 | for all segments: the test differs from sharing a point if and only if some end is within the tolerances, none touches and nothing crosses |
| `Segments.ExactWhenDecided` | controller/veilsight_controller/analytics_engine.py:131-155 | for all real points whose side values and box gaps are zero or not below the tolerance, the test is exact |
| `Segments.WrongWhenUndecided` | controller/veilsight_controller/analytics_engine.py:147-154 | conversely, one end that is near without touching, while nothing else meets, makes the test wrong |
| `Segments.ExactOnGrid` | controller/veilsight_controller/analytics_engine.py:131-155 | on any grid whose step squared is at least the tolerance the test is exact |
| `Segments.ExactOnFeet` | controller/veilsight_controller/analytics_engine.py:280-287 | foot points of boxes with whole coordinates are compared exactly with lines through whole pixels |
| `Segments.ExactOnPixels` | controller/veilsight_controller/analytics_engine.py:131-155 | in particular on whole pixels |
| `Segments.AcceptsNearMiss` | controller/veilsight_controller/analytics_engine.py:147-154 | every pair of parallel unit segments closer than the tolerance is accepted although it shares no point |
| `Polyline.SimplifyPolyline` | controller/veilsight_controller/analytics_engine.py:174-196 | the recursion with its maximum loop computes the simplification that the theorems are about |
| `Polyline.SimplifyPolylineIsSound` | controller/veilsight_controller/analytics_engine.py:174-196 | a subsequence with the same ends; every dropped point is within epsilon of the line between its kept neighbours, every kept one but the ends further than epsilon from a line between kept points around it; just the ends when all points are close to their line; idempotent |
| `LineDistance.DeviationIsDistance` | controller/veilsight_controller/analytics_engine.py:183-189 | the deviation is the smallest squared distance from a point of the line |
| `Polyline.KeptIsClose` | controller/veilsight_controller/analytics_engine.py:192-196 | dropped points are close to the line between their kept neighbours |
| `Polyline.SimplifyTwice` | controller/veilsight_controller/analytics_engine.py:174-196 | simplifying again changes nothing |
| `AreaEventsTheorems.LogIsReplayable` | controller/veilsight_controller/analytics_engine.py:503-561 | under any frames and rule changes the state of a track in an area is what a strict reader makes of its log: enter and exit alternate, at most one dwell event between, exits account for the time since the enter |
| `AreaTransitions.VisibleTrackIsLogged` | controller/veilsight_controller/analytics_engine.py:503-561 | over any history, for every track that a frame shows and every area of it, read off the log alone: an enter is logged if and only if the track was outside and is inside, an exit if and only if it was inside and is outside, a dwell event if and only if it stays inside, none was logged since the enter and the time since has reached the threshold; with exact times and totals, and nothing else |
| `AreaTransitions.MissingTrackIsLogged` | controller/veilsight_controller/analytics_engine.py:592-629 | for every track that a frame does not show: its exit is logged, once and at its last position, if and only if the frame before named it, the log has it inside and the area is still there; otherwise nothing |
| `AreaTransitions.UnnamedTrackLeavesFirst` | controller/veilsight_controller/analytics_engine.py:265-277 | the remaining case, a track without an id while the frame before named a track 0: it is finalized as missing and then seen like any other |
| `AreaEventsTheorems.TotalIsSumOfExits` | controller/veilsight_controller/analytics_engine.py:525-530 | the total dwell time is the sum of the dwell times of the exits |
| `AreaEventsTheorems.InsideMeansActive` | controller/veilsight_controller/analytics_engine.py:265-268 | with steady rules and explicit ids every track inside an area is active |
| `AreaEventsTheorems.ExitOnFirstMissingFrame` | controller/veilsight_controller/analytics_engine.py:592-629 | such a track gets its exit with the first frame that lacks it |
| `AreaEventsTheorems.ExitExactlyWhenActive` | controller/veilsight_controller/analytics_engine.py:592-629 | in any state and for any frame, a track that is inside and missing gets its exit if and only if it was active, its position is known and the area is still enabled; otherwise nothing happens to it |
| `AreaEventsTheorems.UnnamedTrackGetsNoExit` | controller/veilsight_controller/analytics_engine.py:265-277 | a track without an id enters, is missing from every later frame, and never gets an exit |
| `AreaEvents.StreamAnalytics.AreaEvents` | controller/veilsight_controller/analytics_engine.py:503-561 | new area states and log |
| `AreaEvents.StreamAnalytics.FinalizeMissingTrack` | controller/veilsight_controller/analytics_engine.py:592-629 | new area states and log |
| `AreaEvents.StreamAnalytics.ProcessFrame` | controller/veilsight_controller/analytics_engine.py:246-374 | missing tracks are finalized before the tracks of the frame are observed |
| `Nms.NmsByIndex` | core/src/person_detector/yolox_detector.cpp:348-379 | the form on indices returns the common selection for the order that its sort left |
| `Nms.NmsSorted` | core/src/person_detector/uhd_detector.cpp:144-167 | the form on boxes returns the same selection for the order that its sort left |
| `Nms.FormsAgree` | core/src/person_detector/uhd_detector.cpp:144-167 | for the same sorted order, equal scores included, both forms return the same boxes; without equal scores they do whatever sort they use |
| `Nms.NmsIsSound` | core/src/person_detector/yolox_detector.cpp:360-372 | pairwise within the threshold; each of the first topK candidates, or of all without a limit, is returned or overlaps a returned one of at least its score |
| `Nms.NmsTwice` | core/src/person_detector/uhd_detector.cpp:144-167 | a second run keeps everything |
| `HistogramTheorems.PercentileIsOrderStatistic` | core/src/pipeline/metrics.cpp:42-56 | for the k-th smallest duration, k being p times the count rounded up, the reported percentile is the smallest bound that its whole microseconds do not exceed, or the true maximum if there is none |
| `HistogramTheorems.KthExists` | core/src/pipeline/metrics.cpp:42-44 | every rank has its observation |
| `HistogramTheorems.BinsSumToCount` | core/src/pipeline/metrics.cpp:35-40 | the bins add up to the number of observations |
| `HistogramTheorems.ReportedPercentilesInOrder` | core/src/pipeline/metrics.cpp:86-88 | p50 <= p95 <= p99 |
| `Histogram.StageAccumulator.Observe` | core/src/pipeline/metrics.cpp:67-74 | the accumulator keeps the counts, the sum and the extremes of the whole history |
| `HistogramTheorems.AverageInRange` | core/src/pipeline/metrics.cpp:83-85 | the average lies between the smallest and the largest observation |
| `Histogram.StageAccumulator.PercentileMs` | core/src/pipeline/metrics.cpp:42-56 | the scan with its running count |

## Left out

- Trackers, detectors, embeddings, image processing, GStreamer, SQLite, gRPC, HTTP and file input: foreign calls; they
  appear as parameters, abstract functions or arbitrary inputs.
- Shared mutation of a frame: the source lets every stage overwrite `tracked_boxes` of one shared `FrameCtx`; here frames
  are values and each task and result carries its own boxes, so aliasing between stages is not captured.
- Callbacks are recorded, not executed: a callback that calls back into the coordinator, or that is missing, is not
  modelled. Null frames and a missing tracker are excluded, as by the constructors that build the pipeline.
- Face probes have one kind: the branch that skips results of another kind than full-frame is not modelled.
- Floating point: coordinates, scores and dwell times are reals, coverage uses integer coordinates; rounding in reports
  (`round(..., 3)`), NaN and infinities other than the initial minimum are left out. Integers do not wrap around.
- `std::sort` leaves equal scores in any order: the theorems about face assignment and suppression hold for every such order;
  the methods sort in one of them.
- early_face_results_: only the number of keys is bounded by the source, so no bound on the results per key is claimed.
- Cached decisions after a reload: a worker in flight may still finish with the gallery it read, so no theorem says that
  they match the newest gallery; each is backed by one gallery that was loaded.
- Quality gates of the recognizer other than the plain thresholds and the duplicate-face rule are one opaque predicate.
- The nested map of decisions is flattened in the worker model; the class keeps it nested and is proved equal to it.
- Line crossings with debounce, heat maps, routes and snapshots of the analytics engine: easy per-branch facts.
- Config parsing, settings, queues between workers, telemetry, lifecycle and the user interface.
- Coverage.ComputeUnionCoverage: coordinates are integers, so that area is a number of unit cells.
- Overlap.IouCountsCells: whole coordinates, for the same reason; over the reals there are the laws of `IouLaws`, `IouOfPart`
  and `IouOfApart`.
- Histogram.StageAccumulator.Observe: the sum is a whole number without bound, not a long double.
