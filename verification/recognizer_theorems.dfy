/**
 Two guarantees of the shared decision cache: an allowed box always goes back to a match that reached the threshold,
 and without reloads a track is embedded by one worker at a time and keeps its verdict.
 */
module RecognizerTheorems {
  import opened Types
  import Sequences
  import opened CoordinatorSpec
  import opened RecognizerSpec
  import opened RecognizerWorkers

  // Fail-closed recognition

  /** The evidence is about this track of this stream. */
  predicate About(e: Evidence, key: Key) {
    e.index < |e.task.tracks| && e.task.frame.streamId == key.0 && e.task.tracks[e.index].id == key.1
  }

  /** The verdict was reached for this very track. */
  ghost predicate Backed(key: Key, v: Verdict, evidence: seq<Evidence>) {
    exists e :: e in evidence && About(e, key) && e.verdict == v
  }

  function VerdictOf(box: Box): Verdict {
    Verdict(box.identityKey, box.confidence, box.action, box.state)
  }

  /** A box together with its place: the frame that it belongs to and its position in the list. */
  datatype Placed = Placed(frame: Frame, frameId: int, index: nat, box: Box)

  function BoxAt(r: Item, j: nat): Placed
    requires j < |r.tracks|
  {
    Placed(r.frame, r.frameId, j, r.tracks[j])
  }

  /** The evidence is the face of this very box, in this frame. */
  predicate OwnFace(e: Evidence, p: Placed) {
    && e.task.frame == p.frame && e.task.frameId == p.frameId
    && e.index == p.index < |e.task.tracks| && e.task.tracks[e.index].face == p.box.face
  }

  /** The evidence speaks for the box: it is about its track or, when the box has no track id, about the box itself. */
  predicate SpeaksFor(e: Evidence, p: Placed) {
    About(e, (p.frame.streamId, p.box.id)) && (p.box.id < 0 ==> OwnFace(e, p))
  }

  /** The box shows no decision: it was skipped, is pending or has failed. */
  predicate Blank(box: Box) {
    && box.identityKey == "" && box.confidence == 0.0 && box.action == Anonymize
    && (box.state == Skipped || box.state == Pending || box.state == Failed)
  }

  /** The box shows no decision, or one that evidence speaks for. */
  ghost predicate BackedBox(p: Placed, evidence: seq<Evidence>) {
    Blank(p.box) || exists e :: e in evidence && SpeaksFor(e, p) && e.verdict == VerdictOf(p.box)
  }

  ghost predicate BackedBoxes(r: Item, n: nat, evidence: seq<Evidence>)
    requires n <= |r.tracks|
  {
    forall j :: 0 <= j < n ==> BackedBox(BoxAt(r, j), evidence)
  }

  /** The result that a worker has so far. */
  function SoFar(w: Worker): Item {
    w.task.(tracks := w.tracks)
  }

  /** The boxes behind the loop are backed, and the box that is being worked on shows no decision yet. */
  ghost predicate BackedWorker(w: Worker, evidence: seq<Evidence>)
    requires w.i <= |w.tracks|
  {
    && BackedBoxes(SoFar(w), w.i, evidence)
    && (!w.phase.Cleaning? && !w.phase.Visiting? ==> w.i < |w.tracks| && Blank(w.tracks[w.i]))
    && (w.phase.Finishing? ==> w.i < |w.tracks| && Backed(KeyOf(w), w.phase.verdict, evidence))
  }

  ghost predicate BackedCache(cache: Cache, evidence: seq<Evidence>) {
    forall key :: key in cache && cache[key].Decided? ==> Backed(key, cache[key].verdict, evidence)
  }

  ghost predicate BackedResults(results: seq<Item>, evidence: seq<Evidence>) {
    forall n :: 0 <= n < |results| ==> BackedBoxes(results[n], |results[n].tracks|, evidence)
  }

  /** The face passed the quality gates, and the verdict is its match against one gallery that was loaded. */
  ghost predicate Genuine(e: Evidence, setup: Setup, galleries: seq<Gallery>) {
    && e.index < |e.task.tracks| && PassesGates(e.task.tracks, e.index, setup.gates)
    && e.gallery in galleries
    && var embedding := setup.embed(e.task.frame, e.task.tracks[e.index].face.value);
    && embedding.Some? && e.verdict == Judge(embedding.value, e.gallery, setup.threshold)
  }

  ghost predicate GenuineEvidence(s: Sys) {
    forall e :: e in s.evidence ==> Genuine(e, s.setup, s.galleries)
  }

  /** The same box, whatever decision it shows. */
  predicate SameBox(a: Box, b: Box) {
    a.rect == b.rect && a.id == b.id && a.score == b.score && a.face == b.face
  }

  /** Recognition changes what a box shows, never whose box it is, where it is or its face. */
  ghost predicate BoxesKept(tracks: seq<Box>, tracks': seq<Box>) {
    |tracks'| == |tracks| && forall j :: 0 <= j < |tracks| ==> SameBox(tracks'[j], tracks[j])
  }

  /** Why a box of the task shows no decision, if it does. */
  ghost predicate Explained(setup: Setup, task: Item, j: nat, box: Box)
    requires j < |task.tracks|
  {
    && (box.state == Skipped ==> !PassesGates(task.tracks, j, setup.gates))
    && (box.state == Pending ==> box.id >= 0)
    && (box.state == Failed ==>
          task.tracks[j].face.Some? && setup.embed(task.frame, task.tracks[j].face.value) == None)
  }

  ghost predicate AllExplained(setup: Setup, task: Item, tracks: seq<Box>, n: nat)
    requires n <= |tracks| == |task.tracks|
  {
    forall j :: 0 <= j < n ==> Explained(setup, task, j, tracks[j])
  }

  /** The two states that a verdict can have. */
  predicate Judged(v: Verdict) {
    v.state == Known || v.state == Unknown
  }

  /** A box that is being recognized has passed the gates with the boxes of the task. */
  ghost predicate GatedWorker(w: Worker, setup: Setup) {
    && BoxesKept(w.task.tracks, w.tracks)
    && w.i <= |w.tracks| && AllExplained(setup, w.task, w.tracks, w.i)
    && (w.phase.Clearing? ==>
          w.i < |w.tracks| && w.tracks[w.i].state == Failed && Explained(setup, w.task, w.i, w.tracks[w.i]))
    && (w.phase.Marking? || w.phase.Embedding? || w.phase.Reading? || w.phase.Finishing? ==>
          w.i < |w.tracks| && PassesGates(w.task.tracks, w.i, setup.gates))
    && (w.phase.Reading? ==>
          && w.i < |w.tracks| && w.task.tracks[w.i].face.Some?
          && setup.embed(w.task.frame, w.task.tracks[w.i].face.value) == Some(w.phase.embedding))
  }

  ghost predicate GatedWorkers(s: Sys) {
    forall id :: id in s.workers ==> GatedWorker(s.workers[id], s.setup)
  }

  /** The gates look at faces only. */
  lemma GatesSeeFaces(tracks: seq<Box>, tracks': seq<Box>, i: nat, gates: Gates)
    requires BoxesKept(tracks, tracks') && i < |tracks|
    ensures PassesGates(tracks', i, gates) <==> PassesGates(tracks, i, gates)
  {
    if tracks[i].face.Some? {
      forall j | 0 <= j < |tracks| ensures Overrules(tracks', j, i) <==> Overrules(tracks, j, i) {
      }
    }
  }

  lemma GatedStep(setup: Setup, gallery: Gallery, w: Worker, cache: Cache)
    requires Shaped(w) && !Done(w) && GatedWorker(w, setup) && AllJudged(w, cache)
    ensures GatedWorker(WorkerStep(setup, gallery, w, cache).0, setup)
  {
    if w.phase.Visiting? {
      GatedVisit(setup, w, cache);
    } else if w.phase.Marking? {
      GatedMark(setup, w, cache);
    }
  }

  lemma GatedNext(setup: Setup, w: Worker, box: Box)
    requires w.i < |w.tracks| && GatedWorker(w, setup)
    requires SameBox(box, w.tracks[w.i]) && Explained(setup, w.task, w.i, box)
    ensures GatedWorker(NextBox(w, box), setup)
  {
  }

  lemma ShownExplained(setup: Setup, w: Worker, box: Box, d: Decision)
    requires w.i < |w.tracks| && GatedWorker(w, setup) && SameBox(box, w.tracks[w.i]) && box.id >= 0
    requires d.Decided? ==> Judged(d.verdict)
    ensures SameBox(Shown(box, d), w.tracks[w.i]) && Explained(setup, w.task, w.i, Shown(box, d))
  {
  }

  lemma GatedVisit(setup: Setup, w: Worker, cache: Cache)
    requires Shaped(w) && !Done(w) && w.phase.Visiting? && GatedWorker(w, setup) && AllJudged(w, cache)
    ensures GatedWorker(Visit(w, cache, setup.gates).0, setup)
  {
    GatesSeeFaces(w.task.tracks, w.tracks, w.i, setup.gates);
    var box, key := NoDecision(w.tracks[w.i]), KeyOf(w);
    if box.id >= 0 && key in cache {
      ShownExplained(setup, w, box, cache[key]);
      GatedNext(setup, w, Shown(box, cache[key]));
    } else if !PassesGates(w.tracks, w.i, setup.gates) {
      GatedNext(setup, w, box);
    }
  }

  lemma GatedMark(setup: Setup, w: Worker, cache: Cache)
    requires Shaped(w) && w.phase.Marking? && GatedWorker(w, setup) && AllJudged(w, cache)
    ensures GatedWorker(MarkBox(w, cache).0, setup)
  {
    var box, key := w.tracks[w.i], KeyOf(w);
    if key in cache {
      ShownExplained(setup, w, box, cache[key]);
      GatedNext(setup, w, Shown(box, cache[key]));
    }
  }

  /** All verdicts that the worker might show. */
  ghost predicate AllJudged(w: Worker, cache: Cache) {
    && (w.phase.Finishing? ==> Judged(w.phase.verdict))
    && forall key :: key in cache && cache[key].Decided? ==> Judged(cache[key].verdict)
  }

  lemma BackedIsJudged(key: Key, v: Verdict, s: Sys)
    requires GenuineEvidence(s) && Backed(key, v, s.evidence)
    ensures Judged(v)
  {
    var e :| e in s.evidence && About(e, key) && e.verdict == v;
    assert Genuine(e, s.setup, s.galleries);
  }

  lemma EverythingJudged(s: Sys, id: int)
    requires BackedCache(s.cache, s.evidence) && BackedWorkers(s) && GenuineEvidence(s) && id in s.workers
    ensures AllJudged(s.workers[id], s.cache)
  {
    var w := s.workers[id];
    forall key | key in s.cache && s.cache[key].Decided? ensures Judged(s.cache[key].verdict) {
      BackedIsJudged(key, s.cache[key].verdict, s);
    }
    if w.phase.Finishing? {
      BackedIsJudged(KeyOf(w), w.phase.verdict, s);
    }
  }

  ghost predicate BackedWorkers(s: Sys) {
    forall id :: id in s.workers ==> s.workers[id].i <= |s.workers[id].tracks| && BackedWorker(s.workers[id], s.evidence)
  }

  ghost predicate EvidenceInv(s: Sys) {
    && BackedCache(s.cache, s.evidence) && BackedWorkers(s) && BackedResults(s.results, s.evidence)
    && GenuineEvidence(s) && GatedWorkers(s)
  }

  lemma BackedGrows(key: Key, v: Verdict, evidence: seq<Evidence>, e: Evidence)
    requires Backed(key, v, evidence)
    ensures Backed(key, v, evidence + [e])
  {
    var x :| x in evidence && About(x, key) && x.verdict == v;
    assert x in evidence + [e];
  }

  lemma BoxesGrow(r: Item, n: nat, evidence: seq<Evidence>, e: Evidence)
    requires n <= |r.tracks| && BackedBoxes(r, n, evidence)
    ensures BackedBoxes(r, n, evidence + [e])
  {
    forall j | 0 <= j < n ensures BackedBox(BoxAt(r, j), evidence + [e]) {
      var p := BoxAt(r, j);
      assert BackedBox(p, evidence);
      if !Blank(p.box) {
        var x :| x in evidence && SpeaksFor(x, p) && x.verdict == VerdictOf(p.box);
        assert x in evidence + [e];
      }
    }
  }

  /** More evidence backs all that was backed. */
  lemma EvidenceGrows(s: Sys, e: Evidence)
    requires BackedCache(s.cache, s.evidence) && BackedWorkers(s) && BackedResults(s.results, s.evidence)
    ensures BackedCache(s.cache, s.evidence + [e]) && BackedResults(s.results, s.evidence + [e])
    ensures BackedWorkers(s.(evidence := s.evidence + [e]))
  {
    forall key | key in s.cache && s.cache[key].Decided? ensures Backed(key, s.cache[key].verdict, s.evidence + [e]) {
      BackedGrows(key, s.cache[key].verdict, s.evidence, e);
    }
    forall n | 0 <= n < |s.results| ensures BackedBoxes(s.results[n], |s.results[n].tracks|, s.evidence + [e]) {
      BoxesGrow(s.results[n], |s.results[n].tracks|, s.evidence, e);
    }
    forall id | id in s.workers ensures BackedWorker(s.workers[id], s.evidence + [e]) {
      var w := s.workers[id];
      BoxesGrow(SoFar(w), w.i, s.evidence, e);
      if w.phase.Finishing? {
        BackedGrows(KeyOf(w), w.phase.verdict, s.evidence, e);
      }
    }
  }

  /** Where the box that the worker is at would stand in the result. */
  function Here(w: Worker, box: Box): Placed {
    Placed(w.task.frame, w.task.frameId, w.i, box)
  }

  lemma BackedNext(w: Worker, box: Box, evidence: seq<Evidence>)
    requires w.i < |w.tracks| && BackedBoxes(SoFar(w), w.i, evidence) && BackedBox(Here(w, box), evidence)
    ensures BackedWorker(NextBox(w, box), evidence)
  {
    var w' := NextBox(w, box);
    forall j | 0 <= j < w'.i ensures BackedBox(BoxAt(SoFar(w'), j), evidence) {
      if j < w.i {
        assert BoxAt(SoFar(w'), j) == BoxAt(SoFar(w), j);
      } else {
        assert BoxAt(SoFar(w'), j) == Here(w, box);
      }
    }
  }

  /** Changing the box that is being worked on leaves the boxes behind it backed. */
  lemma BackedSet(w: Worker, box: Box, phase: Phase, evidence: seq<Evidence>)
    requires w.i < |w.tracks| && BackedBoxes(SoFar(w), w.i, evidence)
    ensures BackedBoxes(SoFar(SetBox(w, box, phase)), w.i, evidence)
  {
    var w' := SetBox(w, box, phase);
    forall j | 0 <= j < w.i ensures BackedBox(BoxAt(SoFar(w'), j), evidence) {
      assert BoxAt(SoFar(w'), j) == BoxAt(SoFar(w), j);
    }
  }

  /** A verdict for a track backs every box of the track. */
  lemma TrackBacked(p: Placed, evidence: seq<Evidence>)
    requires p.box.id >= 0 && Backed((p.frame.streamId, p.box.id), VerdictOf(p.box), evidence)
    ensures BackedBox(p, evidence)
  {
  }

  /** What a lookup shows is backed, because the cache is; only boxes with a track id are looked up. */
  lemma ShownBacked(w: Worker, box: Box, cache: Cache, evidence: seq<Evidence>)
    requires BackedCache(cache, evidence) && box.id >= 0 && Blank(box)
    requires (w.task.frame.streamId, box.id) in cache
    ensures BackedBox(Here(w, Shown(box, cache[(w.task.frame.streamId, box.id)])), evidence)
  {
    var d := cache[(w.task.frame.streamId, box.id)];
    if d.Decided? {
      assert VerdictOf(Shown(box, d)) == d.verdict;
      TrackBacked(Here(w, Shown(box, d)), evidence);
    }
  }

  /** The step of one worker, except for the one that adds evidence. */
  lemma AdvanceBacked(s: Sys, id: int)
    requires Enabled(s, Advance(id)) && BackedCache(s.cache, s.evidence) && BackedWorkers(s)
    requires !s.workers[id].phase.Reading? && !Done(s.workers[id])
    ensures var t := AdvanceWorker(s, id);
            && id in t.workers && t.workers == s.workers[id := t.workers[id]]
            && t.workers[id].i <= |t.workers[id].tracks| && BackedWorker(t.workers[id], s.evidence)
            && BackedCache(t.cache, s.evidence)
  {
    var w := s.workers[id];
    match w.phase
    case Cleaning =>
    case Visiting =>
      var box, key := NoDecision(w.tracks[w.i]), KeyOf(w);
      if box.id >= 0 && key in s.cache {
        ShownBacked(w, box, s.cache, s.evidence);
        BackedNext(w, Shown(box, s.cache[key]), s.evidence);
      } else if !PassesGates(w.tracks, w.i, s.setup.gates) {
        BackedNext(w, box, s.evidence);
      } else {
        BackedSet(w, box, if box.id >= 0 then Marking else Embedding, s.evidence);
      }
    case Marking =>
      var box, key := w.tracks[w.i], KeyOf(w);
      if key in s.cache {
        ShownBacked(w, box, s.cache, s.evidence);
        BackedNext(w, Shown(box, s.cache[key]), s.evidence);
      } else {
        BackedSet(w, box.(state := Pending), Embedding, s.evidence);
      }
    case Embedding =>
      var box := w.tracks[w.i].(state := Failed);
      BackedSet(w, box, Clearing, s.evidence);
      BackedNext(w, box, s.evidence);
    case Finishing(v) =>
      var box := ApplyVerdict(w.tracks[w.i], v);
      assert VerdictOf(box) == v;
      TrackBacked(Here(w, box), s.evidence);
      BackedNext(w, box, s.evidence);
    case Clearing =>
      BackedNext(w, w.tracks[w.i], s.evidence);
  }

  lemma ReadingBacked(s: Sys, id: int)
    requires Enabled(s, Advance(id)) && EvidenceInv(s) && s.workers[id].phase.Reading?
    ensures EvidenceInv(AdvanceWorker(s, id))
  {
    var w, t := s.workers[id], AdvanceWorker(s, id);
    var e := t.evidence[|s.evidence|];
    EvidenceGrows(s, e);
    assert e in t.evidence && About(e, KeyOf(w)) && Backed(KeyOf(w), e.verdict, t.evidence);
    EverythingJudged(s, id);
    GatedStep(s.setup, Current(s), w, s.cache);
    assert BackedWorker(w, t.evidence);
    if w.tracks[w.i].id < 0 {
      var box := ApplyVerdict(w.tracks[w.i], e.verdict);
      assert SpeaksFor(e, Here(w, box)) && e.verdict == VerdictOf(box);
      BackedNext(w, box, t.evidence);
    }
    assert BackedWorker(t.workers[id], t.evidence);
    forall x | x in t.evidence ensures Genuine(x, t.setup, t.galleries) {
      assert x in s.evidence || x == e;
    }
  }

  lemma {:induction false} EvidenceStep(s: Sys, a: Action)
    requires EvidenceInv(s) && Enabled(s, a)
    ensures EvidenceInv(Next(s, a))
  {
    match a
    case Start(id, task) =>
    case SwapGallery(g) =>
      forall e | e in s.evidence ensures Genuine(e, s.setup, s.galleries + [g]) {
        assert Genuine(e, s.setup, s.galleries);
      }
    case ClearCache =>
    case Advance(id) =>
      var w := s.workers[id];
      if w.phase.Reading? {
        ReadingBacked(s, id);
      } else if !Done(w) {
        AdvanceBacked(s, id);
        EverythingJudged(s, id);
        GatedStep(s.setup, Current(s), w, s.cache);
      }
  }

  lemma {:induction false} RunEvidence(trace: seq<Sys>, actions: seq<Action>, n: nat)
    requires IsRun(trace, actions) && n < |trace|
    ensures EvidenceInv(trace[n])
  {
    if n > 0 {
      RunEvidence(trace, actions, n - 1);
      EvidenceStep(trace[n - 1], actions[n - 1]);
    }
  }

  /** The verdict of this evidence: a match that reached the threshold in one loaded, non-empty gallery. */
  ghost predicate Matched(e: Evidence, s: Sys, box: Box)
    requires Genuine(e, s.setup, s.galleries)
  {
    && e.gallery in s.galleries && e.gallery != []
    && var m := BestMatch(s.setup.embed(e.task.frame, e.task.tracks[e.index].face.value).value, e.gallery);
    && box.identityKey == m.identityKey && box.confidence == m.score >= s.setup.threshold && box.state == Known
  }

  /** Why the box may be shown: a face of its track, or its own if it has no track, passed the gates and was matched. */
  ghost predicate Reason(e: Evidence, s: Sys, p: Placed) {
    e in s.evidence && SpeaksFor(e, p) && Genuine(e, s.setup, s.galleries) && Matched(e, s, p.box)
  }

  ghost predicate Recognized(s: Sys, p: Placed) {
    exists e :: Reason(e, s, p)
  }

  lemma BackedIsRecognized(s: Sys, p: Placed)
    requires EvidenceInv(s) && BackedBox(p, s.evidence) && p.box.action == Allow
    ensures Recognized(s, p)
  {
    var e :| e in s.evidence && SpeaksFor(e, p) && e.verdict == VerdictOf(p.box);
    assert Genuine(e, s.setup, s.galleries);
    assert Reason(e, s, p);
  }

  /**
   Whatever the interleaving of workers, clean-up and reloads, a box of a result is allowed only if it was recognized:
   a box with a track id through a face of its track, a box without one only through its own face in its own frame.
   Skipped, pending, failed and unknown boxes are all to be anonymized.
   */
  lemma RecognitionFailsClosed(trace: seq<Sys>, actions: seq<Action>, n: nat, r: Item, j: nat)
    requires IsRun(trace, actions) && n < |trace| && r in trace[n].results && j < |r.tracks|
    ensures r.tracks[j].action == Allow ==> Recognized(trace[n], BoxAt(r, j))
  {
    var s := trace[n];
    RunEvidence(trace, actions, n);
    var k :| 0 <= k < |s.results| && s.results[k] == r;
    assert BackedBoxes(r, |r.tracks|, s.evidence);
    if r.tracks[j].action == Allow {
      BackedIsRecognized(s, BoxAt(r, j));
    }
  }

  // The tasks behind the evidence

  ghost predicate Started(actions: seq<Action>, task: Item) {
    exists m :: 0 <= m < |actions| && actions[m].Start? && actions[m].task == task
  }

  ghost predicate TasksStarted(s: Sys, actions: seq<Action>) {
    && (forall id :: id in s.workers ==> Started(actions, s.workers[id].task))
    && (forall e :: e in s.evidence ==> Started(actions, e.task))
  }

  lemma StartedStays(actions: seq<Action>, a: Action, task: Item)
    requires Started(actions, task)
    ensures Started(actions + [a], task)
  {
    var m :| 0 <= m < |actions| && actions[m].Start? && actions[m].task == task;
    assert (actions + [a])[m] == actions[m];
  }

  lemma StepStarted(s: Sys, actions: seq<Action>, a: Action)
    requires TasksStarted(s, actions) && Enabled(s, a)
    ensures TasksStarted(Next(s, a), actions + [a])
  {
    var t := Next(s, a);
    forall id | id in t.workers ensures Started(actions + [a], t.workers[id].task) {
      if a.Start? && id == a.worker {
        assert (actions + [a])[|actions|] == a;
      } else {
        StartedStays(actions, a, s.workers[id].task);
      }
    }
    forall e | e in t.evidence ensures Started(actions + [a], e.task) {
      StartedStays(actions, a, if e in s.evidence then e.task else s.workers[a.worker].task);
    }
  }

  /** Whatever a worker holds and whatever was judged comes from a task that was started. */
  lemma {:induction false} AllTasksStarted(trace: seq<Sys>, actions: seq<Action>, n: nat)
    requires IsRun(trace, actions) && n < |trace|
    ensures TasksStarted(trace[n], actions[..n])
  {
    if n > 0 {
      AllTasksStarted(trace, actions, n - 1);
      StepStarted(trace[n - 1], actions[..n - 1], actions[n - 1]);
      Sequences.PrefixGrows(actions, n);
    }
  }

  // One worker per track

  /** The frames in flight on one stream are at most the time-to-live apart. */
  ghost predicate Close(s: Sys) {
    forall a, b :: a in s.workers && b in s.workers
                   && s.workers[a].task.frame.streamId == s.workers[b].task.frame.streamId ==>
      s.workers[a].task.frameId - s.workers[b].task.frameId <= s.setup.ttl
  }

  ghost predicate SoleOwners(workers: map<int, Worker>) {
    forall a, b, key :: a in workers && b in workers && Owns(workers[a], key) && Owns(workers[b], key) ==> a == b
  }

  /** The entry of a track that is being embedded is pending since the owner's frame. */
  ghost predicate OwnersMarked(workers: map<int, Worker>, cache: Cache) {
    forall id, key :: id in workers && Owns(workers[id], key) ==>
      key in cache && cache[key] == InProgress(workers[id].task.frameId)
  }

  ghost predicate UniqueInv(s: Sys) {
    SoleOwners(s.workers) && OwnersMarked(s.workers, s.cache)
  }

  /** A worker that keeps or gives up what it owns, while the cache keeps the entries of the others. */
  lemma UniqueKept(s: Sys, id: int, w': Worker, cache: Cache)
    requires UniqueInv(s) && id in s.workers
    requires w'.task == s.workers[id].task
    requires forall key :: Owns(w', key) ==> Owns(s.workers[id], key) && key in cache && cache[key] == s.cache[key]
    requires forall o, key :: o in s.workers && o != id && Owns(s.workers[o], key) ==>
      key in cache && cache[key] == s.cache[key]
    ensures SoleOwners(s.workers[id := w']) && OwnersMarked(s.workers[id := w'], cache)
  {
    var workers := s.workers[id := w'];
    forall a, b, key | a in workers && b in workers && Owns(workers[a], key) && Owns(workers[b], key) ensures a == b {
      assert Owns(s.workers[a], key) && Owns(s.workers[b], key);
    }
    forall o, key | o in workers && Owns(workers[o], key)
      ensures key in cache && cache[key] == InProgress(workers[o].task.frameId)
    {
      assert Owns(s.workers[o], key);
    }
  }

  lemma UniqueMarked(s: Sys, id: int, w': Worker, key: Key, cache: Cache)
    requires UniqueInv(s) && id in s.workers && key !in s.cache && Owns(w', key)
    requires w'.task == s.workers[id].task && cache == s.cache[key := InProgress(w'.task.frameId)]
    ensures SoleOwners(s.workers[id := w']) && OwnersMarked(s.workers[id := w'], cache)
  {
    var workers := s.workers[id := w'];
    forall a, b, k | a in workers && b in workers && Owns(workers[a], k) && Owns(workers[b], k) ensures a == b {
      assert a != id ==> Owns(s.workers[a], k);
      assert b != id ==> Owns(s.workers[b], k);
    }
    forall o, k | o in workers && Owns(workers[o], k)
      ensures k in cache && cache[k] == InProgress(workers[o].task.frameId)
    {
      assert o != id ==> Owns(s.workers[o], k);
    }
  }

  lemma CleanupUnique(s: Sys, id: int)
    requires UniqueInv(s) && Close(s) && Enabled(s, Advance(id)) && s.workers[id].phase.Cleaning?
    ensures UniqueInv(AdvanceWorker(s, id))
  {
    var w := s.workers[id];
    var cache := Cleanup(s.cache, w.task.frame.streamId, w.task.frameId, s.setup.ttl);
    forall o, key | o in s.workers && o != id && Owns(s.workers[o], key)
      ensures key in cache && cache[key] == s.cache[key]
    {
      assert s.cache[key] == InProgress(s.workers[o].task.frameId);
    }
    UniqueKept(s, id, w.(phase := Visiting), cache);
  }

  lemma {:induction false} AdvanceUnique(s: Sys, id: int)
    requires UniqueInv(s) && Close(s) && Enabled(s, Advance(id))
    ensures UniqueInv(AdvanceWorker(s, id))
  {
    var w, t := s.workers[id], AdvanceWorker(s, id);
    if w.phase.Cleaning? {
      CleanupUnique(s, id);
    } else if Done(w) {
      forall o | o in t.workers ensures o in s.workers && t.workers[o] == s.workers[o] {
      }
    } else if w.phase.Marking? && KeyOf(w) !in s.cache {
      UniqueMarked(s, id, t.workers[id], KeyOf(w), t.cache);
    } else {
      OthersUntouched(s, id);
      UniqueKept(s, id, t.workers[id], t.cache);
    }
  }

  /** A finish or a clear only touches the entry of the worker itself, and a lookup no pending entry. */
  lemma OthersUntouched(s: Sys, id: int)
    requires UniqueInv(s) && Enabled(s, Advance(id))
    requires !s.workers[id].phase.Cleaning? && !Done(s.workers[id])
    requires !(s.workers[id].phase.Marking? && KeyOf(s.workers[id]) !in s.cache)
    ensures var t := AdvanceWorker(s, id);
            && id in t.workers && t.workers == s.workers[id := t.workers[id]] && t.workers[id].task == s.workers[id].task
            && (forall key :: Owns(t.workers[id], key) ==>
                  Owns(s.workers[id], key) && key in t.cache && t.cache[key] == s.cache[key])
            && (forall o, key :: o in s.workers && o != id && Owns(s.workers[o], key) ==>
                  key in t.cache && t.cache[key] == s.cache[key])
  {
    var w, t := s.workers[id], AdvanceWorker(s, id);
    forall o, key | o in s.workers && o != id && Owns(s.workers[o], key)
      ensures key in t.cache && t.cache[key] == s.cache[key]
    {
      assert s.cache[key].InProgress?;
      if w.phase.Finishing? || w.phase.Clearing? {
        assert Owns(w, KeyOf(w));
        assert key != KeyOf(w);
      }
    }
  }

  ghost predicate NoReload(actions: seq<Action>) {
    forall n :: 0 <= n < |actions| ==> !actions[n].SwapGallery? && !actions[n].ClearCache?
  }

  lemma {:induction false} UniqueStep(s: Sys, a: Action)
    requires UniqueInv(s) && Close(s) && Enabled(s, a) && !a.ClearCache?
    ensures UniqueInv(Next(s, a))
  {
    match a
    case Advance(id) => AdvanceUnique(s, id);
    case Start(id, task) =>
      forall o, key | o in Next(s, a).workers && Owns(Next(s, a).workers[o], key)
        ensures o in s.workers && Owns(s.workers[o], key)
      {
      }
    case _ =>
  }

  /** Without reloads, and with frames in flight that are close, at most one worker at a time embeds a track. */
  lemma {:induction false} OneWorkerPerTrack(trace: seq<Sys>, actions: seq<Action>, n: nat)
    requires IsRun(trace, actions) && NoReload(actions) && (forall k :: 0 <= k < |trace| ==> Close(trace[k]))
    requires n < |trace|
    ensures UniqueInv(trace[n])
  {
    if n > 0 {
      OneWorkerPerTrack(trace, actions, n - 1);
      UniqueStep(trace[n - 1], actions[n - 1]);
    }
  }

  lemma VerdictKept(s: Sys, a: Action, key: Key)
    requires UniqueInv(s) && Enabled(s, a) && !a.ClearCache?
    requires key in s.cache && s.cache[key].Decided? && key in Next(s, a).cache
    ensures Next(s, a).cache[key].Decided? && Next(s, a).cache[key].verdict == s.cache[key].verdict
  {
    if a.Advance? && (s.workers[a.worker].phase.Finishing? || s.workers[a.worker].phase.Clearing?) {
      assert Owns(s.workers[a.worker], KeyOf(s.workers[a.worker]));
    }
  }

  lemma VerdictKeptNext(trace: seq<Sys>, actions: seq<Action>, n: nat, key: Key)
    requires IsRun(trace, actions) && NoReload(actions) && n + 1 < |trace| && UniqueInv(trace[n])
    requires key in trace[n].cache && trace[n].cache[key].Decided? && key in trace[n + 1].cache
    ensures trace[n + 1].cache[key].Decided? && trace[n + 1].cache[key].verdict == trace[n].cache[key].verdict
  {
    VerdictKept(trace[n], actions[n], key);
  }

  /** And a finished verdict is what every later frame finds until the entry is evicted. */
  lemma {:induction false} VerdictStable(trace: seq<Sys>, actions: seq<Action>, m: nat, n: nat, key: Key)
    requires IsRun(trace, actions) && NoReload(actions) && (forall k :: 0 <= k < |trace| ==> Close(trace[k]))
    requires m <= n < |trace| && (forall k :: m <= k <= n ==> key in trace[k].cache) && trace[m].cache[key].Decided?
    ensures trace[n].cache[key].Decided? && trace[n].cache[key].verdict == trace[m].cache[key].verdict
  {
    if m < n {
      VerdictStable(trace, actions, m, n - 1, key);
      OneWorkerPerTrack(trace, actions, n - 1);
      VerdictKeptNext(trace, actions, n - 1, key);
    }
  }
}
