/**
 What the recognizer makes of every box, over any interleaving of workers, clean-up and reloads: why a box shows no
 decision, that a finished decision is shown as a whole, and how long it is kept.
 */
module RecognizerOutcomes {
  import opened Types
  import Sequences
  import opened Geometry
  import opened CoordinatorSpec
  import opened RecognizerSpec
  import opened RecognizerWorkers
  import opened RecognizerTheorems

  // Why a box shows what it shows

  /** A fresh face with five landmarks that scores high enough, is large enough and has an accepted pose. */
  predicate Usable(face: Face, gates: Gates) {
    && face.isFresh && face.landmarkCount == 5 && face.score >= gates.minFaceScore
    && face.bbox.w >= gates.minFaceSize && face.bbox.h >= gates.minFaceSize && gates.pose(face)
  }

  /** Another box shows a fresh face at the same place that scores higher, or as high and comes first. */
  ghost predicate Beaten(tracks: seq<Box>, i: nat, face: Face) {
    exists j :: 0 <= j < |tracks| && j != i && tracks[j].face.Some? && tracks[j].face.value.isFresh
                && Iou(face.bbox, tracks[j].face.value.bbox) > 0.45
                && (tracks[j].face.value.score > face.score || (tracks[j].face.value.score == face.score && j < i))
  }

  ghost predicate ShowsGoodFace(tracks: seq<Box>, i: nat, gates: Gates)
    requires i < |tracks|
  {
    tracks[i].face.Some? && Usable(tracks[i].face.value, gates) && !Beaten(tracks, i, tracks[i].face.value)
  }

  lemma PassesMeansGood(tracks: seq<Box>, i: nat, gates: Gates)
    requires i < |tracks|
    ensures PassesGates(tracks, i, gates) <==> ShowsGoodFace(tracks, i, gates)
  {
    if tracks[i].face.Some? {
      assert forall j :: 0 <= j < |tracks| && Overrules(tracks, j, i) ==> Beaten(tracks, i, tracks[i].face.value);
      if Beaten(tracks, i, tracks[i].face.value) {
        var face := tracks[i].face.value;
        var j :| 0 <= j < |tracks| && j != i && tracks[j].face.Some? && tracks[j].face.value.isFresh
                 && Iou(face.bbox, tracks[j].face.value.bbox) > 0.45
                 && (tracks[j].face.value.score > face.score || (tracks[j].face.value.score == face.score && j < i));
        assert Overrules(tracks, j, i);
      }
    }
  }

  /** The verdict of a match of this embedding against this gallery. */
  ghost predicate VerdictFor(v: Verdict, embedding: seq<real>, gallery: Gallery, threshold: real) {
    if exists i :: 0 <= i < |gallery| && Similarity(embedding, gallery[i]) >= threshold then
      v.action == Allow && v.state == Known && exists i ::
        && FirstMaximum(embedding, gallery, |gallery|, i)
        && v.identityKey == gallery[i].identityKey && v.confidence == Similarity(embedding, gallery[i])
    else
      && v.action == Anonymize && v.state == Unknown && v.identityKey == ""
      && if gallery == [] then v.confidence == 0.0
         else exists i :: FirstMaximum(embedding, gallery, |gallery|, i)
                          && v.confidence == Similarity(embedding, gallery[i])
  }

  lemma JudgeIsVerdict(embedding: seq<real>, gallery: Gallery, threshold: real)
    ensures VerdictFor(Judge(embedding, gallery, threshold), embedding, gallery, threshold)
  {
    BestIsFirstMaximum(embedding, gallery, |gallery|);
  }

  /** The evidence was obtained from a good face by the network and one gallery that was loaded. */
  ghost predicate Sound(e: Evidence, s: Sys) {
    && e.index < |e.task.tracks| && ShowsGoodFace(e.task.tracks, e.index, s.setup.gates) && e.gallery in s.galleries
    && var embedding := s.setup.embed(e.task.frame, e.task.tracks[e.index].face.value);
    && embedding.Some? && VerdictFor(e.verdict, embedding.value, e.gallery, s.setup.threshold)
  }

  ghost predicate Decided(p: Placed, s: Sys) {
    exists e :: e in s.evidence && SpeaksFor(e, p) && e.verdict == VerdictOf(p.box) && Sound(e, s)
  }

  /** A worker on the task stands at box `j` while another worker embeds its track. */
  ghost predicate HeldAt(s: Sys, id: int, o: int, task: Item, j: nat) {
    && id in s.workers && o in s.workers && o != id && s.workers[id].task == task && s.workers[id].i == j < |task.tracks|
    && Owns(s.workers[o], (task.frame.streamId, task.tracks[j].id))
  }

  ghost predicate HeldByOther(trace: seq<Sys>, n: nat, task: Item, j: nat)
    requires n < |trace|
  {
    exists k, id, o :: 0 <= k < n && HeldAt(trace[k], id, o, task, j)
  }

  /**
   Skipped: no good face. Failed: the network failed on the face. Pending: another worker was embedding the track. Known
   or unknown: on evidence for the track, or for the box itself if it has no track.
   */
  ghost predicate Outcome(p: Placed, task: Item, trace: seq<Sys>, n: nat)
    requires p.index < |task.tracks| && n < |trace|
  {
    match p.box.state
    case Skipped => Blank(p.box) && !ShowsGoodFace(task.tracks, p.index, trace[n].setup.gates)
    case Failed => Blank(p.box) && task.tracks[p.index].face.Some?
                   && trace[n].setup.embed(task.frame, task.tracks[p.index].face.value) == None
    case Pending => Blank(p.box) && p.box.id >= 0 && HeldByOther(trace, n, task, p.index)
    case Known => Decided(p, trace[n])
    case Unknown => Decided(p, trace[n])
    case _ => false
  }

  /** The result of a task: the same boxes in the same places, each with its outcome. */
  ghost predicate ResultOf(r: Item, task: Item, trace: seq<Sys>, n: nat)
    requires n < |trace|
  {
    && r.frame == task.frame && r.frameId == task.frameId && BoxesKept(task.tracks, r.tracks)
    && forall j :: 0 <= j < |r.tracks| ==> Outcome(BoxAt(r, j), task, trace, n)
  }

  // Pending boxes

  ghost predicate PendingHeld(tracks: seq<Box>, m: nat, trace: seq<Sys>, n: nat, task: Item)
    requires m <= |tracks| && n < |trace|
  {
    forall j :: 0 <= j < m && tracks[j].state == Pending ==> HeldByOther(trace, n, task, j)
  }

  lemma HeldStays(tracks: seq<Box>, m: nat, trace: seq<Sys>, n: nat, task: Item)
    requires m <= |tracks| && n + 1 < |trace| && PendingHeld(tracks, m, trace, n, task)
    ensures PendingHeld(tracks, m, trace, n + 1, task)
  {
    forall j | 0 <= j < m && tracks[j].state == Pending ensures HeldByOther(trace, n + 1, task, j) {
      var k, id, o :| 0 <= k < n && HeldAt(trace[k], id, o, task, j);
      assert 0 <= k < n + 1;
    }
  }

  lemma NextBoxHeld(s: Sys, id: int)
    requires OwnerInv(s) && EvidenceInv(s) && Enabled(s, Advance(id)) && !Done(s.workers[id])
    requires var w, w' := s.workers[id], AdvanceWorker(s, id).workers[id];
             w'.i == w.i + 1 && w'.tracks[w.i].state == Pending
    ensures exists o :: HeldAt(s, id, o, s.workers[id].task, s.workers[id].i)
  {
    var w := s.workers[id];
    EverythingJudged(s, id);
    assert GatedWorker(w, s.setup);
    PendingIsFound(s, id);
    var o :| o in s.workers && Owns(s.workers[o], KeyOf(w));
    assert HeldAt(s, id, o, w.task, w.i);
  }

  lemma OneBoxAtMost(s: Sys, id: int)
    requires Enabled(s, Advance(id)) && !Done(s.workers[id])
    ensures var w, w' := s.workers[id], AdvanceWorker(s, id).workers[id];
            && w'.task == w.task && w.i <= w'.i <= w.i + 1 && w'.i <= |w'.tracks| && |w'.tracks| == |w.tracks|
            && (forall j :: 0 <= j < w.i ==> w'.tracks[j] == w.tracks[j])
  {
  }

  lemma PendingIsFound(s: Sys, id: int)
    requires OwnerInv(s) && Enabled(s, Advance(id)) && !Done(s.workers[id]) && AllJudged(s.workers[id], s.cache)
    requires GatedWorker(s.workers[id], s.setup)
    requires var w, w' := s.workers[id], AdvanceWorker(s, id).workers[id];
             w'.i == w.i + 1 && w'.tracks[w.i].state == Pending
    ensures var w := s.workers[id];
            (w.phase.Visiting? || w.phase.Marking?) && KeyOf(w) in s.cache && s.cache[KeyOf(w)].InProgress?
  {
  }

  ghost predicate WorkerHeld(w: Worker, trace: seq<Sys>, n: nat)
    requires n < |trace|
  {
    w.i <= |w.tracks| && PendingHeld(w.tracks, w.i, trace, n, w.task)
  }

  ghost predicate WorkersHeld(trace: seq<Sys>, n: nat)
    requires n < |trace|
  {
    forall id :: id in trace[n].workers ==> WorkerHeld(trace[n].workers[id], trace, n)
  }

  lemma AdvancedHeld(trace: seq<Sys>, actions: seq<Action>, n: nat, id: int)
    requires IsRun(trace, actions) && n < |actions| && actions[n] == Advance(id) && WorkersHeld(trace, n)
    requires !Done(trace[n].workers[id])
    ensures WorkerHeld(trace[n + 1].workers[id], trace, n + 1)
  {
    var w, w' := trace[n].workers[id], trace[n + 1].workers[id];
    NoOrphans(trace, actions, n);
    RunEvidence(trace, actions, n);
    OneBoxAtMost(trace[n], id);
    HeldStays(w.tracks, w.i, trace, n, w.task);
    forall j | 0 <= j < w'.i && w'.tracks[j].state == Pending ensures HeldByOther(trace, n + 1, w'.task, j) {
      if j == w.i {
        NextBoxHeld(trace[n], id);
        var o :| HeldAt(trace[n], id, o, w.task, w.i);
        assert 0 <= n < n + 1;
      }
    }
  }

  lemma StepHeld(trace: seq<Sys>, actions: seq<Action>, n: nat)
    requires IsRun(trace, actions) && n < |actions| && WorkersHeld(trace, n)
    ensures WorkersHeld(trace, n + 1)
  {
    var s, a, t := trace[n], actions[n], trace[n + 1];
    forall id | id in t.workers ensures WorkerHeld(t.workers[id], trace, n + 1) {
      if a == Advance(id) {
        AdvancedHeld(trace, actions, n, id);
      } else if id in s.workers {
        assert t.workers[id] == s.workers[id];
        HeldStays(s.workers[id].tracks, s.workers[id].i, trace, n, s.workers[id].task);
      }
    }
  }

  lemma {:induction false} RunHeld(trace: seq<Sys>, actions: seq<Action>, n: nat)
    requires IsRun(trace, actions) && n < |trace|
    ensures WorkersHeld(trace, n)
  {
    if n > 0 {
      RunHeld(trace, actions, n - 1);
      StepHeld(trace, actions, n - 1);
    }
  }

  // Results

  ghost predicate FinishedFrom(r: Item, task: Item, trace: seq<Sys>, n: nat)
    requires n < |trace|
  {
    && r.frame == task.frame && r.frameId == task.frameId && BoxesKept(task.tracks, r.tracks)
    && AllExplained(trace[n].setup, task, r.tracks, |r.tracks|) && PendingHeld(r.tracks, |r.tracks|, trace, n, task)
  }

  ghost predicate Finished(r: Item, trace: seq<Sys>, actions: seq<Action>, n: nat)
    requires n < |trace| && n <= |actions|
  {
    exists task :: Started(actions[..n], task) && FinishedFrom(r, task, trace, n)
  }

  lemma FinishedStays(r: Item, trace: seq<Sys>, actions: seq<Action>, n: nat)
    requires IsRun(trace, actions) && n < |actions| && Finished(r, trace, actions, n)
    ensures Finished(r, trace, actions, n + 1)
  {
    var task :| Started(actions[..n], task) && FinishedFrom(r, task, trace, n);
    Sequences.PrefixGrows(actions, n + 1);
    StartedStays(actions[..n], actions[n], task);
    SameSetup(trace, actions, n);
    FinishedFromStays(r, task, trace, n);
  }

  lemma SameSetup(trace: seq<Sys>, actions: seq<Action>, n: nat)
    requires IsRun(trace, actions) && n < |actions|
    ensures trace[n + 1].setup == trace[n].setup
  {
  }

  lemma FinishedFromStays(r: Item, task: Item, trace: seq<Sys>, n: nat)
    requires n + 1 < |trace| && trace[n + 1].setup == trace[n].setup && FinishedFrom(r, task, trace, n)
    ensures FinishedFrom(r, task, trace, n + 1)
  {
    HeldStays(r.tracks, |r.tracks|, trace, n, task);
  }

  lemma NowFinished(trace: seq<Sys>, actions: seq<Action>, n: nat, id: int)
    requires IsRun(trace, actions) && n < |trace| && id in trace[n].workers && Done(trace[n].workers[id])
    ensures var w := trace[n].workers[id]; Finished(w.task.(tracks := w.tracks), trace, actions, n)
  {
    var w := trace[n].workers[id];
    AllTasksStarted(trace, actions, n);
    RunEvidence(trace, actions, n);
    RunHeld(trace, actions, n);
    assert Started(actions[..n], w.task) && GatedWorker(w, trace[n].setup);
    assert FinishedFrom(w.task.(tracks := w.tracks), w.task, trace, n);
  }

  lemma {:induction false} RunFinished(trace: seq<Sys>, actions: seq<Action>, n: nat, r: Item)
    requires IsRun(trace, actions) && n < |trace| && r in trace[n].results
    ensures Finished(r, trace, actions, n)
  {
    if n > 0 {
      var s, a := trace[n - 1], actions[n - 1];
      if r in s.results {
        RunFinished(trace, actions, n - 1, r);
      } else {
        assert a.Advance? && Done(s.workers[a.worker]);
        NowFinished(trace, actions, n - 1, a.worker);
      }
      FinishedStays(r, trace, actions, n - 1);
    }
  }

  lemma GenuineIsSound(e: Evidence, s: Sys)
    requires Genuine(e, s.setup, s.galleries)
    ensures Sound(e, s)
  {
    PassesMeansGood(e.task.tracks, e.index, s.setup.gates);
    JudgeIsVerdict(s.setup.embed(e.task.frame, e.task.tracks[e.index].face.value).value, e.gallery, s.setup.threshold);
  }

  lemma OutcomeOf(p: Placed, task: Item, trace: seq<Sys>, n: nat)
    requires n < |trace| && GenuineEvidence(trace[n]) && BackedBox(p, trace[n].evidence)
    requires p.index < |task.tracks| && Explained(trace[n].setup, task, p.index, p.box)
    requires p.box.state == Pending ==> HeldByOther(trace, n, task, p.index)
    ensures Outcome(p, task, trace, n)
  {
    var s := trace[n];
    PassesMeansGood(task.tracks, p.index, s.setup.gates);
    if !Blank(p.box) {
      var e :| e in s.evidence && SpeaksFor(e, p) && e.verdict == VerdictOf(p.box);
      assert Genuine(e, s.setup, s.galleries);
      GenuineIsSound(e, s);
      assert Judged(e.verdict);
    }
  }

  /** Every result is the outcome of a task that was started: no box is lost, moved or left without a reason. */
  lemma EveryBoxIsAccountedFor(trace: seq<Sys>, actions: seq<Action>, n: nat, r: Item)
    requires IsRun(trace, actions) && n < |trace| && r in trace[n].results
    ensures exists task :: Started(actions[..n], task) && ResultOf(r, task, trace, n)
  {
    var s := trace[n];
    RunFinished(trace, actions, n, r);
    RunEvidence(trace, actions, n);
    var task :| Started(actions[..n], task) && FinishedFrom(r, task, trace, n);
    var i :| 0 <= i < |s.results| && s.results[i] == r;
    forall j | 0 <= j < |r.tracks| ensures Outcome(BoxAt(r, j), task, trace, n) {
      assert BackedBox(BoxAt(r, j), s.evidence);
      OutcomeOf(BoxAt(r, j), task, trace, n);
    }
    assert ResultOf(r, task, trace, n);
  }

  // A finished decision is shown

  ghost predicate DecidedAs(cache: Cache, key: Key, v: Verdict) {
    key in cache && cache[key].Decided? && cache[key].verdict == v
  }

  /** The boxes of the track behind the loop show the verdict, and none of them is embedded. */
  ghost predicate ShowsSoFar(w: Worker, key: Key, v: Verdict) {
    && w.i <= |w.tracks|
    && (forall j :: 0 <= j < w.i && w.tracks[j].id == key.1 ==> VerdictOf(w.tracks[j]) == v)
    && (w.i < |w.tracks| && w.tracks[w.i].id == key.1 ==> w.phase.Cleaning? || w.phase.Visiting?)
  }

  lemma StepShows(setup: Setup, gallery: Gallery, w: Worker, cache: Cache, key: Key, v: Verdict)
    requires Shaped(w) && !Done(w) && key.0 == w.task.frame.streamId && key.1 >= 0
    requires ShowsSoFar(w, key, v) && DecidedAs(cache, key, v)
    ensures ShowsSoFar(WorkerStep(setup, gallery, w, cache).0, key, v)
  {
    if w.i < |w.tracks| && w.tracks[w.i].id == key.1 {
      assert KeyOf(w) == key;
    }
  }

  ghost predicate KeptWorking(trace: seq<Sys>, id: int, m: nat, n: nat) {
    n < |trace| && forall k :: m < k <= n ==> id in trace[k].workers
  }

  /** The worker is still on the task, and its boxes of the track show the verdict. */
  ghost predicate ShowsAt(s: Sys, id: int, task: Item, key: Key, v: Verdict) {
    id in s.workers && s.workers[id].task == task && ShowsSoFar(s.workers[id], key, v)
  }

  lemma StartShows(trace: seq<Sys>, actions: seq<Action>, id: int, task: Item, m: nat, key: Key, v: Verdict)
    requires IsRun(trace, actions) && m < |actions| && actions[m] == Start(id, task)
    ensures ShowsAt(trace[m + 1], id, task, key, v)
  {
  }

  lemma RunShows(trace: seq<Sys>, actions: seq<Action>, id: int, task: Item, n: nat, key: Key, v: Verdict)
    requires IsRun(trace, actions) && n < |actions| && id in trace[n + 1].workers
    requires key.0 == task.frame.streamId && key.1 >= 0
    requires ShowsAt(trace[n], id, task, key, v) && DecidedAs(trace[n].cache, key, v)
    ensures ShowsAt(trace[n + 1], id, task, key, v)
  {
    NextShows(trace[n], actions[n], id, key, v);
  }

  lemma {:induction false} ShowsThroughout(trace: seq<Sys>, id: int, task: Item, m: nat, n: nat, key: Key, v: Verdict)
    requires m < n < |trace| && ShowsAt(trace[m + 1], id, task, key, v)
    requires forall k :: m < k < n && ShowsAt(trace[k], id, task, key, v) ==> ShowsAt(trace[k + 1], id, task, key, v)
    ensures ShowsAt(trace[n], id, task, key, v)
    decreases n
  {
    if n > m + 1 {
      ShowsThroughout(trace, id, task, m, n - 1, key, v);
    }
  }

  lemma WorkerShows(trace: seq<Sys>, actions: seq<Action>, id: int, task: Item, m: nat, n: nat, key: Key, v: Verdict)
    requires IsRun(trace, actions) && m < n && KeptWorking(trace, id, m, n) && actions[m] == Start(id, task)
    requires key.0 == task.frame.streamId && key.1 >= 0
    requires forall k :: m < k <= n ==> DecidedAs(trace[k].cache, key, v)
    ensures ShowsAt(trace[n], id, task, key, v)
  {
    StartShows(trace, actions, id, task, m, key, v);
    forall k | m < k < n && ShowsAt(trace[k], id, task, key, v) ensures ShowsAt(trace[k + 1], id, task, key, v) {
      RunShows(trace, actions, id, task, k, key, v);
    }
    ShowsThroughout(trace, id, task, m, n, key, v);
  }

  lemma NextShows(s: Sys, a: Action, id: int, key: Key, v: Verdict)
    requires Enabled(s, a) && id in s.workers && id in Next(s, a).workers
    requires key.0 == s.workers[id].task.frame.streamId && key.1 >= 0
    requires ShowsSoFar(s.workers[id], key, v) && DecidedAs(s.cache, key, v)
    ensures Next(s, a).workers[id].task == s.workers[id].task && ShowsSoFar(Next(s, a).workers[id], key, v)
  {
    if a == Advance(id) && !Done(s.workers[id]) {
      StepShrinks(s.setup, Current(s), s.workers[id], s.cache);
      StepShows(s.setup, Current(s), s.workers[id], s.cache, key, v);
    }
  }

  /** The worker started at step `m` delivers its result at step `n`. */
  ghost predicate Delivers(trace: seq<Sys>, actions: seq<Action>, id: int, task: Item, m: nat, n: nat) {
    && IsRun(trace, actions) && m < n < |actions| && KeptWorking(trace, id, m, n)
    && actions[m] == Start(id, task) && actions[n] == Advance(id) && |trace[n + 1].results| > |trace[n].results|
  }

  /**
   If a track has a finished decision from the start of a worker to its result, every box of the track in this result
   shows exactly that decision: key, confidence, action and state.
   */
  lemma DecidedIsShown(trace: seq<Sys>, actions: seq<Action>, id: int, task: Item, m: nat, n: nat, key: Key, v: Verdict)
    requires Delivers(trace, actions, id, task, m, n) && key.0 == task.frame.streamId && key.1 >= 0
    requires forall k :: m < k <= n ==> DecidedAs(trace[k].cache, key, v)
    ensures var r := trace[n + 1].results[|trace[n].results|];
            && r.frame == task.frame && BoxesKept(task.tracks, r.tracks)
            && forall j :: 0 <= j < |task.tracks| && task.tracks[j].id == key.1 ==> VerdictOf(r.tracks[j]) == v
  {
    WorkerShows(trace, actions, id, task, m, n, key, v);
    RunEvidence(trace, actions, n);
    assert GatedWorker(trace[n].workers[id], trace[n].setup);
    assert trace[n + 1] == Next(trace[n], actions[n]);
  }

  lemma {:induction false} StaysDecided(trace: seq<Sys>, actions: seq<Action>, m: nat, n: nat, key: Key)
    requires IsRun(trace, actions) && NoReload(actions) && (forall k :: 0 <= k < |trace| ==> Close(trace[k]))
    requires m <= n < |trace| && (forall k :: m <= k <= n ==> key in trace[k].cache) && trace[m].cache[key].Decided?
    ensures forall k :: m <= k <= n ==> DecidedAs(trace[k].cache, key, trace[m].cache[key].verdict)
  {
    forall k | m <= k <= n ensures DecidedAs(trace[k].cache, key, trace[m].cache[key].verdict) {
      VerdictStable(trace, actions, m, k, key);
    }
  }

  /**
   So, without reloads and with frames in flight that are close, a person who was recognized once is shown as such on
   every later frame until the entry is evicted.
   */
  lemma RecognizedStaysRecognized(trace: seq<Sys>, actions: seq<Action>, id: int, task: Item, m: nat, n: nat, key: Key)
    requires Delivers(trace, actions, id, task, m, n) && key.0 == task.frame.streamId && key.1 >= 0
    requires NoReload(actions) && (forall k :: 0 <= k < |trace| ==> Close(trace[k]))
    requires (forall k :: m <= k <= n ==> key in trace[k].cache) && trace[m].cache[key].Decided?
    ensures var r := trace[n + 1].results[|trace[n].results|];
            && r.frame == task.frame && BoxesKept(task.tracks, r.tracks)
            && forall j :: 0 <= j < |task.tracks| && task.tracks[j].id == key.1 ==>
                 VerdictOf(r.tracks[j]) == trace[m].cache[key].verdict
  {
    StaysDecided(trace, actions, m, n, key);
    DecidedIsShown(trace, actions, id, task, m, n, key, trace[m].cache[key].verdict);
  }

  // How long a decision is kept

  /** In this step a worker for frame `f` finishes the decision of the track, or finds it finished. */
  ghost predicate Sees(s: Sys, a: Action, key: Key, f: int) {
    && a.Advance? && Enabled(s, a)
    && var w := s.workers[a.worker];
    && !Done(w) && w.i < |w.tracks| && KeyOf(w) == key && key.1 >= 0 && w.task.frameId == f
    && (w.phase.Finishing?
        || ((w.phase.Visiting? || w.phase.Marking?) && key in s.cache && s.cache[key].Decided?))
  }

  /** In this step a worker of the stream cleans up for a frame more than the time-to-live after `f`. */
  ghost predicate Expires(s: Sys, a: Action, key: Key, f: int) {
    && a.Advance? && Enabled(s, a)
    && var w := s.workers[a.worker];
    && w.phase.Cleaning? && w.task.frame.streamId == key.0 && w.task.frameId - f > s.setup.ttl
  }

  lemma SeenIsRefreshed(s: Sys, a: Action, key: Key, f: int)
    requires Sees(s, a, key, f)
    ensures key in Next(s, a).cache && Next(s, a).cache[key].Decided? && Next(s, a).cache[key].lastSeen == f
  {
  }

  lemma UnseenStays(s: Sys, a: Action, key: Key)
    requires Enabled(s, a) && key in s.cache && s.cache[key].Decided? && forall f :: !Sees(s, a, key, f)
    ensures key !in Next(s, a).cache <==> a.ClearCache? || Expires(s, a, key, s.cache[key].lastSeen)
    ensures key in Next(s, a).cache ==> Next(s, a).cache[key] == s.cache[key]
  {
    if a.Advance? {
      var w := s.workers[a.worker];
      assert !Sees(s, a, key, w.task.frameId);
      if !Done(w) && w.i < |w.tracks| && KeyOf(w) == key {
        assert w.phase.Finishing? || w.phase.Visiting? || w.phase.Marking? ==> w.phase.Visiting? && key.1 < 0;
      }
    }
  }

  /** After it was seen for frame `f` at step `m`, the decision was not seen again before step `n`. */
  ghost predicate LastSeenAt(trace: seq<Sys>, actions: seq<Action>, m: nat, n: nat, key: Key, f: int) {
    && IsRun(trace, actions) && m < n < |trace| && Sees(trace[m], actions[m], key, f)
    && (forall k :: m < k <= n ==> key in trace[k].cache)
    && (forall k, g :: m < k < n ==> !Sees(trace[k], actions[k], key, g))
  }

  lemma {:induction false} LastSeenIs(trace: seq<Sys>, actions: seq<Action>, m: nat, n: nat, key: Key, f: int)
    requires LastSeenAt(trace, actions, m, n, key, f)
    ensures key in trace[n].cache && trace[n].cache[key].Decided? && trace[n].cache[key].lastSeen == f
    decreases n
  {
    if n == m + 1 {
      assert trace[m + 1] == Next(trace[m], actions[m]);
      SeenIsRefreshed(trace[m], actions[m], key, f);
    } else {
      LastSeenIs(trace, actions, m, n - 1, key, f);
      assert trace[n - 1 + 1] == Next(trace[n - 1], actions[n - 1]);
      UnseenStays(trace[n - 1], actions[n - 1], key);
    }
  }

  /**
   A finished decision that was last seen for frame `f` is dropped by the next step exactly when that step clears the cache
   after a reload, or cleans up for a frame of the stream more than the time-to-live after `f`.
   */
  lemma EvictedExactlyWhenExpired(trace: seq<Sys>, actions: seq<Action>, m: nat, n: nat, key: Key, f: int)
    requires LastSeenAt(trace, actions, m, n, key, f) && n < |actions|
    ensures key !in trace[n + 1].cache <==> actions[n].ClearCache? || Expires(trace[n], actions[n], key, f)
  {
    LastSeenIs(trace, actions, m, n, key, f);
    assert trace[n + 1] == Next(trace[n], actions[n]);
    if g :| Sees(trace[n], actions[n], key, g) {
      SeenIsRefreshed(trace[n], actions[n], key, g);
    } else {
      UnseenStays(trace[n], actions[n], key);
    }
  }
}
