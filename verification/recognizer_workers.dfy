/**
 Many workers that share one decision cache and one gallery. Every section that holds a mutex is one atomic step, so a
 run is any interleaving of worker steps, new tasks and gallery reloads.
 */
module RecognizerWorkers {
  import opened Types
  import opened CoordinatorSpec
  import opened RecognizerSpec

  /** `embed` stands for the network; it has no result when it throws. */
  datatype Setup = Setup(threshold: real, ttl: int, gates: Gates, embed: (Frame, Face) -> Option<seq<real>>)

  /** Where a worker stands in `recognize`: which mutex section, or which long computation, comes next. */
  datatype Phase =
    | Cleaning
    | Visiting
    | Marking
    | Embedding
    | Reading(embedding: seq<real>)
    | Finishing(verdict: Verdict)
    | Clearing

  /** `tracks` are the boxes of the result so far; the loop stands at box `i`. */
  datatype Worker = Worker(task: Item, tracks: seq<Box>, i: nat, phase: Phase)

  /** A verdict that was computed, and what it was computed from: the face of box `index` of a task, and a gallery. */
  datatype Evidence = Evidence(task: Item, index: nat, gallery: Gallery, verdict: Verdict)

  /** The last of `galleries` is the current one; a reload that has swapped it in still has to clear the cache. */
  datatype Sys = Sys(
    setup: Setup,
    workers: map<int, Worker>,
    cache: Cache,
    galleries: seq<Gallery>,
    uncleared: nat,
    evidence: seq<Evidence>,
    results: seq<Item>)

  function Fresh(setup: Setup, gallery: Gallery): Sys {
    Sys(setup, map[], map[], [gallery], 0, [], [])
  }

  datatype Action =
    | Start(worker: int, task: Item)
    | Advance(worker: int)
    | SwapGallery(next: Gallery)
    | ClearCache

  // One worker

  function KeyOf(w: Worker): Key
    requires w.i < |w.tracks|
  {
    (w.task.frame.streamId, w.tracks[w.i].id)
  }

  ghost predicate Shaped(w: Worker) {
    && w.i <= |w.tracks|
    && (!w.phase.Cleaning? && !w.phase.Visiting? ==> w.i < |w.tracks| && w.tracks[w.i].face.Some?)
    && (w.phase.Marking? || w.phase.Finishing? || w.phase.Clearing? ==> w.tracks[w.i].id >= 0)
  }

  function NextBox(w: Worker, box: Box): Worker
    requires w.i < |w.tracks|
  {
    w.(tracks := w.tracks[w.i := box], i := w.i + 1, phase := Visiting)
  }

  function SetBox(w: Worker, box: Box, phase: Phase): Worker
    requires w.i < |w.tracks|
  {
    w.(tracks := w.tracks[w.i := box], phase := phase)
  }

  /** The box is reset and looked up; on a miss the quality gates decide whether it is recognized at all. */
  ghost function Visit(w: Worker, cache: Cache, gates: Gates): (Worker, Cache)
    requires w.i < |w.tracks|
  {
    var box, key := NoDecision(w.tracks[w.i]), KeyOf(w);
    if box.id >= 0 && key in cache then (NextBox(w, Shown(box, cache[key])), Touch(cache, key, w.task.frameId))
    else if !PassesGates(w.tracks, w.i, gates) then (NextBox(w, box), cache)
    else (SetBox(w, box, if box.id >= 0 then Marking else Embedding), cache)
  }

  function MarkBox(w: Worker, cache: Cache): (Worker, Cache)
    requires w.i < |w.tracks|
  {
    var box, key := w.tracks[w.i], KeyOf(w);
    var w' := if key in cache then NextBox(w, Shown(box, cache[key])) else SetBox(w, box.(state := Pending), Embedding);
    (w', Mark(cache, key, w.task.frameId))
  }

  function EmbedBox(w: Worker, embed: (Frame, Face) -> Option<seq<real>>): Worker
    requires w.i < |w.tracks| && w.tracks[w.i].face.Some?
  {
    var box := w.tracks[w.i];
    var e := embed(w.task.frame, box.face.value);
    if e.Some? then w.(phase := Reading(e.value))
    else if box.id >= 0 then SetBox(w, box.(state := Failed), Clearing)
    else NextBox(w, box.(state := Failed))
  }

  function JudgeBox(w: Worker, v: Verdict): Worker
    requires w.i < |w.tracks|
  {
    if w.tracks[w.i].id >= 0 then w.(phase := Finishing(v)) else NextBox(w, ApplyVerdict(w.tracks[w.i], v))
  }

  function Remaining(w: Worker): int {
    7 * (|w.tracks| - w.i)
    + match w.phase
      case Cleaning => 7
      case Visiting => 6
      case Marking => 5
      case Embedding => 4
      case Reading(_) => 3
      case Finishing(_) => 2
      case Clearing => 1
  }

  // Steps of the system

  ghost predicate Enabled(s: Sys, a: Action) {
    match a
    case Start(id, task) => id !in s.workers
    case Advance(id) => id in s.workers && Shaped(s.workers[id]) && s.galleries != []
    case SwapGallery(_) => true
    case ClearCache => s.uncleared > 0
  }

  predicate Done(w: Worker) {
    w.phase.Visiting? && w.i == |w.tracks|
  }

  /** The next step of a worker that is not done: what becomes of the worker and of the cache. */
  ghost function WorkerStep(setup: Setup, gallery: Gallery, w: Worker, cache: Cache): (Worker, Cache)
    requires Shaped(w) && !Done(w)
  {
    match w.phase
    case Cleaning => (w.(phase := Visiting), Cleanup(cache, w.task.frame.streamId, w.task.frameId, setup.ttl))
    case Visiting => Visit(w, cache, setup.gates)
    case Marking => MarkBox(w, cache)
    case Embedding => (EmbedBox(w, setup.embed), cache)
    case Reading(e) => (JudgeBox(w, Judge(e, gallery, setup.threshold)), cache)
    case Finishing(v) => (NextBox(w, ApplyVerdict(w.tracks[w.i], v)), Finish(cache, KeyOf(w), w.task.frameId, v))
    case Clearing => (NextBox(w, w.tracks[w.i]), Unmark(cache, KeyOf(w)))
  }

  function Current(s: Sys): Gallery
    requires s.galleries != []
  {
    s.galleries[|s.galleries| - 1]
  }

  ghost function AdvanceWorker(s: Sys, id: int): Sys
    requires Enabled(s, Advance(id))
  {
    var w := s.workers[id];
    if Done(w) then s.(workers := s.workers - {id}, results := s.results + [w.task.(tracks := w.tracks)])
    else
      var r := WorkerStep(s.setup, Current(s), w, s.cache);
      var evidence :=
        if w.phase.Reading? then
          s.evidence + [Evidence(w.task, w.i, Current(s), Judge(w.phase.embedding, Current(s), s.setup.threshold))]
        else s.evidence;
      s.(workers := s.workers[id := r.0], cache := r.1, evidence := evidence)
  }

  ghost function Next(s: Sys, a: Action): Sys
    requires Enabled(s, a)
  {
    match a
    case Start(id, task) => s.(workers := s.workers[id := Worker(task, task.tracks, 0, Cleaning)])
    case Advance(id) => AdvanceWorker(s, id)
    case SwapGallery(g) => s.(galleries := s.galleries + [g], uncleared := s.uncleared + 1)
    case ClearCache => s.(cache := map[], uncleared := s.uncleared - 1)
  }

  /** `trace` lists the states of a run. */
  ghost predicate IsRun(trace: seq<Sys>, actions: seq<Action>) {
    && |trace| == |actions| + 1
    && (exists gallery :: trace[0] == Fresh(trace[0].setup, gallery))
    && (forall n :: 0 <= n < |actions| ==> Enabled(trace[n], actions[n]) && trace[n + 1] == Next(trace[n], actions[n]))
  }

  lemma StepShrinks(setup: Setup, gallery: Gallery, w: Worker, cache: Cache)
    requires Shaped(w) && !Done(w)
    ensures var r := WorkerStep(setup, gallery, w, cache);
            Shaped(r.0) && 0 <= Remaining(r.0) < Remaining(w) && r.0.task == w.task && |r.0.tracks| == |w.tracks|
  {
  }

  // Every pending track has an owner

  ghost predicate Owns(w: Worker, key: Key) {
    && (w.phase.Embedding? || w.phase.Reading? || w.phase.Finishing? || w.phase.Clearing?)
    && w.i < |w.tracks| && w.tracks[w.i].id >= 0 && KeyOf(w) == key
  }

  ghost predicate Owned(workers: map<int, Worker>, key: Key) {
    exists id :: id in workers && Owns(workers[id], key)
  }

  ghost predicate OwnerInv(s: Sys) {
    && (forall id :: id in s.workers ==> Shaped(s.workers[id]))
    && (forall key :: key in s.cache && s.cache[key].InProgress? ==> Owned(s.workers, key))
  }

  /** A step of one worker that does not give up `key` leaves it owned if it was. */
  lemma StillOwned(workers: map<int, Worker>, id: int, w': Worker, key: Key)
    requires Owned(workers, key) && id in workers && (Owns(workers[id], key) ==> Owns(w', key))
    ensures Owned(workers[id := w'], key)
  {
    var o :| o in workers && Owns(workers[o], key);
    assert Owns(workers[id := w'][o], key);
  }

  lemma NewOwner(workers: map<int, Worker>, id: int, w': Worker, key: Key)
    requires Owns(w', key)
    ensures Owned(workers[id := w'], key)
  {
    assert Owns(workers[id := w'][id], key);
  }

  lemma OwnerLeaves(s: Sys, id: int)
    requires OwnerInv(s) && id in s.workers && Done(s.workers[id])
    ensures forall key :: key in s.cache && s.cache[key].InProgress? ==> Owned(s.workers - {id}, key)
  {
    forall key | key in s.cache && s.cache[key].InProgress? ensures Owned(s.workers - {id}, key) {
      var o :| o in s.workers && Owns(s.workers[o], key);
      assert Owns((s.workers - {id})[o], key);
    }
  }

  /** A step of a worker gives up at most its own entry, and only when that entry is no longer pending. */
  lemma GivesUp(setup: Setup, gallery: Gallery, w: Worker, cache: Cache, key: Key)
    requires Shaped(w) && !Done(w)
    ensures var r := WorkerStep(setup, gallery, w, cache);
            key in r.1 && r.1[key].InProgress? ==>
              if key in cache && cache[key].InProgress? then Owns(w, key) ==> Owns(r.0, key) else Owns(r.0, key)
  {
  }

  lemma OwnerAdvance(s: Sys, id: int)
    requires OwnerInv(s) && Enabled(s, Advance(id))
    ensures OwnerInv(AdvanceWorker(s, id))
  {
    var w, t := s.workers[id], AdvanceWorker(s, id);
    if Done(w) {
      OwnerLeaves(s, id);
    } else {
      StepShrinks(s.setup, Current(s), w, s.cache);
      forall key | key in t.cache && t.cache[key].InProgress? ensures Owned(t.workers, key) {
        GivesUp(s.setup, Current(s), w, s.cache, key);
        if key in s.cache && s.cache[key].InProgress? {
          StillOwned(s.workers, id, t.workers[id], key);
        } else {
          NewOwner(s.workers, id, t.workers[id], key);
        }
      }
    }
  }

  lemma OwnerStep(s: Sys, a: Action)
    requires OwnerInv(s) && Enabled(s, a)
    ensures OwnerInv(Next(s, a))
  {
    match a
    case Advance(id) => OwnerAdvance(s, id);
    case Start(id, task) =>
      forall key | key in s.cache && s.cache[key].InProgress? ensures Owned(Next(s, a).workers, key) {
        var o :| o in s.workers && Owns(s.workers[o], key);
        assert Owns(Next(s, a).workers[o], key);
      }
    case _ =>
  }

  /** Under any interleaving with clean-up and reload, every pending entry has a worker that will settle it. */
  lemma {:induction false} NoOrphans(trace: seq<Sys>, actions: seq<Action>, n: nat)
    requires IsRun(trace, actions) && n < |trace|
    ensures OwnerInv(trace[n])
  {
    if n > 0 {
      NoOrphans(trace, actions, n - 1);
      OwnerStep(trace[n - 1], actions[n - 1]);
    }
  }

  /** So when all workers are idle nothing is pending. */
  lemma QuietMeansSettled(trace: seq<Sys>, actions: seq<Action>, n: nat, key: Key)
    requires IsRun(trace, actions) && n < |trace| && trace[n].workers == map[] && key in trace[n].cache
    ensures trace[n].cache[key].Decided?
  {
    NoOrphans(trace, actions, n);
  }

  /** A recognition ends after finitely many of its own steps, whatever the others do. */
  lemma WorkersFinish(s: Sys, id: int)
    requires Enabled(s, Advance(id))
    ensures var t := AdvanceWorker(s, id);
            if id in t.workers then 0 <= Remaining(t.workers[id]) < Remaining(s.workers[id])
            else |t.results| == |s.results| + 1
  {
  }

  // A worker that nobody interrupts

  /** The boxes and the cache with which an uninterrupted worker ends. */
  ghost function Alone(setup: Setup, gallery: Gallery, w: Worker, cache: Cache): (seq<Box>, Cache)
    requires Shaped(w)
    decreases Remaining(w)
  {
    if Done(w) then (w.tracks, cache)
    else
      StepShrinks(setup, gallery, w, cache);
      var r := WorkerStep(setup, gallery, w, cache);
      Alone(setup, gallery, r.0, r.1)
  }

  /** The system while only this worker moves. */
  ghost function Uninterrupted(s: Sys, id: int): Sys
    requires Enabled(s, Advance(id))
    decreases Remaining(s.workers[id])
  {
    if Done(s.workers[id]) then AdvanceWorker(s, id)
    else
      StepShrinks(s.setup, Current(s), s.workers[id], s.cache);
      Uninterrupted(AdvanceWorker(s, id), id)
  }

  /** A recognition that runs as one piece is the run of the machine in which only its worker moves. */
  lemma {:induction false} UninterruptedIsAlone(s: Sys, id: int)
    requires Enabled(s, Advance(id))
    ensures var w, t := s.workers[id], Uninterrupted(s, id);
            var r := Alone(s.setup, Current(s), w, s.cache);
            t.results == s.results + [w.task.(tracks := r.0)] && t.cache == r.1 && t.workers == s.workers - {id}
    decreases Remaining(s.workers[id])
  {
    var w := s.workers[id];
    if !Done(w) {
      StepShrinks(s.setup, Current(s), w, s.cache);
      UninterruptedIsAlone(AdvanceWorker(s, id), id);
    }
  }
}
