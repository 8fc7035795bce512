/**
 The recognizer itself (core/src/recognizer/mobilefacenet_recognizer.cpp), one call at a time: its loops and the state
 that its mutexes guard, each method computing the function of RecognizerSpec or RecognizerWorkers that models it.
 */
module Recognizer {
  import opened Types
  import opened Geometry
  import opened CoordinatorSpec
  import opened RecognizerSpec
  import opened RecognizerWorkers

  method BestGalleryMatch(embedding: seq<real>, gallery: Gallery) returns (out: Match)
    requires forall n :: 0 <= n < |gallery| ==> |gallery[n].embedding| == |embedding|
    ensures out == BestMatch(embedding, gallery)
  {
    var best: Option<Match> := None;
    for n := 0 to |gallery|
      invariant best == BestOf(embedding, gallery, n)
    {
      var score := 0.0;
      for i := 0 to |embedding|
        invariant score == Dot(embedding, gallery[n].embedding, i)
      {
        score := score + embedding[i] * gallery[n].embedding[i];
      }
      if best == None || score > best.value.score {
        best := Some(Match(gallery[n].identityKey, score));
      }
    }
    return if best == None then Match("", 0.0) else best.value;
  }

  method PassesQualityGates(tracks: seq<Box>, index: nat, gates: Gates) returns (pass: bool)
    requires index < |tracks|
    ensures pass == PassesGates(tracks, index, gates)
  {
    if tracks[index].face == None { return false; }
    var face := tracks[index].face.value;
    if !GoodFace(face, gates) { return false; }
    for i := 0 to |tracks|
      invariant forall j :: 0 <= j < i ==> !Overrules(tracks, j, index)
    {
      if i == index { continue; }
      if tracks[i].face == None || !tracks[i].face.value.isFresh { continue; }
      var other := tracks[i].face.value;
      if Iou(face.bbox, other.bbox) <= DUPLICATE_FACE_IOU { continue; }
      if other.score > face.score || (other.score == face.score && i < index) {
        assert Overrules(tracks, i, index);
        return false;
      }
    }
    return true;
  }

  /** The decisions of all streams, nested as in the source; a stream without tracks is removed. */
  class TrackStates {
    var streams: map<string, map<int, Decision>>

    /** The same decisions as one map. */
    ghost var cache: Cache

    ghost predicate Valid()
      reads this
    {
      && (forall s :: s in streams ==> streams[s] != map[])
      && (forall k :: k in cache <==> k.0 in streams && k.1 in streams[k.0])
      && (forall k :: k in cache ==> cache[k] == streams[k.0][k.1])
    }

    constructor ()
      ensures Valid() && cache == map[]
    {
      streams, cache := map[], map[];
    }

    method CleanupCache(stream: string, frameId: int, ttl: int)
      requires Valid()
      modifies this
      ensures Valid() && cache == Cleanup(old(cache), stream, frameId, ttl)
    {
      cache := Cleanup(cache, stream, frameId, ttl);
      if stream !in streams { return; }
      var tracks := streams[stream];
      var kept := map t | t in tracks && frameId - tracks[t].lastSeen <= ttl :: tracks[t];
      assert forall k :: k in cache && k.0 == stream ==> k.1 in kept;
      assert forall t :: t in kept ==> (stream, t) in cache;
      if kept == map[] {
        streams := streams - {stream};
      } else {
        streams := streams[stream := kept];
      }
    }

    /** `none` when there is no decision; otherwise the box as the decision shows it. */
    method ApplyCachedDecision(stream: string, frameId: int, box: Box) returns (shown: Option<Box>)
      requires Valid()
      modifies this
      ensures Valid()
      ensures if (stream, box.id) in old(cache) then
                && shown == Some(Shown(box, old(cache)[(stream, box.id)]))
                && cache == Touch(old(cache), (stream, box.id), frameId)
              else shown == None && cache == old(cache)
    {
      if stream !in streams || box.id !in streams[stream] { return None; }
      var d := streams[stream][box.id];
      if d.InProgress? { return Some(box.(state := Pending)); }
      Put(stream, box.id, d.(lastSeen := frameId));
      return Some(ApplyVerdict(box, d.verdict));
    }

    /** `none` when the caller now owns the track; otherwise the box as another decision shows it. */
    method MarkInProgress(stream: string, frameId: int, box: Box) returns (shown: Option<Box>)
      requires Valid()
      modifies this
      ensures Valid() && cache == Mark(old(cache), (stream, box.id), frameId)
      ensures shown == if (stream, box.id) in old(cache) then Some(Shown(box, old(cache)[(stream, box.id)])) else None
    {
      shown := ApplyCachedDecision(stream, frameId, box);
      if shown.Some? { return; }
      Put(stream, box.id, InProgress(frameId));
    }

    method Put(stream: string, id: int, d: Decision)
      requires Valid()
      modifies this
      ensures Valid() && cache == old(cache)[(stream, id) := d]
    {
      var tracks := if stream in streams then streams[stream] else map[];
      streams := streams[stream := tracks[id := d]];
      assert id in streams[stream];
      cache := cache[(stream, id) := d];
    }

    method FinishDecision(stream: string, id: int, frameId: int, v: Verdict)
      requires Valid()
      modifies this
      ensures Valid() && cache == Finish(old(cache), (stream, id), frameId, v)
    {
      Put(stream, id, Decided(frameId, v));
    }

    method ClearInProgress(stream: string, id: int)
      requires Valid()
      modifies this
      ensures Valid() && cache == Unmark(old(cache), (stream, id))
    {
      if stream !in streams || id !in streams[stream] || !streams[stream][id].InProgress? {
        return;
      }
      cache := cache - {(stream, id)};
      var rest := streams[stream] - {id};
      assert forall k :: k in cache && k.0 == stream ==> k.1 in rest by {
        forall k | k in cache && k.0 == stream ensures k.1 in rest {
          assert k == (stream, k.1);
        }
      }
      if rest == map[] {
        streams := streams - {stream};
      } else {
        streams := streams[stream := rest];
      }
    }

    method Clear()
      modifies this
      ensures Valid() && cache == map[]
    {
      streams, cache := map[], map[];
    }
  }

  /** What the loader and the network guarantee: all embeddings have the same length. */
  ghost predicate SameLength(setup: Setup, gallery: Gallery) {
    forall frame, face, n :: 0 <= n < |gallery| && setup.embed(frame, face).Some? ==>
      |gallery[n].embedding| == |setup.embed(frame, face).value|
  }

  // The paths through the loop body, as steps of the worker

  lemma OneStep(setup: Setup, gallery: Gallery, w: Worker, cache: Cache, w': Worker, cache': Cache)
    requires Shaped(w) && !Done(w) && WorkerStep(setup, gallery, w, cache) == (w', cache')
    ensures Shaped(w') && Alone(setup, gallery, w, cache) == Alone(setup, gallery, w', cache')
  {
    StepShrinks(setup, gallery, w, cache);
  }

  lemma Found(setup: Setup, gallery: Gallery, w: Worker, cache: Cache)
    requires w.phase == Visiting && w.i < |w.tracks| && w.tracks[w.i].id >= 0 && KeyOf(w) in cache
    ensures Alone(setup, gallery, w, cache)
         == Alone(setup, gallery, NextBox(w, Shown(NoDecision(w.tracks[w.i]), cache[KeyOf(w)])),
                  Touch(cache, KeyOf(w), w.task.frameId))
  {
    StepShrinks(setup, gallery, w, cache);
  }

  lemma Skips(setup: Setup, gallery: Gallery, w: Worker, cache: Cache)
    requires w.phase == Visiting && w.i < |w.tracks| && !(w.tracks[w.i].id >= 0 && KeyOf(w) in cache)
    requires !PassesGates(w.tracks, w.i, setup.gates)
    ensures Alone(setup, gallery, w, cache) == Alone(setup, gallery, NextBox(w, NoDecision(w.tracks[w.i])), cache)
  {
    StepShrinks(setup, gallery, w, cache);
  }

  lemma Passes(setup: Setup, gallery: Gallery, w: Worker, cache: Cache)
    requires w.phase == Visiting && w.i < |w.tracks| && !(w.tracks[w.i].id >= 0 && KeyOf(w) in cache)
    requires PassesGates(w.tracks, w.i, setup.gates)
    ensures var box := NoDecision(w.tracks[w.i]);
            Alone(setup, gallery, w, cache)
            == Alone(setup, gallery, SetBox(w, box, if box.id >= 0 then Marking else Embedding), cache)
  {
    StepShrinks(setup, gallery, w, cache);
  }

  lemma Marks(setup: Setup, gallery: Gallery, w: Worker, cache: Cache)
    requires w.phase == Marking && Shaped(w)
    ensures var box := w.tracks[w.i];
            var w' := if KeyOf(w) in cache then NextBox(w, Shown(box, cache[KeyOf(w)]))
                      else SetBox(w, box.(state := Pending), Embedding);
            Alone(setup, gallery, w, cache) == Alone(setup, gallery, w', Mark(cache, KeyOf(w), w.task.frameId))
  {
    OneStep(setup, gallery, w, cache, MarkBox(w, cache).0, MarkBox(w, cache).1);
  }

  lemma NextOfSet(w: Worker, box: Box, phase: Phase, box': Box)
    requires w.i < |w.tracks|
    ensures NextBox(SetBox(w, box, phase), box') == NextBox(w, box')
  {
  }

  lemma Fails(setup: Setup, gallery: Gallery, w: Worker, cache: Cache)
    requires w.phase == Embedding && Shaped(w) && setup.embed(w.task.frame, w.tracks[w.i].face.value) == None
    ensures var box := w.tracks[w.i].(state := Failed);
            Alone(setup, gallery, w, cache)
            == Alone(setup, gallery, NextBox(w, box), if box.id >= 0 then Unmark(cache, KeyOf(w)) else cache)
  {
    var box := w.tracks[w.i].(state := Failed);
    StepShrinks(setup, gallery, w, cache);
    if box.id >= 0 {
      var w1 := SetBox(w, box, Clearing);
      StepShrinks(setup, gallery, w1, cache);
      assert NextBox(w1, box) == NextBox(w, box);
    }
  }

  lemma Judges(setup: Setup, gallery: Gallery, w: Worker, cache: Cache, embedding: seq<real>)
    requires w.phase == Embedding && Shaped(w)
    requires setup.embed(w.task.frame, w.tracks[w.i].face.value) == Some(embedding)
    ensures var box, v := w.tracks[w.i], Judge(embedding, gallery, setup.threshold);
            Alone(setup, gallery, w, cache)
            == Alone(setup, gallery, NextBox(w, ApplyVerdict(box, v)),
                     if box.id >= 0 then Finish(cache, KeyOf(w), w.task.frameId, v) else cache)
  {
    var w1, v := w.(phase := Reading(embedding)), Judge(embedding, gallery, setup.threshold);
    OneStep(setup, gallery, w, cache, w1, cache);
    var box := ApplyVerdict(w.tracks[w.i], v);
    if box.id >= 0 {
      var w2 := w1.(phase := Finishing(v));
      OneStep(setup, gallery, w1, cache, w2, cache);
      assert NextBox(w2, box) == NextBox(w, box);
      OneStep(setup, gallery, w2, cache, NextBox(w, box), Finish(cache, KeyOf(w), w.task.frameId, v));
    } else {
      assert NextBox(w1, box) == NextBox(w, box);
      OneStep(setup, gallery, w1, cache, NextBox(w, box), cache);
    }
  }

  /** One worker; the gallery and the decisions are shared with the others. */
  class FaceRecognizer {
    const setup: Setup
    const states: TrackStates
    var gallery: Gallery

    constructor (setup: Setup, states: TrackStates, gallery: Gallery)
      ensures this.setup == setup && this.states == states && this.gallery == gallery
    {
      this.setup, this.states, this.gallery := setup, states, gallery;
    }

    /** Run as one piece, a recognition does what its worker does when nobody interrupts it. */
    method Recognize(task: Item) returns (out: Item)
      requires states.Valid() && SameLength(setup, gallery)
      modifies states
      ensures states.Valid()
      ensures (out.tracks, states.cache)
           == Alone(setup, gallery, Worker(task, task.tracks, 0, Cleaning), old(states.cache))
      ensures out.frameId == task.frameId && out.frame == task.frame
    {
      ghost var w := Worker(task, task.tracks, 0, Cleaning);
      ghost var goal := Alone(setup, gallery, w, states.cache);
      states.CleanupCache(task.frame.streamId, task.frameId, setup.ttl);
      var tracks := task.tracks;
      w := w.(phase := Visiting);
      for i := 0 to |tracks|
        invariant states.Valid() && |tracks| == |task.tracks| && w == Worker(task, tracks, i, Visiting)
        invariant Alone(setup, gallery, w, states.cache) == goal
      {
        var box := RecognizeBox(task, tracks, i);
        tracks := tracks[i := box];
        w := NextBox(w, box);
      }
      return Item(task.frameId, task.frame, tracks);
    }

    /** The body of the loop. */
    method RecognizeBox(task: Item, tracks: seq<Box>, i: nat) returns (box: Box)
      requires i < |tracks| && states.Valid() && SameLength(setup, gallery)
      modifies states
      ensures states.Valid()
      ensures var w := Worker(task, tracks, i, Visiting);
              Alone(setup, gallery, w, old(states.cache)) == Alone(setup, gallery, NextBox(w, box), states.cache)
    {
      ghost var w, cache := Worker(task, tracks, i, Visiting), states.cache;
      box := NoDecision(tracks[i]);
      if box.id >= 0 {
        var shown := states.ApplyCachedDecision(task.frame.streamId, task.frameId, box);
        if shown.Some? {
          Found(setup, gallery, w, cache);
          return shown.value;
        }
      }
      box := RecognizeMissed(task, tracks, i, box, w);
    }

    method RecognizeMissed(task: Item, tracks: seq<Box>, i: nat, box: Box, ghost w: Worker) returns (box': Box)
      requires i < |tracks| && w == Worker(task, tracks, i, Visiting) && box == NoDecision(tracks[i])
      requires states.Valid() && SameLength(setup, gallery) && !(box.id >= 0 && KeyOf(w) in states.cache)
      modifies states
      ensures states.Valid()
      ensures Alone(setup, gallery, w, old(states.cache)) == Alone(setup, gallery, NextBox(w, box'), states.cache)
    {
      box' := box;
      var pass := PassesQualityGates(tracks, i, setup.gates);
      if !pass {
        Skips(setup, gallery, w, states.cache);
        return;
      }
      Passes(setup, gallery, w, states.cache);
      ghost var w' := SetBox(w, box, if box.id >= 0 then Marking else Embedding);
      box' := RecognizeGoodBox(task, box, w');
      NextOfSet(w, box, w'.phase, box');
    }

    method RecognizeGoodBox(task: Item, box: Box, ghost w: Worker) returns (box': Box)
      requires w.task == task && Shaped(w) && w.phase == (if box.id >= 0 then Marking else Embedding)
      requires w.tracks[w.i] == box && states.Valid() && SameLength(setup, gallery)
      modifies states
      ensures states.Valid()
      ensures Alone(setup, gallery, w, old(states.cache)) == Alone(setup, gallery, NextBox(w, box'), states.cache)
    {
      if box.id < 0 {
        box' := EmbedAndJudge(task, box, w);
        return;
      }
      Marks(setup, gallery, w, states.cache);
      var shown := states.MarkInProgress(task.frame.streamId, task.frameId, box);
      if shown.Some? { return shown.value; }
      var pending := box.(state := Pending);
      box' := EmbedAndJudge(task, pending, SetBox(w, pending, Embedding));
      NextOfSet(w, pending, Embedding, box');
    }

    /** The try block and its handler. */
    method EmbedAndJudge(task: Item, box: Box, ghost w: Worker) returns (box': Box)
      requires w.task == task && Shaped(w) && w.phase == Embedding && w.tracks[w.i] == box
      requires states.Valid() && SameLength(setup, gallery)
      modifies states
      ensures states.Valid()
      ensures Alone(setup, gallery, w, old(states.cache)) == Alone(setup, gallery, NextBox(w, box'), states.cache)
    {
      var embedding := setup.embed(task.frame, box.face.value);
      if embedding == None {
        Fails(setup, gallery, w, states.cache);
        box' := box.(state := Failed);
        if box.id >= 0 {
          states.ClearInProgress(task.frame.streamId, box.id);
        }
        return;
      }
      Judges(setup, gallery, w, states.cache, embedding.value);
      var verdict := MatchGallery(embedding.value);
      box' := ApplyVerdict(box, verdict);
      if box.id >= 0 {
        states.FinishDecision(task.frame.streamId, box.id, task.frameId, verdict);
      }
    }

    method MatchGallery(embedding: seq<real>) returns (v: Verdict)
      requires forall n :: 0 <= n < |gallery| ==> |gallery[n].embedding| == |embedding|
      ensures v == Judge(embedding, gallery, setup.threshold)
    {
      var best := BestGalleryMatch(embedding, gallery);
      if gallery != [] && best.score >= setup.threshold {
        return Verdict(best.identityKey, best.score, Allow, Known);
      }
      return Verdict("", if gallery == [] then 0.0 else best.score, Anonymize, Unknown);
    }

    /** A gallery that cannot be loaded leaves everything as it is; a new one makes all decisions void. */
    method ReloadGallery(next: Option<Gallery>) returns (ok: bool)
      modifies this`gallery, states
      ensures ok == next.Some?
      ensures if ok then gallery == next.value && states.Valid() && states.cache == map[]
              else gallery == old(gallery) && states.streams == old(states.streams)
    {
      if next == None { return false; }
      gallery := next.value;
      states.Clear();
      return true;
    }
  }
}
