/**
 Assignment of detected faces to person tracks (core/src/face_detector/face_policy.cpp).
 */
module FacePolicy {
  import opened Types
  import opened Geometry

  /** `minFaceScore` is the score threshold of the configured face detector. */
  datatype Config = Config(minFaceScore: real, independent: bool)

  const MAX_PER_TRACK := 1

  predicate CenterInside(inner: Rect, outer: Rect) {
    var cx := inner.x + inner.w * 0.5;
    var cy := inner.y + inner.h * 0.5;
    outer.x <= cx <= outer.x + outer.w && outer.y <= cy <= outer.y + outer.h
  }

  predicate Plausible(face: Face, person: Rect, minFaceScore: real) {
    && face.score >= minFaceScore
    && face.bbox.w >= 2.0 && face.bbox.h >= 2.0 && person.w > 1.0 && person.h > 1.0
    && var faceArea := Area(face.bbox);
    && faceArea > 0.0
    && CenterInside(face.bbox, person)
    && IntersectionArea(face.bbox, person) / faceArea >= 0.50
    && var minH := RMax(4.0, person.h * 0.04);
    && minH <= face.bbox.h <= RMax(minH, person.h * 0.60)
    && face.bbox.w <= person.w * 0.95
  }

  function TrackScore(face: Face, person: Rect): real {
    var faceArea := RMax(1.0, Area(face.bbox));
    face.score + IntersectionArea(face.bbox, person) / faceArea * 2.0 + Iou(face.bbox, person)
  }

  function Stamp(face: Face, frameId: int): Face {
    face.(frameId := frameId, isFresh := true)
  }

  function FaceOnlyBox(face: Face, id: int): Box {
    Box(face.bbox, id, face.score, "", 0.0, Anonymize, FaceOnly, Some(face))
  }

  // Sorting faces by descending score

  predicate Descending(faces: seq<Face>) {
    forall i, j :: 0 <= i < j < |faces| ==> faces[i].score >= faces[j].score
  }

  function Insert(face: Face, faces: seq<Face>): (r: seq<Face>)
    requires Descending(faces)
    ensures Descending(r) && r != [] && (r[0] == face || (faces != [] && r[0] == faces[0]))
    ensures multiset(r) == multiset(faces) + multiset{face}
  {
    if faces == [] then [face]
    else if face.score >= faces[0].score then [face] + faces
    else
      assert faces == [faces[0]] + faces[1..];
      [faces[0]] + Insert(face, faces[1..])
  }

  /** One of the orders `std::sort` may produce; ties keep no particular order in the source. */
  function SortByScore(faces: seq<Face>): (r: seq<Face>)
    ensures Descending(r)
    ensures multiset(r) == multiset(faces)
  {
    if faces == [] then []
    else
      assert faces == faces[..|faces| - 1] + [faces[|faces| - 1]];
      Insert(faces[|faces| - 1], SortByScore(faces[..|faces| - 1]))
  }

  // Specification: which track each face of a sorted list takes

  function BestTrack(face: Face, persons: seq<Box>, counts: seq<nat>, n: nat, minFaceScore: real): (best: Option<nat>)
    requires n <= |persons| == |counts|
    ensures best.Some? ==> best.value < n
  {
    if n == 0 then None
    else
      var best := BestTrack(face, persons, counts, n - 1, minFaceScore);
      if counts[n - 1] >= MAX_PER_TRACK || !Plausible(face, persons[n - 1].rect, minFaceScore) then best
      else if best == None
           || TrackScore(face, persons[n - 1].rect) > TrackScore(face, persons[best.value].rect) then Some(n - 1)
      else best
  }

  function Taking(counts: seq<nat>, choice: Option<nat>): (r: seq<nat>)
    requires choice.Some? ==> choice.value < |counts|
    ensures |r| == |counts|
  {
    if choice.Some? then counts[choice.value := counts[choice.value] + 1] else counts
  }

  /** `Choices(...)[j]` is the track that receives face `j`, if any. */
  function Choices(faces: seq<Face>, persons: seq<Box>, counts: seq<nat>, minFaceScore: real): (r: seq<Option<nat>>)
    requires |persons| == |counts|
    ensures |r| == |faces|
    ensures forall j :: 0 <= j < |r| && r[j].Some? ==> r[j].value < |persons|
  {
    if faces == [] then []
    else
      var best := BestTrack(faces[0], persons, counts, |persons|, minFaceScore);
      [best] + Choices(faces[1..], persons, Taking(counts, best), minFaceScore)
  }

  /** What one face does to the track list: it goes to its track or, in independent mode, into a new face-only box. */
  function AttachOne(tracks: seq<Box>, face: Face, choice: Option<nat>, nextId: int, independent: bool): (r: seq<Box>)
    requires choice.Some? ==> choice.value < |tracks|
    ensures |tracks| <= |r|
    ensures forall i :: 0 <= i < |tracks| ==> r[i] == tracks[i].(face := r[i].face)
  {
    if choice.Some? then tracks[choice.value := tracks[choice.value].(face := Some(face))]
    else if independent then tracks + [FaceOnlyBox(face, nextId)]
    else tracks
  }

  function NextId(choice: Option<nat>, nextId: int, independent: bool): int {
    if choice == None && independent then nextId - 1 else nextId
  }

  function Attach(tracks: seq<Box>, faces: seq<Face>, choices: seq<Option<nat>>, nextId: int, frameId: int,
                  independent: bool): (r: seq<Box>)
    requires |faces| == |choices|
    requires forall j :: 0 <= j < |choices| && choices[j].Some? ==> choices[j].value < |tracks|
    decreases |faces|
  {
    if faces == [] then tracks
    else
      Attach(AttachOne(tracks, Stamp(faces[0], frameId), choices[0], nextId, independent), faces[1..], choices[1..],
             NextId(choices[0], nextId, independent), frameId, independent)
  }

  function Zeros(n: nat): (r: seq<nat>)
    ensures |r| == n && forall i :: 0 <= i < n ==> r[i] == 0
  {
    seq(n, _ => 0)
  }

  /** The assignment once the faces are sorted. */
  function AssignSorted(tracks: seq<Box>, sorted: seq<Face>, frameId: int, cfg: Config): seq<Box> {
    Attach(tracks, sorted, Choices(sorted, tracks, Zeros(|tracks|), cfg.minFaceScore), -1, frameId, cfg.independent)
  }

  function Assign(tracks: seq<Box>, faces: seq<Face>, frameId: int, cfg: Config): seq<Box> {
    AssignSorted(tracks, SortByScore(faces), frameId, cfg)
  }

  /** `FaceResultApplier::apply`: results are applied one after the other. */
  function Apply(frameId: int, tracks: seq<Box>, results: seq<seq<Face>>, cfg: Config): seq<Box>
    decreases |results|
  {
    if results == [] then tracks
    else Apply(frameId, Assign(tracks, results[0], frameId, cfg), results[1..], cfg)
  }

  // The loops of the source

  method FindBestTrack(face: Face, out: seq<Box>, held: seq<nat>, cfg: Config, ghost tracks: seq<Box>)
    returns (best: Option<nat>)
    requires |held| == |tracks| <= |out|
    requires forall i :: 0 <= i < |tracks| ==> out[i].rect == tracks[i].rect
    ensures best == BestTrack(face, tracks, held, |tracks|, cfg.minFaceScore)
  {
    best := None;
    for i := 0 to |held|
      invariant best == BestTrack(face, tracks, held, i, cfg.minFaceScore)
    {
      if held[i] < MAX_PER_TRACK && Plausible(face, out[i].rect, cfg.minFaceScore) {
        if best == None || TrackScore(face, out[i].rect) > TrackScore(face, out[best.value].rect) {
          best := Some(i);
        }
      }
    }
  }

  lemma BestTrackIgnoresStamp(face: Face, frameId: int, tracks: seq<Box>, held: seq<nat>, n: nat, minFaceScore: real)
    requires n <= |tracks| == |held|
    ensures BestTrack(Stamp(face, frameId), tracks, held, n, minFaceScore)
         == BestTrack(face, tracks, held, n, minFaceScore)
  {
  }

  lemma ChoicesUnroll(faces: seq<Face>, persons: seq<Box>, counts: seq<nat>, minFaceScore: real)
    requires |persons| == |counts| && faces != []
    ensures var c := Choices(faces, persons, counts, minFaceScore);
            && c[0] == BestTrack(faces[0], persons, counts, |persons|, minFaceScore)
            && c[1..] == Choices(faces[1..], persons, Taking(counts, c[0]), minFaceScore)
  {
  }

  method AttachFace(tracks: seq<Box>, held: seq<nat>, face: Face, best: Option<nat>, faceOnlyId: int, independent: bool)
    returns (tracks': seq<Box>, held': seq<nat>, faceOnlyId': int)
    requires |held| <= |tracks| && (best.Some? ==> best.value < |held|)
    ensures tracks' == AttachOne(tracks, face, best, faceOnlyId, independent)
    ensures held' == Taking(held, best)
    ensures faceOnlyId' == NextId(best, faceOnlyId, independent)
  {
    tracks', held', faceOnlyId' := tracks, held, faceOnlyId;
    if best == None {
      if independent {
        tracks' := tracks + [FaceOnlyBox(face, faceOnlyId)];
        faceOnlyId' := faceOnlyId - 1;
      }
    } else {
      tracks' := tracks[best.value := tracks[best.value].(face := Some(face))];
      held' := held[best.value := held[best.value] + 1];
    }
  }

  method AssignFullFrameFaces(tracks: seq<Box>, faces: seq<Face>, frameId: int, cfg: Config) returns (out: seq<Box>)
    ensures out == Assign(tracks, faces, frameId, cfg)
  {
    var sorted := SortByScore(faces);
    var held: seq<nat> := Zeros(|tracks|);
    var faceOnlyId := -1;
    out := tracks;
    ghost var choices := Choices(sorted, tracks, held, cfg.minFaceScore);
    ghost var goal := Attach(tracks, sorted, choices, -1, frameId, cfg.independent);
    var k := 0;
    while k < |sorted|
      invariant 0 <= k <= |sorted|
      invariant |held| == |tracks| <= |out|
      invariant forall i :: 0 <= i < |tracks| ==> out[i].rect == tracks[i].rect
      invariant choices == Choices(sorted[k..], tracks, held, cfg.minFaceScore)
      invariant goal == Attach(out, sorted[k..], choices, faceOnlyId, frameId, cfg.independent)
    {
      var face := Stamp(sorted[k], frameId);
      var best := FindBestTrack(face, out, held, cfg, tracks);
      BestTrackIgnoresStamp(sorted[k], frameId, tracks, held, |tracks|, cfg.minFaceScore);
      ChoicesUnroll(sorted[k..], tracks, held, cfg.minFaceScore);
      assert sorted[k..][1..] == sorted[k + 1..];
      out, held, faceOnlyId := AttachFace(out, held, face, best, faceOnlyId, cfg.independent);
      choices := choices[1..];
      k := k + 1;
    }
  }

  // Stability

  lemma {:induction false} BestTrackIsBest(face: Face, persons: seq<Box>, counts: seq<nat>, n: nat, minFaceScore: real)
    requires n <= |persons| == |counts|
    ensures var best := BestTrack(face, persons, counts, n, minFaceScore);
            && (best.Some? ==> counts[best.value] == 0 && Plausible(face, persons[best.value].rect, minFaceScore))
            && (forall i :: 0 <= i < n && counts[i] == 0 && Plausible(face, persons[i].rect, minFaceScore) ==>
                  best.Some? && TrackScore(face, persons[best.value].rect) >= TrackScore(face, persons[i].rect))
  {
    if n > 0 {
      BestTrackIsBest(face, persons, counts, n - 1, minFaceScore);
    }
  }

  ghost predicate Distinct(choices: seq<Option<nat>>) {
    forall j, k :: 0 <= j < k < |choices| && choices[j].Some? ==> choices[k] != choices[j]
  }

  /** Face `j` would rather have track `i` than what it got. */
  ghost predicate Prefers(face: Face, persons: seq<Box>, choice: Option<nat>, i: nat, minFaceScore: real)
    requires i < |persons| && (choice.Some? ==> choice.value < |persons|)
  {
    && Plausible(face, persons[i].rect, minFaceScore)
    && (choice == None || TrackScore(face, persons[i].rect) > TrackScore(face, persons[choice.value].rect))
  }

  lemma {:induction false} ChoicesValid(faces: seq<Face>, persons: seq<Box>, counts: seq<nat>, minFaceScore: real)
    requires |persons| == |counts|
    ensures var c := Choices(faces, persons, counts, minFaceScore);
            && (forall j :: 0 <= j < |c| && c[j].Some? ==>
                  counts[c[j].value] == 0 && Plausible(faces[j], persons[c[j].value].rect, minFaceScore))
            && Distinct(c)
  {
    if faces != [] {
      var best := BestTrack(faces[0], persons, counts, |persons|, minFaceScore);
      BestTrackIsBest(faces[0], persons, counts, |persons|, minFaceScore);
      var counts' := Taking(counts, best);
      var rest := Choices(faces[1..], persons, counts', minFaceScore);
      ChoicesValid(faces[1..], persons, counts', minFaceScore);
      var c := Choices(faces, persons, counts, minFaceScore);
      assert c == [best] + rest;
      forall j, k | 0 <= j < k < |c| && c[j].Some? ensures c[k] != c[j] {
        assert c[k] == rest[k - 1];
        if j > 0 { assert c[j] == rest[j - 1]; }
      }
    }
  }

  lemma {:induction false} ChoicesPreferred(faces: seq<Face>, persons: seq<Box>, counts: seq<nat>, minFaceScore: real,
                                            j: nat, i: nat)
    requires |persons| == |counts| && j < |faces| && i < |persons|
    requires Prefers(faces[j], persons, Choices(faces, persons, counts, minFaceScore)[j], i, minFaceScore)
    ensures counts[i] > 0 || Some(i) in Choices(faces, persons, counts, minFaceScore)[..j]
  {
    var c := Choices(faces, persons, counts, minFaceScore);
    var best := BestTrack(faces[0], persons, counts, |persons|, minFaceScore);
    var counts' := Taking(counts, best);
    var rest := Choices(faces[1..], persons, counts', minFaceScore);
    assert c == [best] + rest;
    if j == 0 {
      BestTrackIsBest(faces[0], persons, counts, |persons|, minFaceScore);
    } else {
      ChoicesPreferred(faces[1..], persons, counts', minFaceScore, j - 1, i);
      assert c[..j] == [best] + rest[..j - 1];
    }
  }

  // Where every face ends up

  function Unplaced(choices: seq<Option<nat>>): nat {
    if choices == [] then 0 else (if choices[0] == None then 1 else 0) + Unplaced(choices[1..])
  }

  /** The index in the new track list that holds face `j` of an assignment over `n` person tracks. */
  function Place(choices: seq<Option<nat>>, j: nat, n: nat): nat
    requires j < |choices|
  {
    if choices[j].Some? then choices[j].value else n + Unplaced(choices[..j])
  }

  lemma {:induction false} AttachLength(tracks: seq<Box>, faces: seq<Face>, choices: seq<Option<nat>>, nextId: int,
                                        frameId: int, independent: bool)
    requires |faces| == |choices|
    requires forall j :: 0 <= j < |choices| && choices[j].Some? ==> choices[j].value < |tracks|
    ensures |Attach(tracks, faces, choices, nextId, frameId, independent)|
         == |tracks| + (if independent then Unplaced(choices) else 0)
    decreases |faces|
  {
    if faces != [] {
      AttachLength(AttachOne(tracks, Stamp(faces[0], frameId), choices[0], nextId, independent), faces[1..],
                   choices[1..], NextId(choices[0], nextId, independent), frameId, independent);
    }
  }

  /** What `Attach` leaves at index `i` of the tracks it started from. */
  lemma {:induction false} AttachKeeps(tracks: seq<Box>, faces: seq<Face>, choices: seq<Option<nat>>, nextId: int,
                                       frameId: int, independent: bool, i: nat)
    requires |faces| == |choices| && i < |tracks|
    requires forall j :: 0 <= j < |choices| && choices[j].Some? ==> choices[j].value < |tracks|
    requires Distinct(choices)
    ensures var out := Attach(tracks, faces, choices, nextId, frameId, independent);
            && i < |out|
            && (Some(i) !in choices ==> out[i] == tracks[i])
            && (forall j :: 0 <= j < |choices| && choices[j] == Some(i) ==>
                  out[i] == tracks[i].(face := Some(Stamp(faces[j], frameId))))
    decreases |faces|
  {
    AttachLength(tracks, faces, choices, nextId, frameId, independent);
    if faces != [] {
      assert forall j :: 1 <= j < |choices| ==> choices[j] == choices[1..][j - 1] && faces[j] == faces[1..][j - 1];
      assert Some(i) in choices <==> choices[0] == Some(i) || Some(i) in choices[1..];
      AttachKeeps(AttachOne(tracks, Stamp(faces[0], frameId), choices[0], nextId, independent), faces[1..],
                  choices[1..], NextId(choices[0], nextId, independent), frameId, independent, i);
    }
  }

  lemma UnplacedUnroll(choices: seq<Option<nat>>, j: nat)
    requires 0 < j <= |choices|
    ensures Unplaced(choices[..j]) == (if choices[0] == None then 1 else 0) + Unplaced(choices[1..][..j - 1])
  {
    assert choices[..j][1..] == choices[1..][..j - 1];
  }

  lemma {:induction false} AttachFirst(tracks: seq<Box>, faces: seq<Face>, choices: seq<Option<nat>>, nextId: int,
                                       frameId: int)
    requires |faces| == |choices| > 0 && choices[0] == None
    requires forall k :: 0 <= k < |choices| && choices[k].Some? ==> choices[k].value < |tracks|
    requires Distinct(choices)
    ensures var out := Attach(tracks, faces, choices, nextId, frameId, true);
            |tracks| < |out| && out[|tracks|] == FaceOnlyBox(Stamp(faces[0], frameId), nextId)
  {
    forall k | 0 <= k < |choices[1..]| && choices[1..][k].Some? ensures choices[1..][k].value < |tracks| {
      assert choices[1..][k] == choices[k + 1];
    }
    AttachKeeps(tracks + [FaceOnlyBox(Stamp(faces[0], frameId), nextId)], faces[1..], choices[1..], nextId - 1, frameId,
                true, |tracks|);
  }

  lemma {:induction false} AttachAppends(tracks: seq<Box>, faces: seq<Face>, choices: seq<Option<nat>>, nextId: int,
                                         frameId: int, j: nat)
    requires |faces| == |choices| && j < |choices| && choices[j] == None
    requires forall k :: 0 <= k < |choices| && choices[k].Some? ==> choices[k].value < |tracks|
    requires Distinct(choices)
    ensures var out := Attach(tracks, faces, choices, nextId, frameId, true);
            var place := |tracks| + Unplaced(choices[..j]);
            && place < |out|
            && out[place] == FaceOnlyBox(Stamp(faces[j], frameId), nextId - Unplaced(choices[..j]))
    decreases |faces|
  {
    if j == 0 {
      AttachFirst(tracks, faces, choices, nextId, frameId);
    } else {
      var tracks' := AttachOne(tracks, Stamp(faces[0], frameId), choices[0], nextId, true);
      UnplacedUnroll(choices, j);
      AttachAppends(tracks', faces[1..], choices[1..], NextId(choices[0], nextId, true), frameId, j - 1);
    }
  }

  lemma {:induction false} UnplacedSplit(choices: seq<Option<nat>>, j: nat)
    requires j < |choices|
    ensures Unplaced(choices[..j]) + (if choices[j] == None then 1 else 0) == Unplaced(choices[..j + 1])
    ensures Unplaced(choices[..j + 1]) <= Unplaced(choices)
  {
    if j == 0 {
      assert choices[..1] == [choices[0]] && choices[..1][1..] == [];
    } else {
      assert choices[..j][1..] == choices[1..][..j - 1];
      assert choices[..j + 1][1..] == choices[1..][..j];
      UnplacedSplit(choices[1..], j - 1);
    }
  }

  lemma {:induction false} UnplacedGrows(choices: seq<Option<nat>>, j: nat, k: nat)
    requires j < k < |choices| && choices[j] == None
    ensures Unplaced(choices[..j]) < Unplaced(choices[..k])
    decreases k - j
  {
    UnplacedSplit(choices, j);
    UnplacedSplit(choices, k - 1);
    if j < k - 1 {
      UnplacedGrowsWeak(choices, j + 1, k - 1);
    }
  }

  lemma {:induction false} UnplacedGrowsWeak(choices: seq<Option<nat>>, j: nat, k: nat)
    requires j <= k < |choices|
    ensures Unplaced(choices[..j]) <= Unplaced(choices[..k])
    decreases k - j
  {
    if j < k {
      UnplacedSplit(choices, k - 1);
      UnplacedGrowsWeak(choices, j, k - 1);
    }
  }

  ghost predicate PlacedOnce(c: seq<Option<nat>>, sorted: seq<Face>, tracks: seq<Box>, out: seq<Box>, frameId: int)
    requires |c| == |sorted|
  {
    && (forall j :: 0 <= j < |sorted| ==>
          && Place(c, j, |tracks|) < |out|
          && out[Place(c, j, |tracks|)].face == Some(Stamp(sorted[j], frameId)))
    && (forall j, k :: 0 <= j < k < |sorted| ==> Place(c, j, |tracks|) != Place(c, k, |tracks|))
  }

  ghost predicate PersonsKept(c: seq<Option<nat>>, tracks: seq<Box>, out: seq<Box>) {
    && |tracks| <= |out|
    && (forall i :: 0 <= i < |tracks| ==> out[i] == tracks[i].(face := out[i].face))
    && (forall i :: 0 <= i < |tracks| && Some(i) !in c ==> out[i] == tracks[i])
  }

  /** The face-only boxes are the tail of the list; the one at index `n + r` has id `-1 - r`. */
  ghost predicate FaceOnlyTail(c: seq<Option<nat>>, sorted: seq<Face>, n: nat, out: seq<Box>, frameId: int)
    requires |c| == |sorted|
  {
    && |out| == n + Unplaced(c)
    && (forall j :: 0 <= j < |sorted| && c[j] == None ==>
          && Place(c, j, n) < |out|
          && out[Place(c, j, n)] == FaceOnlyBox(Stamp(sorted[j], frameId), n - 1 - Place(c, j, n)))
  }

  lemma PersonAt(tracks: seq<Box>, sorted: seq<Face>, c: seq<Option<nat>>, frameId: int, i: nat)
    requires |sorted| == |c| && i < |tracks| && Distinct(c)
    requires forall j :: 0 <= j < |c| && c[j].Some? ==> c[j].value < |tracks|
    ensures var out := Attach(tracks, sorted, c, -1, frameId, true);
            && i < |out|
            && out[i] == tracks[i].(face := out[i].face)
            && (Some(i) !in c ==> out[i] == tracks[i])
  {
    AttachKeeps(tracks, sorted, c, -1, frameId, true, i);
    if Some(i) in c {
      var j :| 0 <= j < |c| && c[j] == Some(i);
    }
  }

  lemma FaceAt(tracks: seq<Box>, sorted: seq<Face>, c: seq<Option<nat>>, frameId: int, j: nat)
    requires |sorted| == |c| && j < |c| && Distinct(c)
    requires forall k :: 0 <= k < |c| && c[k].Some? ==> c[k].value < |tracks|
    ensures var out := Attach(tracks, sorted, c, -1, frameId, true);
            var place := Place(c, j, |tracks|);
            && place < |out|
            && out[place].face == Some(Stamp(sorted[j], frameId))
            && (c[j] == None ==> out[place] == FaceOnlyBox(Stamp(sorted[j], frameId), |tracks| - 1 - place))
  {
    if c[j] == None {
      AttachAppends(tracks, sorted, c, -1, frameId, j);
    } else {
      AttachKeeps(tracks, sorted, c, -1, frameId, true, c[j].value);
    }
  }

  lemma PlacesDiffer(c: seq<Option<nat>>, j: nat, k: nat, n: nat)
    requires j < k < |c| && Distinct(c)
    requires forall h :: 0 <= h < |c| && c[h].Some? ==> c[h].value < n
    ensures Place(c, j, n) != Place(c, k, n)
  {
    if c[j] == None && c[k] == None {
      UnplacedGrows(c, j, k);
    }
  }

  /** The track shows a face of the list that scores at least this. */
  ghost predicate Shows(box: Box, faces: seq<Face>, frameId: int, score: real) {
    exists h :: 0 <= h < |faces| && box.face == Some(Stamp(faces[h], frameId)) && faces[h].score >= score
  }

  /**
   The assignment of one full-frame result is stable, whatever order sorting leaves equal scores in: a track gets at most
   one face, and a track that a face would rather have than its own shows a face of at least equal detector score in
   the list that is returned.
   */
  lemma StableAssignment(tracks: seq<Box>, sorted: seq<Face>, frameId: int, cfg: Config)
    requires Descending(sorted)
    ensures var c := Choices(sorted, tracks, Zeros(|tracks|), cfg.minFaceScore);
            var out := AssignSorted(tracks, sorted, frameId, cfg);
            && |tracks| <= |out| && Distinct(c)
            && (forall j :: 0 <= j < |c| && c[j].Some? ==>
                  && Plausible(sorted[j], tracks[c[j].value].rect, cfg.minFaceScore)
                  && out[c[j].value] == tracks[c[j].value].(face := Some(Stamp(sorted[j], frameId))))
            && (forall j, i :: 0 <= j < |c| && 0 <= i < |tracks|
                               && Prefers(sorted[j], tracks, c[j], i, cfg.minFaceScore) ==>
                  Shows(out[i], sorted, frameId, sorted[j].score))
  {
    var c := Choices(sorted, tracks, Zeros(|tracks|), cfg.minFaceScore);
    var out := AssignSorted(tracks, sorted, frameId, cfg);
    ChoicesValid(sorted, tracks, Zeros(|tracks|), cfg.minFaceScore);
    AttachLength(tracks, sorted, c, -1, frameId, cfg.independent);
    forall j | 0 <= j < |c| && c[j].Some?
      ensures out[c[j].value] == tracks[c[j].value].(face := Some(Stamp(sorted[j], frameId)))
    {
      AttachKeeps(tracks, sorted, c, -1, frameId, cfg.independent, c[j].value);
    }
    forall j, i | 0 <= j < |c| && 0 <= i < |tracks| && Prefers(sorted[j], tracks, c[j], i, cfg.minFaceScore)
      ensures Shows(out[i], sorted, frameId, sorted[j].score)
    {
      ChoicesPreferred(sorted, tracks, Zeros(|tracks|), cfg.minFaceScore, j, i);
      assert Some(i) in c[..j];
      var h :| 0 <= h < j && c[..j][h] == Some(i);
      assert c[h] == Some(i) && sorted[h].score >= sorted[j].score;
    }
  }

  /**
   In independent mode no face is lost or duplicated, whatever order sorting leaves equal scores in: face `j` of the sorted
   list sits at `Place(c, j, n)` and no two faces share a place, faces without a track become face-only boxes with ids
   -1, -2, ..., and every person track keeps its place and everything but its face.
   */
  lemma IndependentPlacement(tracks: seq<Box>, faces: seq<Face>, sorted: seq<Face>, frameId: int, cfg: Config)
    requires cfg.independent && multiset(sorted) == multiset(faces)
    ensures var c := Choices(sorted, tracks, Zeros(|tracks|), cfg.minFaceScore);
            var out := AssignSorted(tracks, sorted, frameId, cfg);
            && |sorted| == |faces|
            && PlacedOnce(c, sorted, tracks, out, frameId)
            && PersonsKept(c, tracks, out)
            && FaceOnlyTail(c, sorted, |tracks|, out, frameId)
  {
    var n := |tracks|;
    assert |multiset(sorted)| == |multiset(faces)|;
    var c := Choices(sorted, tracks, Zeros(n), cfg.minFaceScore);
    ChoicesValid(sorted, tracks, Zeros(n), cfg.minFaceScore);
    AttachLength(tracks, sorted, c, -1, frameId, true);
    var out := Attach(tracks, sorted, c, -1, frameId, true);
    forall i | 0 <= i < n
      ensures out[i] == tracks[i].(face := out[i].face) && (Some(i) !in c ==> out[i] == tracks[i])
    {
      PersonAt(tracks, sorted, c, frameId, i);
    }
    forall j | 0 <= j < |sorted|
      ensures Place(c, j, n) < |out| && out[Place(c, j, n)].face == Some(Stamp(sorted[j], frameId))
      ensures c[j] == None ==> out[Place(c, j, n)] == FaceOnlyBox(Stamp(sorted[j], frameId), n - 1 - Place(c, j, n))
    {
      FaceAt(tracks, sorted, c, frameId, j);
    }
    forall j, k | 0 <= j < k < |sorted| ensures Place(c, j, n) != Place(c, k, n) {
      PlacesDiffer(c, j, k, n);
    }
  }

  // Privacy: assignment never touches the action or the key of a box

  ghost predicate Guarded(boxes: seq<Box>) {
    forall i :: 0 <= i < |boxes| ==> boxes[i].action == Anonymize && boxes[i].identityKey == ""
  }

  lemma {:induction false} AttachGuarded(tracks: seq<Box>, faces: seq<Face>, choices: seq<Option<nat>>, nextId: int,
                                         frameId: int, independent: bool)
    requires |faces| == |choices|
    requires forall j :: 0 <= j < |choices| && choices[j].Some? ==> choices[j].value < |tracks|
    requires Guarded(tracks)
    ensures Guarded(Attach(tracks, faces, choices, nextId, frameId, independent))
    decreases |faces|
  {
    if faces != [] {
      AttachGuarded(AttachOne(tracks, Stamp(faces[0], frameId), choices[0], nextId, independent), faces[1..],
                    choices[1..], NextId(choices[0], nextId, independent), frameId, independent);
    }
  }

  /** Whatever faces arrive, applying them leaves every box to be anonymized and without an identity. */
  lemma {:induction false} ApplyGuarded(frameId: int, tracks: seq<Box>, results: seq<seq<Face>>, cfg: Config)
    requires Guarded(tracks)
    ensures Guarded(Apply(frameId, tracks, results, cfg))
    decreases |results|
  {
    if results != [] {
      var sorted := SortByScore(results[0]);
      AttachGuarded(tracks, sorted, Choices(sorted, tracks, Zeros(|tracks|), cfg.minFaceScore), -1, frameId,
                    cfg.independent);
      ApplyGuarded(frameId, Assign(tracks, results[0], frameId, cfg), results[1..], cfg);
    }
  }

  // Provenance: a face of the new boxes was there before or comes from a result

  ghost predicate HasFace(boxes: seq<Box>, face: Face) {
    exists i :: 0 <= i < |boxes| && boxes[i].face == Some(face)
  }

  ghost predicate StampedFrom(faces: seq<Face>, frameId: int, face: Face) {
    exists f :: f in faces && face == Stamp(f, frameId)
  }

  ghost predicate InResults(results: seq<seq<Face>>, frameId: int, face: Face) {
    exists n :: 0 <= n < |results| && StampedFrom(results[n], frameId, face)
  }

  lemma {:induction false} AttachFaces(tracks: seq<Box>, faces: seq<Face>, choices: seq<Option<nat>>, nextId: int,
                                       frameId: int, independent: bool, face: Face)
    requires |faces| == |choices|
    requires forall j :: 0 <= j < |choices| && choices[j].Some? ==> choices[j].value < |tracks|
    requires HasFace(Attach(tracks, faces, choices, nextId, frameId, independent), face)
    ensures HasFace(tracks, face) || StampedFrom(faces, frameId, face)
    decreases |faces|
  {
    if faces != [] {
      var stamped := Stamp(faces[0], frameId);
      var tracks' := AttachOne(tracks, stamped, choices[0], nextId, independent);
      AttachFaces(tracks', faces[1..], choices[1..], NextId(choices[0], nextId, independent), frameId, independent,
                  face);
      assert faces[0] in faces && forall f :: f in faces[1..] ==> f in faces;
      if HasFace(tracks', face) && face != stamped {
        var i :| 0 <= i < |tracks'| && tracks'[i].face == Some(face);
        assert i < |tracks| && tracks[i].face == Some(face);
      }
    }
  }

  lemma {:induction false} SortedFrom(faces: seq<Face>, frameId: int, face: Face)
    requires StampedFrom(SortByScore(faces), frameId, face)
    ensures StampedFrom(faces, frameId, face)
  {
    var f :| f in SortByScore(faces) && face == Stamp(f, frameId);
    assert f in multiset(SortByScore(faces));
    assert f in faces;
  }

  /** A face that is there after the results were applied was there before, or is one of theirs, stamped. */
  lemma {:induction false} ApplyFaces(frameId: int, tracks: seq<Box>, results: seq<seq<Face>>, cfg: Config, face: Face)
    requires HasFace(Apply(frameId, tracks, results, cfg), face)
    ensures HasFace(tracks, face) || InResults(results, frameId, face)
    decreases |results|
  {
    if results != [] {
      var sorted := SortByScore(results[0]);
      var after := Assign(tracks, results[0], frameId, cfg);
      ApplyFaces(frameId, after, results[1..], cfg, face);
      if InResults(results[1..], frameId, face) {
        var n :| 0 <= n < |results[1..]| && StampedFrom(results[1..][n], frameId, face);
        assert StampedFrom(results[n + 1], frameId, face);
      } else {
        AttachFaces(tracks, sorted, Choices(sorted, tracks, Zeros(|tracks|), cfg.minFaceScore), -1, frameId,
                    cfg.independent, face);
        if StampedFrom(sorted, frameId, face) {
          SortedFrom(results[0], frameId, face);
          assert StampedFrom(results[0], frameId, face);
        }
      }
    }
  }
}
