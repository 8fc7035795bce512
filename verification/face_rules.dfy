/**
 What the face policy promises about faces and boxes, in terms of their geometry alone
 (core/src/face_detector/face_policy.cpp).
 */
module FaceRules {
  import opened Types
  import opened Geometry
  import opened FacePolicy
  import Overlap

  // When a face belongs to a person

  /** At least half of the face lies in the rectangle, and so does its centre. */
  predicate HalfInside(face: Rect, person: Rect) {
    && 2.0 * IntersectionArea(face, person) >= Area(face) > 0.0
    && person.x <= face.x + face.w / 2.0 <= person.x + person.w
    && person.y <= face.y + face.h / 2.0 <= person.y + person.h
  }

  /** Scores at least the minimum and has the size of a face of this person. */
  predicate FaceSized(face: Face, person: Rect, minFaceScore: real) {
    && face.score >= minFaceScore && person.w > 1.0 && person.h > 1.0
    && 2.0 <= face.bbox.w <= person.w * 0.95
    && 4.0 <= face.bbox.h && person.h * 0.04 <= face.bbox.h
    && (face.bbox.h <= person.h * 0.6 || face.bbox.h <= 4.0 || face.bbox.h <= person.h * 0.04)
  }

  lemma AtLeastHalf(inter: real, area: real)
    requires area > 0.0
    ensures inter / area >= 0.5 <==> 2.0 * inter >= area
  {
    var q := inter / area;
    assert q * area == inter;
    assert (q - 0.5) * area == inter - 0.5 * area;
    assert (q - 0.5) * area >= 0.0 <==> q - 0.5 >= 0.0;
  }

  lemma PositiveArea(r: Rect)
    requires r.w > 0.0 && r.h > 0.0
    ensures Area(r) == r.w * r.h > 0.0
  {
  }

  /** A face can be a person's exactly when it has the size for it and at least half of it lies inside. */
  lemma PlausibleExactly(face: Face, person: Rect, minFaceScore: real)
    ensures Plausible(face, person, minFaceScore) <==>
              FaceSized(face, person, minFaceScore) && HalfInside(face.bbox, person)
  {
    if face.bbox.w >= 2.0 && face.bbox.h >= 2.0 {
      PositiveArea(face.bbox);
      AtLeastHalf(IntersectionArea(face.bbox, person), Area(face.bbox));
    }
  }

  /** A face that lies inside the person as a whole can be theirs if it only has the size for it. */
  lemma InsideIsPlausible(face: Face, person: Rect, minFaceScore: real)
    requires Overlap.Within(face.bbox, person)
    ensures Plausible(face, person, minFaceScore) <==> FaceSized(face, person, minFaceScore)
  {
    PlausibleExactly(face, person, minFaceScore);
    if face.bbox.w >= 2.0 && face.bbox.h >= 2.0 {
      Overlap.InsideIsCommon(face.bbox, person);
    }
  }

  // Which person it goes to

  lemma SelfShare(a: real)
    requires a > 0.0
    ensures a / a == 1.0
  {
  }

  lemma SmallerDivisor(a: real, p: real, q: real, x: real, y: real)
    requires a > 0.0 && p > 0.0 && q > 0.0 && x * p == a && y * q == a
    ensures x > y <==> p < q
  {
    PositiveFactor(y, q, a);
    assert (x - y) * p == y * (q - p);
    SameSign(x - y, p, y, q - p);
  }

  lemma SameSign(u: real, p: real, y: real, v: real)
    requires p > 0.0 && y > 0.0 && u * p == y * v
    ensures u > 0.0 <==> v > 0.0
  {
    if u > 0.0 {
      PositiveFactor(v, y, u * p);
    }
    if v > 0.0 {
      PositiveFactor(u, p, y * v);
    }
  }

  lemma PositiveFactor(y: real, q: real, a: real)
    requires a > 0.0 && q > 0.0 && y * q == a
    ensures y > 0.0
  {
  }

  lemma ScoreInside(face: Face, person: Rect)
    requires Overlap.Within(face.bbox, person) && face.bbox.w > 0.0 && face.bbox.h > 0.0 && Area(face.bbox) >= 1.0
    ensures TrackScore(face, person) == face.score + 2.0 + Iou(face.bbox, person)
    ensures Iou(face.bbox, person) * Area(person) == Area(face.bbox)
  {
    Overlap.InsideIsCommon(face.bbox, person);
    Overlap.IouOfPart(face.bbox, person);
    SelfShare(Area(face.bbox));
  }

  /** Of two persons that contain the whole face, the one with the smaller box is preferred. */
  lemma SmallerPersonPreferred(face: Face, p: Rect, q: Rect)
    requires Overlap.Within(face.bbox, p) && Overlap.Within(face.bbox, q)
    requires face.bbox.w > 0.0 && face.bbox.h > 0.0 && Area(face.bbox) >= 1.0
    ensures TrackScore(face, p) > TrackScore(face, q) <==> Area(p) < Area(q)
  {
    ScoreInside(face, p);
    ScoreInside(face, q);
    PositiveArea(p);
    PositiveArea(q);
    SmallerDivisor(Area(face.bbox), Area(p), Area(q), Iou(face.bbox, p), Iou(face.bbox, q));
  }

  lemma ShareBounded(inter: real, area: real)
    requires 0.0 <= inter <= area && area >= 1.0
    ensures 0.0 <= inter / area <= 1.0 && (inter == 0.0 ==> inter / area == 0.0)
    ensures (inter / area) * area == inter
  {
    QuotientBounded(inter, area);
  }

  /**
   The detector score counts once, the share of the face inside the person twice, the overlap of the boxes once: at most 3
   on top of the detector score, and nothing when the boxes lie apart.
   */
  lemma TrackScoreMeasures(face: Face, person: Rect)
    requires Area(face.bbox) >= 1.0
    ensures (TrackScore(face, person) - face.score - Iou(face.bbox, person)) * Area(face.bbox)
         == 2.0 * IntersectionArea(face.bbox, person)
    ensures face.score <= TrackScore(face, person) <= face.score + 3.0
    ensures IntersectionArea(face.bbox, person) == 0.0 ==> TrackScore(face, person) == face.score
  {
    IntersectionBounded(face.bbox, person);
    IouLaws(face.bbox, person);
    ShareBounded(IntersectionArea(face.bbox, person), Area(face.bbox));
  }

  // Every face ends up in a box

  /** The box carries the face as it was detected, marked as fresh and of this frame. */
  ghost predicate Carries(box: Box, f: Face, frameId: int) {
    && box.face.Some? && box.face.value.bbox == f.bbox && box.face.value.score == f.score
    && box.face.value.landmarkCount == f.landmarkCount && box.face.value.frameId == frameId && box.face.value.isFresh
  }

  /** A box of its own for a face without a person: on the face, without a track id, to be anonymized. */
  ghost predicate OwnBox(box: Box, f: Face) {
    && box.rect == f.bbox && box.id < 0 && box.score == f.score
    && box.identityKey == "" && box.confidence == 0.0 && box.action == Anonymize && box.state == FaceOnly
  }

  /** The face is in the list: in a box of its own, or with a person that holds at least half of it. */
  ghost predicate Shown(boxes: seq<Box>, f: Face, frameId: int) {
    exists i :: 0 <= i < |boxes| && Carries(boxes[i], f, frameId)
                && (OwnBox(boxes[i], f) || HalfInside(f.bbox, boxes[i].rect))
  }

  /** Every box stays in its place as it is, but for its face; boxes that are new have no track id. */
  ghost predicate BoxesKept(tracks: seq<Box>, out: seq<Box>) {
    && |tracks| <= |out|
    && (forall i :: 0 <= i < |tracks| ==> out[i] == tracks[i].(face := out[i].face))
    && (forall i :: |tracks| <= i < |out| ==> out[i].id < 0 && out[i].action == Anonymize && out[i].identityKey == "")
  }

  lemma {:induction false} AttachBoxesKept(tracks: seq<Box>, faces: seq<Face>, choices: seq<Option<nat>>, nextId: int,
                                           frameId: int, independent: bool)
    requires |faces| == |choices| && nextId < 0
    requires forall j :: 0 <= j < |choices| && choices[j].Some? ==> choices[j].value < |tracks|
    ensures var out := Attach(tracks, faces, choices, nextId, frameId, independent);
            BoxesKept(tracks, out) && (!independent ==> |out| == |tracks|)
    decreases |faces|
  {
    if faces != [] {
      var tracks' := AttachOne(tracks, Stamp(faces[0], frameId), choices[0], nextId, independent);
      AttachBoxesKept(tracks', faces[1..], choices[1..], NextId(choices[0], nextId, independent), frameId, independent);
    }
  }

  /** Applying face results keeps every box of the tracker; only independent mode adds boxes. */
  lemma {:induction false} ApplyKeepsBoxes(frameId: int, tracks: seq<Box>, results: seq<seq<Face>>, cfg: Config)
    ensures var out := Apply(frameId, tracks, results, cfg);
            BoxesKept(tracks, out) && (!cfg.independent ==> |out| == |tracks|)
    decreases |results|
  {
    if results != [] {
      var sorted := SortByScore(results[0]);
      AttachBoxesKept(tracks, sorted, Choices(sorted, tracks, Zeros(|tracks|), cfg.minFaceScore), -1, frameId,
                      cfg.independent);
      ApplyKeepsBoxes(frameId, Assign(tracks, results[0], frameId, cfg), results[1..], cfg);
    }
  }

  lemma AssignedFace(tracks: seq<Box>, sorted: seq<Face>, frameId: int, cfg: Config, j: nat)
    requires Descending(sorted) && j < |sorted|
    requires cfg.independent || Choices(sorted, tracks, Zeros(|tracks|), cfg.minFaceScore)[j].Some?
    ensures Shown(AssignSorted(tracks, sorted, frameId, cfg), sorted[j], frameId)
  {
    var c, out := Choices(sorted, tracks, Zeros(|tracks|), cfg.minFaceScore), AssignSorted(tracks, sorted, frameId, cfg);
    StableAssignment(tracks, sorted, frameId, cfg);
    if c[j].Some? {
      var i := c[j].value;
      PlausibleExactly(sorted[j], tracks[i].rect, cfg.minFaceScore);
      assert Carries(out[i], sorted[j], frameId) && HalfInside(sorted[j].bbox, out[i].rect);
    } else {
      IndependentPlacement(tracks, sorted, sorted, frameId, cfg);
      var i := Place(c, j, |tracks|);
      assert i >= |tracks|;
      assert Carries(out[i], sorted[j], frameId) && OwnBox(out[i], sorted[j]);
    }
  }

  lemma {:induction false} SortedHas(faces: seq<Face>, f: Face)
    requires f in faces
    ensures f in SortByScore(faces)
  {
    assert f in multiset(faces);
    assert f in multiset(SortByScore(faces));
  }

  lemma AssignShows(frameId: int, tracks: seq<Box>, faces: seq<Face>, cfg: Config, f: Face)
    requires cfg.independent && f in faces
    ensures Shown(Assign(tracks, faces, frameId, cfg), f, frameId)
  {
    SortedHas(faces, f);
    var sorted := SortByScore(faces);
    var j :| 0 <= j < |sorted| && sorted[j] == f;
    AssignedFace(tracks, sorted, frameId, cfg, j);
  }

  lemma ApplyOne(frameId: int, tracks: seq<Box>, results: seq<seq<Face>>, cfg: Config)
    requires |results| == 1
    ensures Apply(frameId, tracks, results, cfg) == Assign(tracks, results[0], frameId, cfg)
  {
    var after := Assign(tracks, results[0], frameId, cfg);
    assert Apply(frameId, after, results[1..], cfg) == after;
  }

  /** In independent mode no face of the last result is lost: each is in the list that is handed on. */
  lemma {:induction false} NoFaceIsLost(frameId: int, tracks: seq<Box>, results: seq<seq<Face>>, cfg: Config, f: Face)
    requires cfg.independent && results != [] && f in results[|results| - 1]
    ensures Shown(Apply(frameId, tracks, results, cfg), f, frameId)
    decreases |results|
  {
    if |results| == 1 {
      AssignShows(frameId, tracks, results[0], cfg, f);
      ApplyOne(frameId, tracks, results, cfg);
    } else {
      NoFaceIsLost(frameId, Assign(tracks, results[0], frameId, cfg), results[1..], cfg, f);
    }
  }
}
