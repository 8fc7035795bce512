/**
 What one recognition does, step by step (core/src/recognizer/mobilefacenet_recognizer.cpp): every access to the
 shared decision cache is a function on the cache, and so is every local computation in between.
 */
module RecognizerSpec {
  import opened Types
  import opened Geometry

  // Matching an embedding against a gallery

  datatype GalleryEntry = GalleryEntry(identityKey: string, embedding: seq<real>)

  type Gallery = seq<GalleryEntry>

  datatype Match = Match(identityKey: string, score: real)

  function Dot(a: seq<real>, b: seq<real>, n: nat): real
    requires n <= |a| && n <= |b|
  {
    if n == 0 then 0.0 else Dot(a, b, n - 1) + a[n - 1] * b[n - 1]
  }

  function Similarity(embedding: seq<real>, entry: GalleryEntry): real {
    Dot(embedding, entry.embedding, if |embedding| <= |entry.embedding| then |embedding| else |entry.embedding|)
  }

  /** Coordinate `j` alone, and nothing else. */
  ghost predicate IsUnit(u: seq<real>, n: nat, j: nat)
    requires n <= |u|
  {
    forall i :: 0 <= i < n ==> u[i] == if i == j then 1.0 else 0.0
  }

  lemma {:induction false} DotOfUnit(u: seq<real>, x: seq<real>, n: nat, j: nat)
    requires n <= |u| && n <= |x| && IsUnit(u, n, j)
    ensures Dot(u, x, n) == if j < n then x[j] else 0.0
  {
    if n > 0 {
      DotOfUnit(u, x, n - 1, j);
    }
  }

  lemma {:induction false} DotIsLinear(a: seq<real>, b: seq<real>, k: real, c: seq<real>, x: seq<real>, n: nat)
    requires n <= |a| && n <= |b| && n <= |c| && n <= |x| && forall i :: 0 <= i < n ==> c[i] == a[i] + k * b[i]
    ensures Dot(c, x, n) == Dot(a, x, n) + k * Dot(b, x, n)
  {
    if n > 0 {
      DotIsLinear(a, b, k, c, x, n - 1);
      Distribute(a[n - 1], b[n - 1], k, c[n - 1], x[n - 1], Dot(b, x, n - 1));
    }
  }

  lemma Distribute(a: real, b: real, k: real, c: real, x: real, rest: real)
    requires c == a + k * b
    ensures c * x == a * x + k * (b * x) && k * (rest + b * x) == k * rest + k * (b * x)
  {
  }

  /** The similarity of embeddings of equal length is their inner product: linear, and for unit vectors a coordinate. */
  lemma SimilarityIsInnerProduct(a: seq<real>, b: seq<real>, k: real, c: seq<real>, entry: GalleryEntry, u: seq<real>,
                                 j: nat)
    requires |a| == |b| == |c| == |u| == |entry.embedding| && j < |u| && IsUnit(u, |u|, j)
    requires forall i :: 0 <= i < |c| ==> c[i] == a[i] + k * b[i]
    ensures Similarity(c, entry) == Similarity(a, entry) + k * Similarity(b, entry)
    ensures Similarity(u, entry) == entry.embedding[j]
  {
    DotIsLinear(a, b, k, c, entry.embedding, |c|);
    DotOfUnit(u, entry.embedding, |u|, j);
  }

  /** The running maximum over the first `n` entries, which starts at minus infinity. */
  function BestOf(embedding: seq<real>, gallery: Gallery, n: nat): Option<Match>
    requires n <= |gallery|
  {
    if n == 0 then None
    else
      var best, score := BestOf(embedding, gallery, n - 1), Similarity(embedding, gallery[n - 1]);
      if best == None || score > best.value.score then Some(Match(gallery[n - 1].identityKey, score)) else best
  }

  function BestMatch(embedding: seq<real>, gallery: Gallery): Match {
    var best := BestOf(embedding, gallery, |gallery|);
    if best == None then Match("", 0.0) else best.value
  }

  /** Among the first `n` entries no other beats entry `i`, and none before it equals it. */
  ghost predicate FirstMaximum(embedding: seq<real>, gallery: Gallery, n: nat, i: int) {
    && 0 <= i < n <= |gallery|
    && (forall j :: 0 <= j < n ==> Similarity(embedding, gallery[j]) <= Similarity(embedding, gallery[i]))
    && (forall j :: 0 <= j < i ==> Similarity(embedding, gallery[j]) < Similarity(embedding, gallery[i]))
  }

  /** The match is the first entry of the gallery that no other entry beats. */
  lemma {:induction false} BestIsFirstMaximum(embedding: seq<real>, gallery: Gallery, n: nat)
    requires n <= |gallery|
    ensures BestOf(embedding, gallery, n) == None <==> n == 0
    ensures n > 0 ==> exists i ::
              && FirstMaximum(embedding, gallery, n, i)
              && BestOf(embedding, gallery, n) == Some(Match(gallery[i].identityKey, Similarity(embedding, gallery[i])))
  {
    if n > 0 {
      BestIsFirstMaximum(embedding, gallery, n - 1);
      var k := n - 1;
      if n > 1 {
        var i :| FirstMaximum(embedding, gallery, n - 1, i)
          && BestOf(embedding, gallery, n - 1) == Some(Match(gallery[i].identityKey, Similarity(embedding, gallery[i])));
        k := if Similarity(embedding, gallery[n - 1]) > Similarity(embedding, gallery[i]) then n - 1 else i;
      }
      assert FirstMaximum(embedding, gallery, n, k);
    }
  }

  // Verdicts

  datatype Verdict = Verdict(identityKey: string, confidence: real, action: PrivacyAction, state: RecognitionState)

  function Judge(embedding: seq<real>, gallery: Gallery, threshold: real): Verdict {
    var m := BestMatch(embedding, gallery);
    if gallery != [] && m.score >= threshold then Verdict(m.identityKey, m.score, Allow, Known)
    else Verdict("", if gallery == [] then 0.0 else m.score, Anonymize, Unknown)
  }

  /** A box is allowed only on an entry of the gallery that reaches the threshold and that no other entry beats. */
  lemma AllowedMeansKnown(embedding: seq<real>, gallery: Gallery, threshold: real)
    ensures var v := Judge(embedding, gallery, threshold);
            v.action == Allow <==> exists i :: 0 <= i < |gallery| && Similarity(embedding, gallery[i]) >= threshold
    ensures var v := Judge(embedding, gallery, threshold);
            v.action == Allow ==> v.state == Known && exists i ::
              && 0 <= i < |gallery| && v.identityKey == gallery[i].identityKey
              && v.confidence == Similarity(embedding, gallery[i]) >= threshold
              && (forall j :: 0 <= j < |gallery| ==> Similarity(embedding, gallery[j]) <= v.confidence)
  {
    BestIsFirstMaximum(embedding, gallery, |gallery|);
  }

  function ApplyVerdict(box: Box, v: Verdict): Box {
    box.(identityKey := v.identityKey, confidence := v.confidence, action := v.action, state := v.state)
  }

  function NoDecision(box: Box): Box {
    box.(identityKey := "", confidence := 0.0, action := Anonymize, state := Skipped)
  }

  // Quality gates

  datatype Gates = Gates(minFaceScore: real, minFaceSize: real, pose: Face -> bool)

  const DUPLICATE_FACE_IOU := 0.45

  predicate GoodFace(face: Face, gates: Gates) {
    && face.isFresh && face.landmarkCount == 5 && face.score >= gates.minFaceScore
    && face.bbox.w >= gates.minFaceSize && face.bbox.h >= gates.minFaceSize
    && gates.pose(face)
  }

  /** Track `j` shows the same face as track `i` and takes precedence: it scores higher, or as high and comes first. */
  predicate Overrules(tracks: seq<Box>, j: nat, i: nat)
    requires i < |tracks| && j < |tracks| && tracks[i].face.Some?
  {
    && j != i && tracks[j].face.Some? && tracks[j].face.value.isFresh
    && Iou(tracks[i].face.value.bbox, tracks[j].face.value.bbox) > DUPLICATE_FACE_IOU
    && (tracks[j].face.value.score > tracks[i].face.value.score
        || (tracks[j].face.value.score == tracks[i].face.value.score && j < i))
  }

  ghost predicate PassesGates(tracks: seq<Box>, i: nat, gates: Gates)
    requires i < |tracks|
  {
    && tracks[i].face.Some? && GoodFace(tracks[i].face.value, gates)
    && forall j :: 0 <= j < |tracks| ==> !Overrules(tracks, j, i)
  }

  /** Two tracks that show the same face never both pass. */
  lemma OneTrackPerFace(tracks: seq<Box>, i: nat, j: nat, gates: Gates)
    requires i < j < |tracks| && PassesGates(tracks, i, gates) && PassesGates(tracks, j, gates)
    ensures Iou(tracks[i].face.value.bbox, tracks[j].face.value.bbox) <= DUPLICATE_FACE_IOU
  {
    IouLaws(tracks[i].face.value.bbox, tracks[j].face.value.bbox);
    assert !Overrules(tracks, i, j) && !Overrules(tracks, j, i);
  }

  // The decision cache, keyed by stream and track

  datatype Decision = InProgress(lastSeen: int) | Decided(lastSeen: int, verdict: Verdict)

  type Key = (string, int)

  type Cache = map<Key, Decision>

  function Cleanup(cache: Cache, stream: string, frameId: int, ttl: int): Cache {
    map k | k in cache && (k.0 != stream || frameId - cache[k].lastSeen <= ttl) :: cache[k]
  }

  /** What a box shows for a decision that is there already. */
  function Shown(box: Box, d: Decision): Box {
    if d.InProgress? then box.(state := Pending) else ApplyVerdict(box, d.verdict)
  }

  function Touch(cache: Cache, key: Key, frameId: int): Cache
    requires key in cache
  {
    if cache[key].InProgress? then cache else cache[key := cache[key].(lastSeen := frameId)]
  }

  function Mark(cache: Cache, key: Key, frameId: int): Cache {
    if key in cache then Touch(cache, key, frameId) else cache[key := InProgress(frameId)]
  }

  function Finish(cache: Cache, key: Key, frameId: int, v: Verdict): Cache {
    cache[key := Decided(frameId, v)]
  }

  function Unmark(cache: Cache, key: Key): Cache {
    if key in cache && cache[key].InProgress? then cache - {key} else cache
  }
}
