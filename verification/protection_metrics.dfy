/**
 The protection rates of the evaluation scripts (scripts/chokepoint/metrics_attack.py and metrics_detection.py).
 */
module ProtectionMetrics {
  import opened Coverage

  /** One entry of a dictionary from frame ids to faces, in the order in which the loops visit the dictionary. */
  datatype FrameFaces = FrameFaces(id: int, faces: seq<Roi>)

  type Face = (int, Roi)

  function RegionsOf(regions: map<int, seq<Roi>>, id: int): seq<Roi> {
    if id in regions then regions[id] else []
  }

  // All faces of a recording, and counts and sums over them

  function Tag(id: int, faces: seq<Roi>): seq<Face> {
    seq(|faces|, i requires 0 <= i < |faces| => (id, faces[i]))
  }

  function All(frames: seq<FrameFaces>): seq<Face> {
    if frames == [] then []
    else All(frames[..|frames| - 1]) + Tag(frames[|frames| - 1].id, frames[|frames| - 1].faces)
  }

  ghost function Count(list: seq<Face>, p: Face -> bool): nat {
    if list == [] then 0 else Count(list[..|list| - 1], p) + if p(list[|list| - 1]) then 1 else 0
  }

  ghost function Sum(list: seq<Face>, f: Face -> real): real {
    if list == [] then 0.0 else Sum(list[..|list| - 1], f) + f(list[|list| - 1])
  }

  function Rate(part: int, whole: int): real {
    if whole == 0 then 0.0 else part as real / whole as real
  }

  /** Counting the faces of one more frame. */
  ghost predicate Upto(seen: seq<Face>, frames: seq<FrameFaces>, n: nat, i: nat)
    requires n < |frames| && i <= |frames[n].faces|
  {
    seen == All(frames[..n]) + Tag(frames[n].id, frames[n].faces[..i])
  }

  lemma NextFace(seen: seq<Face>, frames: seq<FrameFaces>, n: nat, i: nat)
    requires n < |frames| && i < |frames[n].faces| && Upto(seen, frames, n, i)
    ensures Upto(seen + [(frames[n].id, frames[n].faces[i])], frames, n, i + 1)
  {
    assert Tag(frames[n].id, frames[n].faces[..i + 1])
        == Tag(frames[n].id, frames[n].faces[..i]) + [(frames[n].id, frames[n].faces[i])];
  }

  lemma NextFrame(seen: seq<Face>, frames: seq<FrameFaces>, n: nat)
    requires n < |frames| && Upto(seen, frames, n, |frames[n].faces|)
    ensures seen == All(frames[..n + 1])
  {
    assert frames[n].faces[..|frames[n].faces|] == frames[n].faces;
    assert frames[..n + 1][..n] == frames[..n];
  }

  lemma CountOneMore(seen: seq<Face>, x: Face, p: Face -> bool)
    ensures Count(seen + [x], p) == Count(seen, p) + if p(x) then 1 else 0
  {
    assert (seen + [x])[..|seen|] == seen;
  }

  lemma SumOneMore(seen: seq<Face>, x: Face, f: Face -> real)
    ensures Sum(seen + [x], f) == Sum(seen, f) + f(x)
  {
    assert (seen + [x])[..|seen|] == seen;
  }

  // What makes a face protected

  datatype Protection = Protection(faceRegions: map<int, seq<Roi>>, bodyRegions: map<int, seq<Roi>>, fullFrames: set<int>)

  function AllRegions(a: Protection, id: int): seq<Roi> {
    RegionsOf(a.faceRegions, id) + RegionsOf(a.bodyRegions, id)
  }

  ghost function EffectiveCoverage(a: Protection): Face -> real {
    (x: Face) => if x.0 in a.fullFrames then 1.0 else UnionCoverage(AllRegions(a, x.0), x.1)
  }

  ghost function Exposed(a: Protection, tau: real): Face -> bool {
    (x: Face) => EffectiveCoverage(a)(x) < tau
  }

  ghost function Anonymized(regions: map<int, seq<Roi>>, tau: real): Face -> bool {
    (x: Face) => exists r :: r in RegionsOf(regions, x.0) && SingleCoverage(r, x.1) >= tau
  }

  method CoverageOf(a: Protection, id: int, gt: Roi) returns (r: real)
    ensures r == EffectiveCoverage(a)((id, gt))
  {
    if id in a.fullFrames {
      return 1.0;
    }
    r := ComputeUnionCoverage(AllRegions(a, id), gt);
  }

  method FaceProtectionErrorRate(frames: seq<FrameFaces>, a: Protection, tau: real) returns (rate: real)
    ensures rate == Rate(Count(All(frames), Exposed(a, tau)), |All(frames)|)
  {
    var total, exposed := 0, 0;
    ghost var seen := [];
    for n := 0 to |frames|
      invariant seen == All(frames[..n]) && total == |seen| && exposed == Count(seen, Exposed(a, tau))
    {
      for i := 0 to |frames[n].faces|
        invariant Upto(seen, frames, n, i) && total == |seen| && exposed == Count(seen, Exposed(a, tau))
      {
        var coverage := CoverageOf(a, frames[n].id, frames[n].faces[i]);
        total := total + 1;
        if coverage < tau {
          exposed := exposed + 1;
        }
        CountOneMore(seen, (frames[n].id, frames[n].faces[i]), Exposed(a, tau));
        NextFace(seen, frames, n, i);
        seen := seen + [(frames[n].id, frames[n].faces[i])];
      }
      NextFrame(seen, frames, n);
    }
    assert frames[..|frames|] == frames;
    return Rate(exposed, total);
  }

  method EffectiveFaceRegionCoverageRatio(frames: seq<FrameFaces>, a: Protection) returns (ratio: real)
    ensures ratio == if |All(frames)| == 0 then 0.0 else Sum(All(frames), EffectiveCoverage(a)) / |All(frames)| as real
  {
    var total, coverage := 0, 0.0;
    ghost var seen := [];
    for n := 0 to |frames|
      invariant seen == All(frames[..n]) && total == |seen| && coverage == Sum(seen, EffectiveCoverage(a))
    {
      for i := 0 to |frames[n].faces|
        invariant Upto(seen, frames, n, i) && total == |seen| && coverage == Sum(seen, EffectiveCoverage(a))
      {
        var one := CoverageOf(a, frames[n].id, frames[n].faces[i]);
        total := total + 1;
        coverage := coverage + one;
        SumOneMore(seen, (frames[n].id, frames[n].faces[i]), EffectiveCoverage(a));
        NextFace(seen, frames, n, i);
        seen := seen + [(frames[n].id, frames[n].faces[i])];
      }
      NextFrame(seen, frames, n);
    }
    assert frames[..|frames|] == frames;
    return if total == 0 then 0.0 else coverage / total as real;
  }

  method AnyCovers(regions: seq<Roi>, face: Roi, tau: real) returns (covered: bool)
    ensures covered <==> exists r :: r in regions && SingleCoverage(r, face) >= tau
  {
    for i := 0 to |regions|
      invariant forall r :: r in regions[..i] ==> SingleCoverage(r, face) < tau
    {
      if SingleCoverage(regions[i], face) >= tau {
        return true;
      }
    }
    return false;
  }

  method NonGalleryFaceAnonymizationRecall(frames: seq<FrameFaces>, regions: map<int, seq<Roi>>, tau: real)
    returns (recall: real)
    ensures recall == Rate(Count(All(frames), Anonymized(regions, tau)), |All(frames)|)
  {
    var total, anonymized := 0, 0;
    ghost var seen := [];
    for n := 0 to |frames|
      invariant seen == All(frames[..n]) && total == |seen| && anonymized == Count(seen, Anonymized(regions, tau))
    {
      total := total + |frames[n].faces|;
      for i := 0 to |frames[n].faces|
        invariant Upto(seen, frames, n, i) && total == |seen| + |frames[n].faces| - i
        invariant anonymized == Count(seen, Anonymized(regions, tau))
      {
        var covered := AnyCovers(RegionsOf(regions, frames[n].id), frames[n].faces[i], tau);
        if covered {
          anonymized := anonymized + 1;
        }
        CountOneMore(seen, (frames[n].id, frames[n].faces[i]), Anonymized(regions, tau));
        NextFace(seen, frames, n, i);
        seen := seen + [(frames[n].id, frames[n].faces[i])];
      }
      NextFrame(seen, frames, n);
    }
    assert frames[..|frames|] == frames;
    return Rate(anonymized, total);
  }

  // How the rates are related

  /** The regions that the recall looks at are among those that the error rate looks at. */
  ghost predicate SameRegions(regions: map<int, seq<Roi>>, a: Protection) {
    forall id, r :: r in RegionsOf(regions, id) ==> r in AllRegions(a, id)
  }

  /** No face is both anonymized and exposed. */
  lemma AnonymizedIsNotExposed(regions: map<int, seq<Roi>>, a: Protection, tau: real, x: Face)
    requires SameRegions(regions, a) && Anonymized(regions, tau)(x)
    ensures !Exposed(a, tau)(x)
  {
    var r :| r in RegionsOf(regions, x.0) && SingleCoverage(r, x.1) >= tau;
    CoverageOfOne(r, x.1);
    CoverageBounded([r], x.1);
    CoverageMonotone([r], AllRegions(a, x.0), x.1);
    var c := UnionCoverage(AllRegions(a, x.0), x.1);
    assert tau <= 1.0 && tau <= c;
    assert EffectiveCoverage(a)(x) == if x.0 in a.fullFrames then 1.0 else c;
  }

  lemma {:induction false} DisjointCounts(list: seq<Face>, p: Face -> bool, q: Face -> bool)
    requires forall x :: x in list && p(x) ==> !q(x)
    ensures Count(list, p) + Count(list, q) <= |list|
    decreases |list|
  {
    if list != [] {
      assert list[|list| - 1] in list;
      DisjointCounts(list[..|list| - 1], p, q);
    }
  }

  lemma RatesAddUp(a: int, b: int, n: int)
    requires 0 <= a && 0 <= b && a + b <= n
    ensures Rate(a, n) + Rate(b, n) <= 1.0
  {
    if n > 0 {
      var p, q := Rate(a, n), Rate(b, n);
      assert p * n as real == a as real && q * n as real == b as real;
      assert (1.0 - p - q) * n as real == (n - a - b) as real;
      SignOfProduct(1.0 - p - q, n as real);
    }
  }

  lemma SignOfProduct(d: real, n: real)
    requires n > 0.0 && d * n >= 0.0
    ensures d >= 0.0
  {
  }

  /** For the same faces, regions and threshold, recall and error rate add up to at most 1. */
  lemma RecallPlusErrorAtMostOne(frames: seq<FrameFaces>, regions: map<int, seq<Roi>>, a: Protection, tau: real)
    requires SameRegions(regions, a)
    ensures Rate(Count(All(frames), Anonymized(regions, tau)), |All(frames)|)
          + Rate(Count(All(frames), Exposed(a, tau)), |All(frames)|) <= 1.0
  {
    var list := All(frames);
    forall x | x in list && Anonymized(regions, tau)(x) ensures !Exposed(a, tau)(x) {
      AnonymizedIsNotExposed(regions, a, tau, x);
    }
    DisjointCounts(list, Anonymized(regions, tau), Exposed(a, tau));
    RatesAddUp(Count(list, Anonymized(regions, tau)), Count(list, Exposed(a, tau)), |list|);
  }

  function Times(each: real, n: int): real {
    each * n as real
  }

  lemma LossOfOne(loss: real, s: real, c: int, n: int, value: real, low: bool)
    requires s + Times(loss, c) <= n as real
    requires value <= 1.0 && (low ==> value <= 1.0 - loss)
    ensures (s + value) + Times(loss, c + if low then 1 else 0) <= (n + 1) as real
  {
    if low {
      assert loss * (c + 1) as real == loss * c as real + loss;
    }
  }

  lemma {:induction false} LowValuesLowerTheSum(list: seq<Face>, f: Face -> real, p: Face -> bool, loss: real)
    requires forall x :: x in list ==> f(x) <= 1.0 && (p(x) ==> f(x) <= 1.0 - loss)
    ensures Sum(list, f) + Times(loss, Count(list, p)) <= |list| as real
    decreases |list|
  {
    if list != [] {
      var n := |list| - 1;
      var x := list[n];
      assert x in list;
      LowValuesLowerTheSum(list[..n], f, p, loss);
      LossOfOne(loss, Sum(list[..n], f), Count(list[..n], p), n, f(x), p(x));
    }
  }

  /** Exposed faces cost coverage: each takes at least `1 - tau` off the total that the coverage ratio divides. */
  lemma ExposureLowersCoverage(frames: seq<FrameFaces>, a: Protection, tau: real)
    ensures Sum(All(frames), EffectiveCoverage(a)) + Times(1.0 - tau, Count(All(frames), Exposed(a, tau)))
         <= |All(frames)| as real
  {
    var list := All(frames);
    forall x | x in list ensures EffectiveCoverage(a)(x) <= 1.0 {
      CoverageBounded(AllRegions(a, x.0), x.1);
    }
    LowValuesLowerTheSum(list, EffectiveCoverage(a), Exposed(a, tau), 1.0 - tau);
  }

  // What protects a face

  /** The cell belongs to a face region or a body region of the frame. */
  ghost predicate Covered(a: Protection, id: int, i: int, j: int) {
    || (id in a.faceRegions && exists r :: r in a.faceRegions[id] && Contains(r, i, j))
    || (id in a.bodyRegions && exists r :: r in a.bodyRegions[id] && Contains(r, i, j))
  }

  ghost function ProtectedCells(a: Protection, x: Face): set<(int, int)> {
    set i, j | x.1.x <= i < x.1.x + x.1.w && x.1.y <= j < x.1.y + x.1.h && Covered(a, x.0, i, j) :: (i, j)
  }

  lemma CoveredByAll(a: Protection, id: int, i: int, j: int)
    ensures (exists r :: r in AllRegions(a, id) && Contains(r, i, j)) <==> Covered(a, id, i, j)
  {
    if r :| r in AllRegions(a, id) && Contains(r, i, j) {
      assert r in RegionsOf(a.faceRegions, id) || r in RegionsOf(a.bodyRegions, id);
    }
    if id in a.faceRegions && exists r :: r in a.faceRegions[id] && Contains(r, i, j) {
      var r :| r in a.faceRegions[id] && Contains(r, i, j);
      assert r in AllRegions(a, id);
    }
    if id in a.bodyRegions && exists r :: r in a.bodyRegions[id] && Contains(r, i, j) {
      var r :| r in a.bodyRegions[id] && Contains(r, i, j);
      assert r in AllRegions(a, id);
    }
  }

  lemma CellsAreProtected(a: Protection, x: Face)
    ensures CoveredCells(AllRegions(a, x.0), x.1) == ProtectedCells(a, x)
  {
    forall i, j ensures (i, j) in CoveredCells(AllRegions(a, x.0), x.1) <==> (i, j) in ProtectedCells(a, x) {
      CoveredByAll(a, x.0, i, j);
    }
  }

  /**
   A face in a fully anonymized frame counts as covered. In any other frame its effective coverage is the share of its
   cells that some face region or some body region of that frame contains.
   */
  lemma EffectiveCoverageIsMeasured(a: Protection, x: Face)
    requires x.1.w > 0 && x.1.h > 0
    ensures if x.0 in a.fullFrames then EffectiveCoverage(a)(x) == 1.0
            else EffectiveCoverage(a)(x) * (x.1.w * x.1.h) as real == |ProtectedCells(a, x)| as real
  {
    CellsAreProtected(a, x);
    CellsOfFace(AllRegions(a, x.0), x.1);
    Quotient(|CoveredCells(AllRegions(a, x.0), x.1)| as real, (x.1.w * x.1.h) as real);
  }

  lemma Quotient(p: real, q: real)
    requires q > 0.0
    ensures (p / q) * q == p
  {
  }

  ghost predicate AtLeastAsProtected(a: Protection, b: Protection) {
    && a.fullFrames <= b.fullFrames
    && (forall id, r :: id in a.faceRegions && r in a.faceRegions[id] ==> id in b.faceRegions && r in b.faceRegions[id])
    && (forall id, r :: id in a.bodyRegions && r in a.bodyRegions[id] ==> id in b.bodyRegions && r in b.bodyRegions[id])
  }

  /** More regions or more fully anonymized frames never expose a face, for thresholds up to 1. */
  lemma ProtectionIsMonotone(a: Protection, b: Protection, tau: real, x: Face)
    requires AtLeastAsProtected(a, b) && tau <= 1.0 && Exposed(b, tau)(x)
    ensures Exposed(a, tau)(x)
  {
    assert EffectiveCoverage(b)(x) == if x.0 in b.fullFrames then 1.0 else UnionCoverage(AllRegions(b, x.0), x.1);
    assert EffectiveCoverage(a)(x) == if x.0 in a.fullFrames then 1.0 else UnionCoverage(AllRegions(a, x.0), x.1);
    forall r | r in AllRegions(a, x.0) ensures r in AllRegions(b, x.0) {
      assert r in RegionsOf(a.faceRegions, x.0) || r in RegionsOf(a.bodyRegions, x.0);
    }
    CoverageMonotone(AllRegions(a, x.0), AllRegions(b, x.0), x.1);
  }
}
