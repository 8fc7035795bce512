/**
 Non-maximum suppression, in the two forms of the person detectors (core/src/person_detector/yolox_detector.cpp and
 uhd_detector.cpp).
 */
module Nms {
  import opened Types
  import opened Sequences
  import opened Geometry
  import opened OrderedKeys

  datatype Detection = Detection(rect: Rect, score: real)

  ghost predicate Descending(list: seq<Detection>) {
    forall i, j :: 0 <= i < j < |list| ==> list[i].score >= list[j].score
  }

  ghost predicate Permutation(order: seq<nat>, n: nat) {
    && |order| == n
    && (forall i :: 0 <= i < |order| ==> order[i] < n)
    && (forall i, j :: 0 <= i < j < |order| ==> order[i] != order[j])
  }

  /** An order that `std::sort` may leave: descending scores, equal scores in any order. */
  ghost predicate Sorting(candidates: seq<Detection>, order: seq<nat>) {
    Permutation(order, |candidates|) && Descending(Pick(candidates, order))
  }

  /** Inserts an index before the first one with a smaller score. */
  method InsertIndex(candidates: seq<Detection>, order: seq<nat>, x: nat) returns (r: seq<nat>)
    requires x == |order| < |candidates| && Sorting(candidates[..x], order)
    ensures Sorting(candidates[..x + 1], r)
  {
    var k := 0;
    while k < |order| && candidates[order[k]].score >= candidates[x].score
      invariant k <= |order| && forall i :: 0 <= i < k ==> candidates[order[i]].score >= candidates[x].score
    {
      k := k + 1;
    }
    r := order[..k] + [x] + order[k..];
    InsertedSorting(candidates, order, x, k, r);
  }

  lemma InsertedAt(order: seq<nat>, x: nat, k: nat, i: nat)
    requires k <= |order| && i <= |order|
    ensures (order[..k] + [x] + order[k..])[i] == if i < k then order[i] else if i == k then x else order[i - 1]
  {
  }

  lemma InsertedPermutation(order: seq<nat>, x: nat, k: nat)
    requires Permutation(order, x) && k <= |order|
    ensures Permutation(order[..k] + [x] + order[k..], x + 1)
  {
    var r := order[..k] + [x] + order[k..];
    forall i | 0 <= i < |r| ensures r[i] < x + 1 {
      InsertedAt(order, x, k, i);
    }
    forall i, j | 0 <= i < j < |r| ensures r[i] != r[j] {
      InsertedAt(order, x, k, i);
      InsertedAt(order, x, k, j);
    }
  }

  /** Where element `i` of the longer list stood before. */
  function Before(k: nat, i: nat): nat
    requires i != k
  {
    if i < k then i else i - 1
  }

  lemma InsertedSorting(candidates: seq<Detection>, order: seq<nat>, x: nat, k: nat, r: seq<nat>)
    requires x == |order| < |candidates| && Sorting(candidates[..x], order) && k <= x
    requires forall i :: 0 <= i < k ==> candidates[order[i]].score >= candidates[x].score
    requires k < x ==> candidates[order[k]].score < candidates[x].score
    requires r == order[..k] + [x] + order[k..]
    ensures Sorting(candidates[..x + 1], r)
  {
    InsertedPermutation(order, x, k);
    var before, after := Pick(candidates[..x], order), Pick(candidates[..x + 1], r);
    forall i, j | 0 <= i < j < |r| ensures after[i].score >= after[j].score {
      InsertedAt(order, x, k, i);
      InsertedAt(order, x, k, j);
      if i == k {
        assert before[k].score >= before[j - 1].score;
      } else if j == k {
        assert after[i] == before[i];
      } else {
        assert before[Before(k, i)].score >= before[Before(k, j)].score;
      }
    }
  }

  method SortIndices(candidates: seq<Detection>) returns (order: seq<nat>)
    ensures Sorting(candidates, order)
  {
    order := [];
    for x := 0 to |candidates|
      invariant |order| == x && Sorting(candidates[..x], order)
    {
      order := InsertIndex(candidates, order, x);
    }
    assert candidates[..|candidates|] == candidates;
  }

  function Top<T>(list: seq<T>, topK: int): (r: seq<T>)
    ensures r <= list && (topK > 0 ==> |r| <= topK)
  {
    if topK > 0 && |list| > topK then list[..topK] else list
  }

  // The selection that both forms compute

  ghost predicate Suppressed(x: Detection, kept: seq<Detection>, threshold: real) {
    exists k :: k in kept && Iou(x.rect, k.rect) > threshold
  }

  ghost function KeepFrom(kept: seq<Detection>, rest: seq<Detection>, threshold: real): seq<Detection>
    decreases |rest|
  {
    if rest == [] then kept
    else if Suppressed(rest[0], kept, threshold) then KeepFrom(kept, rest[1..], threshold)
    else KeepFrom(kept + [rest[0]], rest[1..], threshold)
  }

  ghost function Keep(list: seq<Detection>, threshold: real): seq<Detection> {
    KeepFrom([], list, threshold)
  }

  /** The selection for an order that sorting may leave. */
  ghost predicate Selected(candidates: seq<Detection>, order: seq<nat>, topK: int, threshold: real,
                           boxes: seq<Detection>) {
    Sorting(candidates, order) && boxes == Keep(Top(Pick(candidates, order), topK), threshold)
  }

  /** The form of `YoloXDetector::detect`, on indices. */
  method NmsByIndex(candidates: seq<Detection>, topK: int, threshold: real)
    returns (boxes: seq<Detection>, ghost sorting: seq<nat>)
    ensures Selected(candidates, sorting, topK, threshold, boxes)
  {
    var order := SortIndices(candidates);
    sorting := order;
    order := Top(order, topK);
    var keepIndices: seq<nat> := [];
    ghost var rest := Pick(candidates, order);
    assert rest == Top(Pick(candidates, sorting), topK);
    for n := 0 to |order|
      invariant forall i :: 0 <= i < |keepIndices| ==> keepIndices[i] < |candidates|
      invariant KeepFrom(Pick(candidates, keepIndices), rest[n..], threshold) == Keep(rest, threshold)
    {
      var candidate := candidates[order[n]];
      assert rest[n..][0] == candidate && rest[n..][1..] == rest[n + 1..];
      var suppressed := AnyOverlaps(candidate, Pick(candidates, keepIndices), threshold);
      if !suppressed {
        assert Pick(candidates, keepIndices + [order[n]]) == Pick(candidates, keepIndices) + [candidate];
        keepIndices := keepIndices + [order[n]];
      }
    }
    boxes := Pick(candidates, keepIndices);
  }

  /** The inner loop over what has been kept. */
  method AnyOverlaps(candidate: Detection, kept: seq<Detection>, threshold: real) returns (r: bool)
    ensures r == Suppressed(candidate, kept, threshold)
  {
    for i := 0 to |kept|
      invariant forall k :: k in kept[..i] ==> Iou(candidate.rect, k.rect) <= threshold
    {
      if Iou(candidate.rect, kept[i].rect) > threshold {
        return true;
      }
    }
    return false;
  }

  /** The form of `nms_sorted`, on boxes. */
  method NmsSorted(candidates: seq<Detection>, topK: int, threshold: real)
    returns (boxes: seq<Detection>, ghost sorting: seq<nat>)
    ensures Selected(candidates, sorting, topK, threshold, boxes)
  {
    var order := SortIndices(candidates);
    sorting := order;
    var sorted := Top(Pick(candidates, order), topK);
    boxes := [];
    for n := 0 to |sorted|
      invariant KeepFrom(boxes, sorted[n..], threshold) == Keep(sorted, threshold)
    {
      assert sorted[n..][0] == sorted[n] && sorted[n..][1..] == sorted[n + 1..];
      var suppressed := AnyOverlaps(sorted[n], boxes, threshold);
      if !suppressed {
        boxes := boxes + [sorted[n]];
      }
    }
  }

  // What the selection guarantees

  ghost predicate Apart(list: seq<Detection>, threshold: real) {
    forall i, j :: 0 <= i < j < |list| ==> Iou(list[i].rect, list[j].rect) <= threshold
  }

  lemma {:induction false} ApartAppend(kept: seq<Detection>, x: Detection, threshold: real)
    requires Apart(kept, threshold) && !Suppressed(x, kept, threshold)
    ensures Apart(kept + [x], threshold)
  {
    var longer := kept + [x];
    forall i, j | 0 <= i < j < |longer| ensures Iou(longer[i].rect, longer[j].rect) <= threshold {
      if j == |kept| {
        assert kept[i] in kept;
        IouLaws(longer[i].rect, x.rect);
      }
    }
  }

  lemma {:induction false} KeepApart(kept: seq<Detection>, rest: seq<Detection>, threshold: real)
    requires Apart(kept, threshold)
    ensures Apart(KeepFrom(kept, rest, threshold), threshold)
    decreases |rest|
  {
    if rest != [] {
      if Suppressed(rest[0], kept, threshold) {
        KeepApart(kept, rest[1..], threshold);
      } else {
        ApartAppend(kept, rest[0], threshold);
        KeepApart(kept + [rest[0]], rest[1..], threshold);
      }
    }
  }

  lemma {:induction false} KeepOnlyGrows(kept: seq<Detection>, rest: seq<Detection>, threshold: real)
    ensures kept <= KeepFrom(kept, rest, threshold)
    ensures |KeepFrom(kept, rest, threshold)| <= |kept| + |rest|
    ensures forall x :: x in KeepFrom(kept, rest, threshold) ==> x in kept || x in rest
    decreases |rest|
  {
    if rest != [] {
      if Suppressed(rest[0], kept, threshold) {
        KeepOnlyGrows(kept, rest[1..], threshold);
      } else {
        KeepOnlyGrows(kept + [rest[0]], rest[1..], threshold);
      }
    }
  }

  ghost predicate LosesTo(x: Detection, out: seq<Detection>, threshold: real) {
    exists k :: k in out && k.score >= x.score && Iou(x.rect, k.rect) > threshold
  }

  lemma SuppressedLoses(x: Detection, kept: seq<Detection>, out: seq<Detection>, threshold: real)
    requires Suppressed(x, kept, threshold) && forall k :: k in kept ==> k.score >= x.score && k in out
    ensures LosesTo(x, out, threshold)
  {
    var k :| k in kept && Iou(x.rect, k.rect) > threshold;
    assert k in out;
  }

  ghost predicate Above(kept: seq<Detection>, rest: seq<Detection>) {
    forall k, y :: k in kept && y in rest ==> k.score >= y.score
  }

  lemma AboveRest(kept: seq<Detection>, rest: seq<Detection>)
    requires rest != [] && Descending(rest) && Above(kept, rest)
    ensures Descending(rest[1..]) && Above(kept, rest[1..]) && Above(kept + [rest[0]], rest[1..])
  {
    var first := rest[0];
    assert first in rest && forall y :: y in rest[1..] ==> y in rest;
    forall k, y | k in kept + [first] && y in rest[1..] ensures k.score >= y.score {
      assert k in kept || k == first;
    }
  }

  /** A candidate that is not kept overlaps a kept one of at least its score. */
  lemma {:induction false} DroppedLose(kept: seq<Detection>, rest: seq<Detection>, threshold: real, x: Detection)
    requires Descending(rest) && Above(kept, rest) && x in rest
    ensures x in KeepFrom(kept, rest, threshold) || LosesTo(x, KeepFrom(kept, rest, threshold), threshold)
    decreases |rest|
  {
    var first := rest[0];
    AboveRest(kept, rest);
    if Suppressed(first, kept, threshold) {
      if x == first {
        KeepOnlyGrows(kept, rest[1..], threshold);
        SuppressedLoses(x, kept, KeepFrom(kept, rest[1..], threshold), threshold);
      } else {
        DroppedLose(kept, rest[1..], threshold, x);
      }
    } else if x == first {
      KeepOnlyGrows(kept + [first], rest[1..], threshold);
      assert first in kept + [first];
    } else {
      DroppedLose(kept + [first], rest[1..], threshold, x);
    }
  }

  lemma {:induction false} KeepsAllApart(kept: seq<Detection>, rest: seq<Detection>, threshold: real)
    requires Apart(kept + rest, threshold)
    ensures KeepFrom(kept, rest, threshold) == kept + rest
    decreases |rest|
  {
    if rest == [] {
      assert kept + rest == kept;
    } else {
      forall k | k in kept ensures Iou(rest[0].rect, k.rect) <= threshold {
        var i :| 0 <= i < |kept| && kept[i] == k;
        assert (kept + rest)[i] == k && (kept + rest)[|kept|] == rest[0];
        IouLaws(k.rect, rest[0].rect);
      }
      assert kept + [rest[0]] + rest[1..] == kept + rest;
      KeepsAllApart(kept + [rest[0]], rest[1..], threshold);
    }
  }

  /**
   For any order of equal scores: what is returned is pairwise within the threshold, and each of the first `topK`
   candidates, or of all when there is no such limit, is returned or overlaps a returned one of at least its score by more
   than the threshold.
   */
  lemma NmsIsSound(candidates: seq<Detection>, order: seq<nat>, topK: int, threshold: real, out: seq<Detection>)
    requires Selected(candidates, order, topK, threshold, out)
    ensures var best := Pick(candidates, order)[..if 0 < topK < |candidates| then topK else |candidates|];
            && Apart(out, threshold) && |out| <= |best|
            && (forall x :: x in out ==> x in best)
            && (forall x :: x in best ==> x in out || LosesTo(x, out, threshold))
  {
    var top := Top(Pick(candidates, order), topK);
    assert top == Pick(candidates, order)[..if 0 < topK < |candidates| then topK else |candidates|];
    KeepApart([], top, threshold);
    KeepOnlyGrows([], top, threshold);
    forall x | x in top ensures x in Keep(top, threshold) || LosesTo(x, Keep(top, threshold), threshold) {
      DroppedLose([], top, threshold, x);
    }
  }

  lemma {:induction false} PickApart(list: seq<Detection>, order: seq<nat>, threshold: real)
    requires Apart(list, threshold) && Permutation(order, |list|)
    ensures Apart(Pick(list, order), threshold)
  {
    var picked := Pick(list, order);
    forall i, j | 0 <= i < j < |picked| ensures Iou(picked[i].rect, picked[j].rect) <= threshold {
      assert order[i] != order[j];
      IouLaws(list[order[i]].rect, list[order[j]].rect);
    }
  }

  /** Running it again on what it returned keeps everything, in whatever order equal scores come. */
  lemma NmsTwice(candidates: seq<Detection>, order: seq<nat>, again: seq<nat>, topK: int, threshold: real)
    requires Sorting(candidates, order)
    requires Sorting(Keep(Top(Pick(candidates, order), topK), threshold), again)
    ensures var out := Keep(Top(Pick(candidates, order), topK), threshold);
            Keep(Top(Pick(out, again), topK), threshold) == Pick(out, again)
  {
    var out := Keep(Top(Pick(candidates, order), topK), threshold);
    NmsIsSound(candidates, order, topK, threshold, Keep(Top(Pick(candidates, order), topK), threshold));
    PickApart(out, again, threshold);
    assert [] + Pick(out, again) == Pick(out, again);
    KeepsAllApart([], Pick(out, again), threshold);
  }

  // Both forms return the same boxes

  ghost predicate StrictlyDescending(list: seq<Detection>) {
    forall i, j :: 0 <= i < j < |list| ==> list[i].score > list[j].score
  }

  ghost predicate DistinctScores(candidates: seq<Detection>) {
    forall i, j :: 0 <= i < j < |candidates| ==> candidates[i].score != candidates[j].score
  }

  ghost function Below(n: nat): (r: set<nat>)
    ensures |r| == n && forall i: nat :: i in r <==> i < n
  {
    if n == 0 then {} else Below(n - 1) + {n - 1}
  }

  ghost function Elements(order: seq<nat>): set<nat> {
    set x | x in order
  }

  lemma {:induction false} DistinctSize(order: seq<nat>)
    requires forall i, j :: 0 <= i < j < |order| ==> order[i] != order[j]
    ensures |Elements(order)| == |order|
    decreases |order|
  {
    if order != [] {
      var front, last := order[..|order| - 1], order[|order| - 1];
      DistinctSize(front);
      assert order == front + [last];
      assert Elements(order) == Elements(front) + {last};
      forall x | x in front ensures x != last {
        var i :| 0 <= i < |front| && front[i] == x;
        assert order[i] == x;
      }
    }
  }

  /** A permutation of the indices contains every index. */
  lemma PermutationCovers(order: seq<nat>, n: nat)
    requires Permutation(order, n)
    ensures forall i :: 0 <= i < n ==> i in order
  {
    DistinctSize(order);
    forall x | x in Elements(order) ensures x in Below(n) {
    }
    SameSize(Elements(order), Below(n));
    forall i | 0 <= i < n ensures i in order {
      assert i in Below(n);
    }
  }

  lemma SameSize(a: set<nat>, b: set<nat>)
    requires a <= b && |a| == |b|
    ensures a == b
  {
    assert b == a + (b - a);
    assert |b - a| == 0;
  }

  lemma PickedElements(candidates: seq<Detection>, order: seq<nat>, x: Detection)
    requires Permutation(order, |candidates|)
    ensures x in Pick(candidates, order) <==> x in candidates
  {
    PermutationCovers(order, |candidates|);
    if x in candidates {
      var i :| 0 <= i < |candidates| && candidates[i] == x;
      assert i in order;
      var k :| 0 <= k < |order| && order[k] == i;
      assert Pick(candidates, order)[k] == x;
    }
  }

  lemma {:induction false} DescendingUnique(a: seq<Detection>, b: seq<Detection>)
    requires StrictlyDescending(a) && StrictlyDescending(b) && forall x :: x in a <==> x in b
    ensures a == b
    decreases |a|
  {
    if a == [] {
      NonemptyList(b);
    } else {
      var x := a[0];
      assert x in a && x in b;
      var y := b[0];
      assert y in b && y in a;
      assert x == y;
      forall z ensures z in a[1..] <==> z in b[1..] {
        assert z in a <==> z == a[0] || z in a[1..];
        assert z in b <==> z == b[0] || z in b[1..];
        assert a[0] !in a[1..] && b[0] !in b[1..];
      }
      DescendingUnique(a[1..], b[1..]);
    }
  }

  lemma SortedIsStrict(candidates: seq<Detection>, order: seq<nat>)
    requires Sorting(candidates, order) && DistinctScores(candidates)
    ensures StrictlyDescending(Pick(candidates, order))
  {
    var picked := Pick(candidates, order);
    forall i, j | 0 <= i < j < |picked| ensures picked[i].score > picked[j].score {
      assert order[i] != order[j];
    }
  }

  /**
   Both forms return the same boxes whenever their sorts leave the candidates in the same order, equal scores included;
   and without equal scores they always do, whatever sort they use.
   */
  lemma FormsAgree(candidates: seq<Detection>, topK: int, threshold: real, m: seq<nat>, n: seq<nat>,
                   a: seq<Detection>, b: seq<Detection>)
    requires Selected(candidates, m, topK, threshold, a) && Selected(candidates, n, topK, threshold, b)
    requires Pick(candidates, m) == Pick(candidates, n) || DistinctScores(candidates)
    ensures a == b
  {
    if DistinctScores(candidates) {
      SortedIsStrict(candidates, m);
      SortedIsStrict(candidates, n);
      forall x ensures x in Pick(candidates, m) <==> x in Pick(candidates, n) {
        PickedElements(candidates, m, x);
        PickedElements(candidates, n, x);
      }
      DescendingUnique(Pick(candidates, m), Pick(candidates, n));
    }
  }
}
