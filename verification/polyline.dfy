/**
 Simplification of a polyline (controller/veilsight_controller/analytics_engine.py), with squared distances.
 */
module Polyline {
  import opened Types
  import opened Sequences
  import opened Segments

  function Square(a: real): (r: real)
    ensures r >= 0.0
  {
    a * a
  }

  function DistanceSquared(a: Point, b: Point): real {
    Square(a.x - b.x) + Square(a.y - b.y)
  }

  /** The squared distance of `p` from the line through `a` and `b`, or from `a` when they coincide. */
  function Deviation(a: Point, b: Point, p: Point): real {
    var length := DistanceSquared(a, b);
    if length == 0.0 then DistanceSquared(p, a) else Square(SideOfLine(a, b, p)) / length
  }

  /** The tolerance, its square, and the squared deviation of a point from a line. */
  datatype MetricData = Metric(epsilon: real, limit: real, deviation: (Point, Point, Point) -> real)

  type Metric = g: MetricData | g.limit >= 0.0 witness MetricData.Metric(0.0, 0.0, Deviation)

  function Squared(epsilon: real): Metric {
    MetricData.Metric(epsilon, Square(epsilon), Deviation)
  }

  function DeviationAt(points: seq<Point>, k: nat, g: Metric): real
    requires k < |points|
  {
    g.deviation(points[0], points[|points| - 1], points[k])
  }

  /** The running maximum over the interior points before `n`, and where it was reached first. */
  function Farthest(points: seq<Point>, n: nat, g: Metric): (nat, real)
    requires 1 <= n < |points|
  {
    if n == 1 then (0, 0.0)
    else
      var best := Farthest(points, n - 1, g);
      if DeviationAt(points, n - 1, g) > best.1 then (n - 1, DeviationAt(points, n - 1, g)) else best
  }

  /** The first interior point of largest deviation, if any deviates at all. */
  ghost predicate IsFarthest(points: seq<Point>, n: nat, m: nat, d: real, g: Metric)
    requires 1 <= n < |points|
  {
    && (forall k :: 1 <= k < n ==> DeviationAt(points, k, g) <= d)
    && (if d > 0.0 then
          && 1 <= m < n && DeviationAt(points, m, g) == d
          && (forall k :: 1 <= k < m ==> DeviationAt(points, k, g) < d)
        else m == 0 && d == 0.0)
  }

  lemma {:induction false} FarthestIsFarthest(points: seq<Point>, n: nat, g: Metric)
    requires 1 <= n < |points|
    ensures var r := Farthest(points, n, g); IsFarthest(points, n, r.0, r.1, g)
    decreases n
  {
    if n > 1 {
      FarthestIsFarthest(points, n - 1, g);
    }
  }

  lemma FarthestUnique(points: seq<Point>, n: nat, m: nat, d: real, m': nat, d': real, g: Metric)
    requires 1 <= n < |points| && IsFarthest(points, n, m, d, g) && IsFarthest(points, n, m', d', g) && d' > 0.0
    ensures m == m' && d == d'
  {
    assert DeviationAt(points, m', g) <= d;
    assert DeviationAt(points, m, g) <= d';
  }

  // Which points are kept

  function All(n: nat): (r: seq<nat>)
    ensures |r| == n && forall i :: 0 <= i < n ==> r[i] == i
  {
    seq(n, i requires 0 <= i => i)
  }

  function Shift(indices: seq<nat>, offset: nat): (r: seq<nat>)
    ensures |r| == |indices| && forall i :: 0 <= i < |r| ==> r[i] == indices[i] + offset
  {
    seq(|indices|, i requires 0 <= i < |indices| => indices[i] + offset)
  }

  /** Indices in increasing order, from the first point to the last. */
  ghost predicate Selection(indices: seq<nat>, n: nat) {
    && (forall i :: 0 <= i < |indices| ==> indices[i] < n)
    && (forall i, j :: 0 <= i < j < |indices| ==> indices[i] < indices[j])
    && (n > 0 ==> indices != [] && indices[0] == 0 && indices[|indices| - 1] == n - 1)
    && (n > 1 ==> |indices| > 1)
  }

  function Join(left: seq<nat>, right: seq<nat>, m: nat): seq<nat>
    requires left != []
  {
    left[..|left| - 1] + Shift(right, m)
  }

  /** Where the recursion splits, if it does. */
  function SplitPoint(points: seq<Point>, g: Metric): (r: Option<nat>)
    requires |points| > 2
    ensures r.Some? ==> 0 < r.value < |points| - 1
  {
    var best := Farthest(points, |points| - 1, g);
    FarthestIsFarthest(points, |points| - 1, g);
    if best.1 > g.limit then Some(best.0) else None
  }

  function Kept(points: seq<Point>, g: Metric): (r: seq<nat>)
    ensures points != [] ==> r != []
    decreases |points|
  {
    if |points| <= 2 || g.epsilon <= 0.0 then All(|points|)
    else
      var m := SplitPoint(points, g);
      if m.Some? then Join(Kept(points[..m.value + 1], g), Kept(points[m.value..], g), m.value)
      else [0, |points| - 1]
  }

  lemma JoinSelection(left: seq<nat>, right: seq<nat>, m: nat, n: nat)
    requires 0 < m < n - 1 && Selection(left, m + 1) && Selection(right, n - m)
    ensures Selection(Join(left, right, m), n)
    ensures Join(left, right, m)[|left| - 1] == m && |Join(left, right, m)| >= 3
  {
  }

  lemma KeptUnrolls(points: seq<Point>, g: Metric, m: nat)
    requires |points| > 2 && g.epsilon > 0.0 && SplitPoint(points, g) == Some(m)
    ensures Kept(points, g) == Join(Kept(points[..m + 1], g), Kept(points[m..], g), m)
  {
  }

  lemma {:induction false} KeptStep(points: seq<Point>, g: Metric, m: nat)
    requires |points| > 2 && g.epsilon > 0.0 && SplitPoint(points, g) == Some(m)
    requires Selection(Kept(points[..m + 1], g), m + 1) && Selection(Kept(points[m..], g), |points| - m)
    ensures Selection(Kept(points, g), |points|)
  {
    JoinSelection(Kept(points[..m + 1], g), Kept(points[m..], g), m, |points|);
    KeptUnrolls(points, g, m);
  }

  lemma KeptWithoutSplit(points: seq<Point>, g: Metric)
    requires |points| <= 2 || g.epsilon <= 0.0 || SplitPoint(points, g) == None
    ensures Selection(Kept(points, g), |points|)
  {
  }

  /** The kept points are a subsequence with the same ends. */
  lemma {:induction false} KeptIsSelection(points: seq<Point>, g: Metric)
    ensures Selection(Kept(points, g), |points|)
    decreases |points|
  {
    if |points| <= 2 || g.epsilon <= 0.0 || SplitPoint(points, g) == None {
      KeptWithoutSplit(points, g);
    } else {
      var m := SplitPoint(points, g).value;
      KeptIsSelection(points[..m + 1], g);
      KeptIsSelection(points[m..], g);
      KeptStep(points, g, m);
    }
  }

  function Simplify(points: seq<Point>, g: Metric): (r: seq<Point>)
    ensures points != [] ==> r != []
    decreases |points|
  {
    if |points| <= 2 || g.epsilon <= 0.0 then points
    else
      var m := SplitPoint(points, g);
      if m.Some? then Glue(Simplify(points[..m.value + 1], g), Simplify(points[m.value..], g))
      else [points[0], points[|points| - 1]]
  }

  /** Two halves share the point at which they were split. */
  function Glue(left: seq<Point>, right: seq<Point>): seq<Point>
    requires left != []
  {
    left[..|left| - 1] + right
  }

  method SimplifyPolyline(points: seq<Point>, g: Metric) returns (out: seq<Point>)
    ensures out == Simplify(points, g)
    decreases |points|
  {
    if |points| <= 2 || g.epsilon <= 0.0 {
      return points;
    }
    var start, end := points[0], points[|points| - 1];
    var maxDistance, maxIndex := 0.0, 0;
    for index := 1 to |points| - 1
      invariant (maxIndex, maxDistance) == Farthest(points, index, g)
    {
      var distance := g.deviation(start, end, points[index]);
      if distance > maxDistance {
        maxDistance, maxIndex := distance, index;
      }
    }
    if maxDistance > g.limit {
      assert SplitPoint(points, g) == Some(maxIndex);
      var left := SimplifyPolyline(points[..maxIndex + 1], g);
      var right := SimplifyPolyline(points[maxIndex..], g);
      return left[..|left| - 1] + right;
    }
    return [start, end];
  }

  lemma JoinPicks(points: seq<Point>, m: nat, left: seq<nat>, right: seq<nat>)
    requires 0 < m < |points| - 1 && Selection(left, m + 1) && Selection(right, |points| - m)
    ensures Selection(Join(left, right, m), |points|)
    ensures Pick(points, Join(left, right, m))
         == Pick(points[..m + 1], left)[..|left| - 1] + Pick(points[m..], right)
  {
    JoinSelection(left, right, m, |points|);
  }

  /** The result consists of the kept points. */
  lemma {:induction false} SimplifyIsPick(points: seq<Point>, g: Metric)
    ensures Selection(Kept(points, g), |points|) && Simplify(points, g) == Pick(points, Kept(points, g))
    decreases |points|
  {
    KeptIsSelection(points, g);
    if |points| <= 2 || g.epsilon <= 0.0 {
      PickAll(points);
    } else {
      var m := SplitPoint(points, g);
      if m.Some? {
        SimplifyIsPick(points[..m.value + 1], g);
        SimplifyIsPick(points[m.value..], g);
        JoinPicks(points, m.value, Kept(points[..m.value + 1], g), Kept(points[m.value..], g));
      }
    }
  }

  lemma PickAll(points: seq<Point>)
    ensures Pick(points, All(|points|)) == points
  {
  }

  // Every dropped point is close to the line between its kept neighbours

  /** The points between two indices deviate by at most `epsilon` from the line through the points there. */
  ghost predicate CloseBetween(points: seq<Point>, i: nat, j: nat, g: Metric)
    requires i < |points| && j < |points|
  {
    forall k :: i < k < j ==> g.deviation(points[i], points[j], points[k]) <= g.limit
  }

  ghost predicate DroppedAreClose(points: seq<Point>, indices: seq<nat>, g: Metric)
    requires Selection(indices, |points|)
  {
    forall k :: 0 <= k < |indices| - 1 ==> CloseBetween(points, indices[k], indices[k + 1], g)
  }

  lemma CloseInSlice(points: seq<Point>, m: nat, n: nat, i: nat, j: nat, g: Metric)
    requires m <= n <= |points| && i < n - m && j < n - m && CloseBetween(points[m..n], i, j, g)
    ensures CloseBetween(points, i + m, j + m, g)
  {
    var slice := points[m..n];
    forall k | i + m < k < j + m ensures g.deviation(points[i + m], points[j + m], points[k]) <= g.limit {
      assert slice[k - m] == points[k];
      assert g.deviation(slice[i], slice[j], slice[k - m]) <= g.limit;
    }
  }

  lemma {:induction false} JoinClose(points: seq<Point>, m: nat, left: seq<nat>, right: seq<nat>, g: Metric)
    requires 0 < m < |points| - 1 && Selection(left, m + 1) && Selection(right, |points| - m)
    requires DroppedAreClose(points[..m + 1], left, g) && DroppedAreClose(points[m..], right, g)
    ensures Selection(Join(left, right, m), |points|) && DroppedAreClose(points, Join(left, right, m), g)
  {
    JoinSelection(left, right, m, |points|);
    var all := Join(left, right, m);
    assert points[0..m + 1] == points[..m + 1] && points[m..|points|] == points[m..];
    forall k | 0 <= k < |all| - 1 ensures CloseBetween(points, all[k], all[k + 1], g) {
      if k < |left| - 1 {
        CloseInSlice(points, 0, m + 1, left[k], left[k + 1], g);
      } else {
        var l := k - (|left| - 1);
        CloseInSlice(points, m, |points|, right[l], right[l + 1], g);
      }
    }
  }

  lemma AllClose(points: seq<Point>, g: Metric)
    requires |points| > 2 && SplitPoint(points, g) == None
    ensures CloseBetween(points, 0, |points| - 1, g)
  {
    FarthestIsFarthest(points, |points| - 1, g);
    forall k | 0 < k < |points| - 1 ensures g.deviation(points[0], points[|points| - 1], points[k]) <= g.limit {
      assert DeviationAt(points, k, g) <= Farthest(points, |points| - 1, g).1;
    }
  }

  lemma CloseWithoutSplit(points: seq<Point>, g: Metric)
    requires Selection(Kept(points, g), |points|)
    requires |points| <= 2 || g.epsilon <= 0.0 || SplitPoint(points, g) == None
    ensures DroppedAreClose(points, Kept(points, g), g)
  {
    if |points| > 2 && g.epsilon > 0.0 {
      AllClose(points, g);
    }
  }

  lemma CloseStep(points: seq<Point>, g: Metric, m: nat, left: seq<nat>, right: seq<nat>)
    requires |points| > 2 && g.epsilon > 0.0 && SplitPoint(points, g) == Some(m)
    requires left == Kept(points[..m + 1], g) && right == Kept(points[m..], g)
    requires Selection(left, m + 1) && Selection(right, |points| - m)
    requires DroppedAreClose(points[..m + 1], left, g) && DroppedAreClose(points[m..], right, g)
    ensures Selection(Kept(points, g), |points|) && DroppedAreClose(points, Kept(points, g), g)
  {
    JoinClose(points, m, left, right, g);
    KeptUnrolls(points, g, m);
  }

  lemma {:induction false} KeptIsClose(points: seq<Point>, g: Metric)
    ensures Selection(Kept(points, g), |points|)
    ensures DroppedAreClose(points, Kept(points, g), g)
    decreases |points|
  {
    if |points| <= 2 || g.epsilon <= 0.0 || SplitPoint(points, g) == None {
      KeptIsSelection(points, g);
      CloseWithoutSplit(points, g);
    } else {
      var m := SplitPoint(points, g).value;
      KeptIsClose(points[..m + 1], g);
      KeptIsClose(points[m..], g);
      CloseStep(points, g, m, Kept(points[..m + 1], g), Kept(points[m..], g));
    }
  }

  // Simplifying again changes nothing

  /** The first point of largest deviation is kept, and it is still that among the kept points. */
  lemma StillFarthest(points: seq<Point>, indices: seq<nat>, q: nat, g: Metric)
    requires |points| > 2 && Selection(indices, |points|) && 0 < q < |indices| - 1
    requires indices[q] == Farthest(points, |points| - 1, g).0 && Farthest(points, |points| - 1, g).1 > 0.0
    ensures Farthest(Pick(points, indices), |indices| - 1, g) == (q, Farthest(points, |points| - 1, g).1)
  {
    var kept, d := Pick(points, indices), Farthest(points, |points| - 1, g).1;
    FarthestIsFarthest(points, |points| - 1, g);
    FarthestIsFarthest(kept, |kept| - 1, g);
    forall k | 1 <= k < |kept| - 1 ensures DeviationAt(kept, k, g) == DeviationAt(points, indices[k], g) {
    }
    assert IsFarthest(kept, |kept| - 1, q, d, g);
    var r := Farthest(kept, |kept| - 1, g);
    FarthestUnique(kept, |kept| - 1, r.0, r.1, q, d, g);
  }

  /** Any selection that keeps the split point is split there too. */
  lemma SplitOfPick(points: seq<Point>, indices: seq<nat>, q: nat, g: Metric, m: nat)
    requires |points| > 2 && Selection(indices, |points|) && SplitPoint(points, g) == Some(m)
    requires 0 < q < |indices| - 1 && indices[q] == m
    ensures SplitPoint(Pick(points, indices), g) == Some(q)
  {
    StillFarthest(points, indices, q, g);
  }

  lemma SplitIsKept(points: seq<Point>, g: Metric, m: nat)
    requires |points| > 2 && g.epsilon > 0.0 && SplitPoint(points, g) == Some(m)
    ensures |Simplify(points, g)| > 2
    ensures SplitPoint(Simplify(points, g), g) == Some(|Simplify(points[..m + 1], g)| - 1)
  {
    var left, right := Kept(points[..m + 1], g), Kept(points[m..], g);
    KeptIsSelection(points[..m + 1], g);
    KeptIsSelection(points[m..], g);
    JoinSelection(left, right, m, |points|);
    KeptUnrolls(points, g, m);
    SimplifyIsPick(points[..m + 1], g);
    SimplifyIsPick(points, g);
    SplitOfPick(points, Join(left, right, m), |left| - 1, g, m);
  }

  lemma Halves(left: seq<Point>, right: seq<Point>)
    requires left != [] && right != [] && left[|left| - 1] == right[0]
    ensures Glue(left, right)[..|left|] == left && Glue(left, right)[|left| - 1..] == right
  {
  }

  lemma SimplifyUnrolls(points: seq<Point>, g: Metric, m: nat)
    requires |points| > 2 && g.epsilon > 0.0 && SplitPoint(points, g) == Some(m)
    ensures Simplify(points, g) == Glue(Simplify(points[..m + 1], g), Simplify(points[m..], g))
  {
  }

  lemma GlueAgain(out: seq<Point>, left: seq<Point>, right: seq<Point>, g: Metric)
    requires 2 < |out| && |left| <= |out| && left != [] && g.epsilon > 0.0
    requires SplitPoint(out, g) == Some(|left| - 1)
    requires out[..|left|] == left && out[|left| - 1..] == right
    requires Simplify(left, g) == left && Simplify(right, g) == right
    ensures Simplify(out, g) == Glue(left, right)
  {
    SimplifyUnrolls(out, g, |left| - 1);
  }

  lemma SimplifyEnds(points: seq<Point>, g: Metric)
    requires |points| >= 2
    ensures |Simplify(points, g)| >= 2
    ensures Simplify(points, g)[0] == points[0]
    ensures Simplify(points, g)[|Simplify(points, g)| - 1] == points[|points| - 1]
  {
    SimplifyIsPick(points, g);
    KeptIsSelection(points, g);
  }

  lemma HalvesMeet(points: seq<Point>, g: Metric, m: nat)
    requires 0 < m < |points| - 1
    ensures var left, right := Simplify(points[..m + 1], g), Simplify(points[m..], g);
            |left| >= 2 && |right| >= 2 && left[|left| - 1] == right[0]
  {
    SimplifyEnds(points[..m + 1], g);
    SimplifyEnds(points[m..], g);
  }

  lemma GlueIsSplitThere(points: seq<Point>, g: Metric, m: nat, left: seq<Point>, right: seq<Point>, out: seq<Point>)
    requires |points| > 2 && g.epsilon > 0.0 && SplitPoint(points, g) == Some(m)
    requires left == Simplify(points[..m + 1], g) && out == Simplify(points, g)
    ensures |out| > 2 && left != [] && SplitPoint(out, g) == Some(|left| - 1)
  {
    SplitIsKept(points, g, m);
  }

  lemma TwiceStep(points: seq<Point>, g: Metric, m: nat, left: seq<Point>, right: seq<Point>, out: seq<Point>)
    requires |points| > 2 && g.epsilon > 0.0 && SplitPoint(points, g) == Some(m)
    requires left == Simplify(points[..m + 1], g) && right == Simplify(points[m..], g)
    requires left != [] && right != [] && left[|left| - 1] == right[0] && out == Glue(left, right) == Simplify(points, g)
    requires Simplify(left, g) == left && Simplify(right, g) == right
    ensures Simplify(out, g) == out
  {
    GlueIsSplitThere(points, g, m, left, right, out);
    Halves(left, right);
    GlueAgain(out, left, right, g);
  }

  lemma TwiceWithoutSplit(points: seq<Point>, g: Metric)
    requires |points| <= 2 || g.epsilon <= 0.0 || SplitPoint(points, g) == None
    ensures Simplify(Simplify(points, g), g) == Simplify(points, g)
  {
  }

  /** Simplification is idempotent. */
  lemma {:induction false} SimplifyTwice(points: seq<Point>, g: Metric)
    ensures Simplify(Simplify(points, g), g) == Simplify(points, g)
    decreases |points|
  {
    if |points| <= 2 || g.epsilon <= 0.0 || SplitPoint(points, g) == None {
      TwiceWithoutSplit(points, g);
    } else {
      var m := SplitPoint(points, g).value;
      SimplifyTwice(points[..m + 1], g);
      SimplifyTwice(points[m..], g);
      HalvesMeet(points, g, m);
      SimplifyUnrolls(points, g, m);
      TwiceStep(points, g, m, Simplify(points[..m + 1], g), Simplify(points[m..], g), Simplify(points, g));
    }
  }

  // Nothing is kept without need

  /** Kept point `q` deviates by more than the tolerance from the line through two kept points around it. */
  ghost predicate Needed(points: seq<Point>, indices: seq<nat>, q: nat, g: Metric)
    requires Selection(indices, |points|)
  {
    exists a, b :: 0 <= a < q < b < |indices|
                   && g.deviation(points[indices[a]], points[indices[b]], points[indices[q]]) > g.limit
  }

  ghost predicate AllNeeded(points: seq<Point>, indices: seq<nat>, g: Metric)
    requires Selection(indices, |points|)
  {
    forall q :: 0 < q < |indices| - 1 ==> Needed(points, indices, q, g)
  }

  lemma JoinedAt(left: seq<nat>, right: seq<nat>, m: nat, n: nat, a: nat)
    requires 0 < m < n - 1 && Selection(left, m + 1) && Selection(right, n - m)
    ensures a < |left| ==> a < |Join(left, right, m)| && Join(left, right, m)[a] == left[a]
    ensures a < |right| ==>
              |left| - 1 + a < |Join(left, right, m)| && Join(left, right, m)[|left| - 1 + a] == right[a] + m
  {
  }

  lemma NeededBy(points: seq<Point>, indices: seq<nat>, a: nat, q: nat, b: nat, g: Metric)
    requires Selection(indices, |points|) && a < q < b < |indices|
    requires g.deviation(points[indices[a]], points[indices[b]], points[indices[q]]) > g.limit
    ensures Needed(points, indices, q, g)
  {
  }

  lemma NeededLeft(points: seq<Point>, m: nat, left: seq<nat>, right: seq<nat>, q: nat, g: Metric)
    requires 0 < m < |points| - 1 && Selection(left, m + 1) && Selection(right, |points| - m)
    requires Needed(points[..m + 1], left, q, g)
    ensures Selection(Join(left, right, m), |points|) && Needed(points, Join(left, right, m), q, g)
  {
    JoinSelection(left, right, m, |points|);
    var slice := points[..m + 1];
    var a, b :| 0 <= a < q < b < |left| && g.deviation(slice[left[a]], slice[left[b]], slice[left[q]]) > g.limit;
    JoinedAt(left, right, m, |points|, a);
    JoinedAt(left, right, m, |points|, b);
    JoinedAt(left, right, m, |points|, q);
    NeededBy(points, Join(left, right, m), a, q, b, g);
  }

  lemma RightAt(points: seq<Point>, m: nat, left: seq<nat>, right: seq<nat>, a: nat)
    requires 0 < m < |points| - 1 && Selection(left, m + 1) && Selection(right, |points| - m) && a < |right|
    ensures var all, i := Join(left, right, m), |left| - 1 + a;
            i < |all| && all[i] < |points| && points[all[i]] == points[m..][right[a]]
  {
    JoinedAt(left, right, m, |points|, a);
  }

  lemma NeededRightBy(points: seq<Point>, m: nat, left: seq<nat>, right: seq<nat>, a: nat, q: nat, b: nat, g: Metric)
    requires 0 < m < |points| - 1 && Selection(left, m + 1) && Selection(right, |points| - m) && a < q < b < |right|
    requires g.deviation(points[m..][right[a]], points[m..][right[b]], points[m..][right[q]]) > g.limit
    requires Selection(Join(left, right, m), |points|)
    ensures Needed(points, Join(left, right, m), |left| - 1 + q, g)
  {
    var all, o := Join(left, right, m), |left| - 1;
    RightAt(points, m, left, right, a);
    RightAt(points, m, left, right, b);
    RightAt(points, m, left, right, q);
    NeededBy(points, all, o + a, o + q, o + b, g);
  }

  lemma NeededRight(points: seq<Point>, m: nat, left: seq<nat>, right: seq<nat>, q: nat, g: Metric)
    requires 0 < m < |points| - 1 && Selection(left, m + 1) && Selection(right, |points| - m)
    requires Needed(points[m..], right, q, g)
    ensures Selection(Join(left, right, m), |points|) && Needed(points, Join(left, right, m), |left| - 1 + q, g)
  {
    JoinSelection(left, right, m, |points|);
    var a, b :| 0 <= a < q < b < |right|
                && g.deviation(points[m..][right[a]], points[m..][right[b]], points[m..][right[q]]) > g.limit;
    NeededRightBy(points, m, left, right, a, q, b, g);
  }

  lemma {:induction false} JoinNeeded(points: seq<Point>, m: nat, left: seq<nat>, right: seq<nat>, g: Metric)
    requires 0 < m < |points| - 1 && Selection(left, m + 1) && Selection(right, |points| - m)
    requires AllNeeded(points[..m + 1], left, g) && AllNeeded(points[m..], right, g)
    requires g.deviation(points[0], points[|points| - 1], points[m]) > g.limit
    ensures Selection(Join(left, right, m), |points|) && AllNeeded(points, Join(left, right, m), g)
  {
    JoinSelection(left, right, m, |points|);
    var all := Join(left, right, m);
    forall q | 0 < q < |all| - 1 ensures Needed(points, all, q, g) {
      if q < |left| - 1 {
        NeededLeft(points, m, left, right, q, g);
      } else if q == |left| - 1 {
        assert all[0] == 0 && all[|all| - 1] == |points| - 1 && all[q] == m;
      } else {
        NeededRight(points, m, left, right, q - (|left| - 1), g);
      }
    }
  }

  lemma SplitDeviates(points: seq<Point>, g: Metric)
    requires |points| > 2 && SplitPoint(points, g).Some?
    ensures g.deviation(points[0], points[|points| - 1], points[SplitPoint(points, g).value]) > g.limit
  {
    FarthestIsFarthest(points, |points| - 1, g);
  }

  lemma {:induction false} KeptIsNeeded(points: seq<Point>, g: Metric)
    requires g.epsilon > 0.0
    ensures Selection(Kept(points, g), |points|) && AllNeeded(points, Kept(points, g), g)
    decreases |points|
  {
    KeptIsSelection(points, g);
    if |points| > 2 && SplitPoint(points, g).Some? {
      var m := SplitPoint(points, g).value;
      KeptIsNeeded(points[..m + 1], g);
      KeptIsNeeded(points[m..], g);
      SplitDeviates(points, g);
      JoinNeeded(points, m, Kept(points[..m + 1], g), Kept(points[m..], g), g);
      KeptUnrolls(points, g, m);
    }
  }

  lemma FlatIsTwoEnds(points: seq<Point>, g: Metric)
    requires |points| > 2 && g.epsilon > 0.0
    requires forall k :: 0 < k < |points| - 1 ==> g.deviation(points[0], points[|points| - 1], points[k]) <= g.limit
    ensures Simplify(points, g) == [points[0], points[|points| - 1]]
  {
    if SplitPoint(points, g).Some? {
      SplitDeviates(points, g);
    }
  }

  /** Every point between two neighbouring kept ones is close to the line through them. */
  ghost predicate OnlyCloseDropped(points: seq<Point>, indices: seq<nat>, epsilon: real)
    requires Selection(indices, |points|)
  {
    forall k, i :: 0 <= k < |indices| - 1 && indices[k] < i < indices[k + 1] ==>
      Deviation(points[indices[k]], points[indices[k + 1]], points[i]) <= epsilon * epsilon
  }

  /** Kept point `q` is far from the line through two kept points around it. */
  ghost predicate FarFromLine(points: seq<Point>, indices: seq<nat>, q: nat, epsilon: real)
    requires Selection(indices, |points|)
  {
    exists a, b :: 0 <= a < q < b < |indices|
                   && Deviation(points[indices[a]], points[indices[b]], points[indices[q]]) > epsilon * epsilon
  }

  ghost predicate OnlyFarKept(points: seq<Point>, indices: seq<nat>, epsilon: real)
    requires Selection(indices, |points|)
  {
    forall q :: 0 < q < |indices| - 1 ==> FarFromLine(points, indices, q, epsilon)
  }

  /** `out` consists of the points at `indices`: with the same ends, what is dropped close and what is kept needed. */
  ghost predicate Simplifies(points: seq<Point>, out: seq<Point>, indices: seq<nat>, epsilon: real) {
    && Selection(indices, |points|) && out == Pick(points, indices)
    && OnlyCloseDropped(points, indices, epsilon) && (epsilon > 0.0 ==> OnlyFarKept(points, indices, epsilon))
  }

  lemma SquaredMeans(epsilon: real)
    ensures var g := Squared(epsilon);
            && g.limit == epsilon * epsilon && g.epsilon == epsilon
            && forall a, b, p :: g.deviation(a, b, p) == Deviation(a, b, p)
  {
  }

  lemma CloseDropped(points: seq<Point>, indices: seq<nat>, epsilon: real, g: Metric)
    requires g == Squared(epsilon) && Selection(indices, |points|) && DroppedAreClose(points, indices, g)
    ensures OnlyCloseDropped(points, indices, epsilon)
  {
    SquaredMeans(epsilon);
    forall k, i | 0 <= k < |indices| - 1 && indices[k] < i < indices[k + 1]
      ensures Deviation(points[indices[k]], points[indices[k + 1]], points[i]) <= epsilon * epsilon
    {
      assert CloseBetween(points, indices[k], indices[k + 1], g);
    }
  }

  lemma FarKept(points: seq<Point>, indices: seq<nat>, epsilon: real, g: Metric)
    requires g == Squared(epsilon) && Selection(indices, |points|) && AllNeeded(points, indices, g)
    ensures OnlyFarKept(points, indices, epsilon)
  {
    SquaredMeans(epsilon);
    forall q | 0 < q < |indices| - 1 ensures FarFromLine(points, indices, q, epsilon) {
      assert Needed(points, indices, q, g);
      var a, b :| 0 <= a < q < b < |indices|
                  && g.deviation(points[indices[a]], points[indices[b]], points[indices[q]]) > g.limit;
      assert Deviation(points[indices[a]], points[indices[b]], points[indices[q]]) > epsilon * epsilon;
    }
  }

  lemma KeptSimplifies(points: seq<Point>, epsilon: real)
    ensures var g := Squared(epsilon); Simplifies(points, Simplify(points, g), Kept(points, g), epsilon)
  {
    var g := Squared(epsilon);
    SimplifyIsPick(points, g);
    KeptIsClose(points, g);
    CloseDropped(points, Kept(points, g), epsilon, g);
    if epsilon > 0.0 {
      KeptIsNeeded(points, g);
      FarKept(points, Kept(points, g), epsilon, g);
    }
  }

  /**
   The result keeps the ends, drops only points close to the line between their kept neighbours, keeps only points that
   are far from a line between kept points around them, and is stable. When all points are close to the line between
   the ends, nothing else is kept.
   */
  lemma {:induction false} SimplifyPolylineIsSound(points: seq<Point>, epsilon: real)
    ensures var g := Squared(epsilon);
            && (exists indices :: Simplifies(points, Simplify(points, g), indices, epsilon))
            && Simplify(Simplify(points, g), g) == Simplify(points, g)
            && (epsilon <= 0.0 ==> Simplify(points, g) == points)
    ensures |points| > 2 && epsilon > 0.0
            && (forall k :: 0 < k < |points| - 1 ==>
                  Deviation(points[0], points[|points| - 1], points[k]) <= epsilon * epsilon) ==>
              Simplify(points, Squared(epsilon)) == [points[0], points[|points| - 1]]
  {
    var g := Squared(epsilon);
    KeptSimplifies(points, epsilon);
    SimplifyTwice(points, g);
    if |points| > 2 && epsilon > 0.0
       && (forall k :: 0 < k < |points| - 1 ==>
             Deviation(points[0], points[|points| - 1], points[k]) <= epsilon * epsilon) {
      FlatIsTwoEnds(points, g);
    }
  }
}
