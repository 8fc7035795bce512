/**
 The coverage of a face by anonymized regions (scripts/chokepoint/metrics_attack.py and metrics_detection.py), on integer
 coordinates: the area of a union of rectangles is the number of unit cells in it.
 */
module Coverage {
  import opened Types
  import opened OrderedKeys
  import opened Geometry

  datatype Roi = Roi(x: int, y: int, w: int, h: int)

  /** A rectangle given by its corners. */
  datatype Span = Span(x1: int, y1: int, x2: int, y2: int)

  function Min(a: int, b: int): int { if a <= b then a else b }

  // The measure

  predicate Contains(roi: Roi, i: int, j: int) {
    roi.x <= i < roi.x + roi.w && roi.y <= j < roi.y + roi.h
  }

  /** The unit cells of `gt` that some region contains. */
  ghost function CoveredCells(rois: seq<Roi>, gt: Roi): set<(int, int)> {
    set i, j | gt.x <= i < gt.x + gt.w && gt.y <= j < gt.y + gt.h && (exists r :: r in rois && Contains(r, i, j))
      :: (i, j)
  }

  ghost function UnionCoverage(rois: seq<Roi>, gt: Roi): real {
    if gt.w <= 0 || gt.h <= 0 then 0.0 else |CoveredCells(rois, gt)| as real / (gt.w * gt.h) as real
  }

  // Cells of a grid

  predicate Within(s: Span, i: int, j: int) {
    s.x1 <= i < s.x2 && s.y1 <= j < s.y2
  }

  ghost predicate Hit(spans: seq<Span>, i: int, j: int) {
    exists s :: s in spans && Within(s, i, j)
  }

  ghost function Cells(area: Span): set<(int, int)> {
    set i, j | area.x1 <= i < area.x2 && area.y1 <= j < area.y2 :: (i, j)
  }

  ghost function HitCells(spans: seq<Span>, area: Span): set<(int, int)> {
    set i, j | area.x1 <= i < area.x2 && area.y1 <= j < area.y2 && Hit(spans, i, j) :: (i, j)
  }

  lemma {:induction false} RowSize(x1: int, x2: int, y: int)
    requires x1 <= x2
    ensures |Cells(Span(x1, y, x2, y + 1))| == x2 - x1
    decreases x2 - x1
  {
    if x1 == x2 {
      assert Cells(Span(x1, y, x2, y + 1)) == {};
    } else {
      RowSize(x1, x2 - 1, y);
      assert Cells(Span(x1, y, x2, y + 1)) == Cells(Span(x1, y, x2 - 1, y + 1)) + {(x2 - 1, y)};
    }
  }

  lemma TopRow(area: Span)
    requires area.x1 <= area.x2 && area.y1 < area.y2
    ensures |Cells(area)| == |Cells(area.(y2 := area.y2 - 1))| + (area.x2 - area.x1)
  {
    var lower, row := Cells(area.(y2 := area.y2 - 1)), Cells(Span(area.x1, area.y2 - 1, area.x2, area.y2 - 1 + 1));
    RowSize(area.x1, area.x2, area.y2 - 1);
    assert Cells(area) == lower + row;
    assert lower !! row;
  }

  lemma {:induction false} RectangleSize(area: Span)
    requires area.x1 <= area.x2 && area.y1 <= area.y2
    ensures |Cells(area)| == (area.x2 - area.x1) * (area.y2 - area.y1)
    decreases area.y2 - area.y1
  {
    if area.y1 == area.y2 {
      assert Cells(area) == {};
    } else {
      TopRow(area);
      RectangleSize(area.(y2 := area.y2 - 1));
      assert (area.x2 - area.x1) * (area.y2 - area.y1)
          == (area.x2 - area.x1) * (area.y2 - 1 - area.y1) + (area.x2 - area.x1);
    }
  }

  lemma SplitColumns(spans: seq<Span>, area: Span, x: int)
    requires area.x1 <= x <= area.x2
    ensures |HitCells(spans, area)| == |HitCells(spans, area.(x2 := x))| + |HitCells(spans, area.(x1 := x))|
  {
    var left, right := HitCells(spans, area.(x2 := x)), HitCells(spans, area.(x1 := x));
    assert HitCells(spans, area) == left + right;
    assert left !! right;
  }

  lemma SplitRows(spans: seq<Span>, area: Span, y: int)
    requires area.y1 <= y <= area.y2
    ensures |HitCells(spans, area)| == |HitCells(spans, area.(y2 := y))| + |HitCells(spans, area.(y1 := y))|
  {
    var lower, upper := HitCells(spans, area.(y2 := y)), HitCells(spans, area.(y1 := y));
    assert HitCells(spans, area) == lower + upper;
    assert lower !! upper;
  }

  // Tiles between neighbouring grid lines

  /** No edge of any rectangle runs through the inside of the tile. */
  ghost predicate Uncut(spans: seq<Span>, tile: Span) {
    forall s :: s in spans ==>
      (s.x1 <= tile.x1 || tile.x2 <= s.x1) && (s.x2 <= tile.x1 || tile.x2 <= s.x2)
      && (s.y1 <= tile.y1 || tile.y2 <= s.y1) && (s.y2 <= tile.y1 || tile.y2 <= s.y2)
  }

  /** The test of the source on the centre of the tile, with both sides doubled. */
  predicate HoldsCentre(s: Span, tile: Span) {
    && 2 * s.x1 <= tile.x1 + tile.x2 <= 2 * s.x2
    && 2 * s.y1 <= tile.y1 + tile.y2 <= 2 * s.y2
  }

  predicate AnyHoldsCentre(spans: seq<Span>, tile: Span) {
    exists s :: s in spans && HoldsCentre(s, tile)
  }

  /** Looking at its centre decides a whole tile. */
  lemma TileDecidedByCentre(spans: seq<Span>, tile: Span)
    requires tile.x1 < tile.x2 && tile.y1 < tile.y2 && Uncut(spans, tile)
    ensures |HitCells(spans, tile)|
         == if AnyHoldsCentre(spans, tile) then (tile.x2 - tile.x1) * (tile.y2 - tile.y1) else 0
  {
    if AnyHoldsCentre(spans, tile) {
      assert HitCells(spans, tile) == Cells(tile);
      RectangleSize(tile);
    } else {
      forall i, j | tile.x1 <= i < tile.x2 && tile.y1 <= j < tile.y2 ensures !Hit(spans, i, j) {
        forall s | s in spans ensures !Within(s, i, j) {
          assert !HoldsCentre(s, tile);
        }
      }
      assert HitCells(spans, tile) == {};
    }
  }

  // Clipping

  function Clip(roi: Roi, gt: Roi): Span {
    Span(Max(roi.x, gt.x), Max(roi.y, gt.y), Min(roi.x + roi.w, gt.x + gt.w), Min(roi.y + roi.h, gt.y + gt.h))
  }

  predicate Nonempty(s: Span) {
    s.x2 > s.x1 && s.y2 > s.y1
  }

  /** `clipped` holds the clipped form of each region that meets `gt`, and nothing else. */
  ghost predicate Clips(rois: seq<Roi>, gt: Roi, clipped: seq<Span>) {
    && (forall r :: r in rois && Nonempty(Clip(r, gt)) ==> Clip(r, gt) in clipped)
    && (forall s :: s in clipped ==> Nonempty(s) && exists r :: r in rois && s == Clip(r, gt))
  }

  function WholeFace(gt: Roi): Span {
    Span(gt.x, gt.y, gt.x + gt.w, gt.y + gt.h)
  }

  lemma ClippedCells(rois: seq<Roi>, gt: Roi, clipped: seq<Span>)
    requires Clips(rois, gt, clipped)
    ensures HitCells(clipped, WholeFace(gt)) == CoveredCells(rois, gt)
  {
    forall i, j | gt.x <= i < gt.x + gt.w && gt.y <= j < gt.y + gt.h
      ensures Hit(clipped, i, j) <==> exists r :: r in rois && Contains(r, i, j)
    {
      if Hit(clipped, i, j) {
        var s :| s in clipped && Within(s, i, j);
        var r :| r in rois && s == Clip(r, gt);
        assert Contains(r, i, j);
      }
      if r :| r in rois && Contains(r, i, j) {
        assert Within(Clip(r, gt), i, j);
      }
    }
  }

  method ClipAll(rois: seq<Roi>, gt: Roi) returns (clipped: seq<Span>)
    ensures Clips(rois, gt, clipped)
  {
    clipped := [];
    for n := 0 to |rois|
      invariant Clips(rois[..n], gt, clipped)
    {
      var s := Clip(rois[n], gt);
      assert rois[..n + 1] == rois[..n] + [rois[n]];
      ghost var before := clipped;
      if s.x2 > s.x1 && s.y2 > s.y1 {
        clipped := clipped + [s];
      }
      ClipOne(rois[..n], rois[n], gt, before, clipped);
    }
    assert rois[..|rois|] == rois;
  }

  lemma ClipOne(rois: seq<Roi>, roi: Roi, gt: Roi, clipped: seq<Span>, clipped': seq<Span>)
    requires Clips(rois, gt, clipped)
    requires clipped' == if Nonempty(Clip(roi, gt)) then clipped + [Clip(roi, gt)] else clipped
    ensures Clips(rois + [roi], gt, clipped')
  {
    forall s | s in clipped' ensures exists r :: r in rois + [roi] && s == Clip(r, gt) {
      if s in clipped {
        var r :| r in rois && s == Clip(r, gt);
        assert r in rois + [roi];
      } else {
        assert roi in rois + [roi];
      }
    }
  }

  // The grid lines

  function XLines(spans: seq<Span>, gt: Roi): set<int> {
    {gt.x, gt.x + gt.w} + (set s | s in spans :: s.x1) + (set s | s in spans :: s.x2)
  }

  function YLines(spans: seq<Span>, gt: Roi): set<int> {
    {gt.y, gt.y + gt.h} + (set s | s in spans :: s.y1) + (set s | s in spans :: s.y2)
  }

  /** Lines in ascending order from `lo` to `hi`. */
  ghost predicate Grid(lines: seq<int>, lo: int, hi: int) {
    Ascending(lines) && |lines| >= 2 && lines[0] == lo && lines[|lines| - 1] == hi
  }

  method SortLines(lines: set<int>, ghost lo: int, ghost hi: int) returns (s: seq<int>)
    requires lo < hi && lo in lines && hi in lines && forall k :: k in lines ==> lo <= k <= hi
    ensures Grid(s, lo, hi) && forall k :: k in lines ==> k in s
  {
    s := SortedKeys(lines);
    assert lo in s && hi in s;
    assert s[0] in s && s[|s| - 1] in s;
  }

  lemma Neighbours(lines: seq<int>, n: nat, v: int)
    requires Ascending(lines) && n + 1 < |lines| && v in lines
    ensures v <= lines[n] || lines[n + 1] <= v
  {
  }

  /** Every edge of a rectangle lies on a line. */
  ghost predicate OnLines(spans: seq<Span>, xs: seq<int>, ys: seq<int>) {
    forall s :: s in spans ==> s.x1 in xs && s.x2 in xs && s.y1 in ys && s.y2 in ys
  }

  /** The tiles between neighbouring lines are not cut by any rectangle. */
  ghost predicate TilesUncut(spans: seq<Span>, xs: seq<int>, ys: seq<int>) {
    forall m, n :: 0 <= m < |xs| - 1 && 0 <= n < |ys| - 1 ==> Uncut(spans, Span(xs[m], ys[n], xs[m + 1], ys[n + 1]))
  }

  lemma TileUncut(spans: seq<Span>, xs: seq<int>, ys: seq<int>, m: nat, n: nat)
    requires Ascending(xs) && Ascending(ys) && OnLines(spans, xs, ys) && m + 1 < |xs| && n + 1 < |ys|
    ensures Uncut(spans, Span(xs[m], ys[n], xs[m + 1], ys[n + 1]))
  {
    forall s | s in spans
      ensures (s.x1 <= xs[m] || xs[m + 1] <= s.x1) && (s.x2 <= xs[m] || xs[m + 1] <= s.x2)
      ensures (s.y1 <= ys[n] || ys[n + 1] <= s.y1) && (s.y2 <= ys[n] || ys[n + 1] <= s.y2)
    {
      Neighbours(xs, m, s.x1);
      Neighbours(xs, m, s.x2);
      Neighbours(ys, n, s.y1);
      Neighbours(ys, n, s.y2);
    }
  }

  lemma {:induction false} GridUncut(spans: seq<Span>, xs: seq<int>, ys: seq<int>)
    requires Ascending(xs) && Ascending(ys) && OnLines(spans, xs, ys)
    ensures TilesUncut(spans, xs, ys)
  {
    forall m, n | 0 <= m < |xs| - 1 && 0 <= n < |ys| - 1
      ensures Uncut(spans, Span(xs[m], ys[n], xs[m + 1], ys[n + 1]))
    {
      TileUncut(spans, xs, ys, m, n);
    }
  }

  ghost predicate Inside(spans: seq<Span>, gt: Roi) {
    forall s :: s in spans ==> gt.x <= s.x1 <= s.x2 <= gt.x + gt.w && gt.y <= s.y1 <= s.y2 <= gt.y + gt.h
  }

  lemma ClipsInside(rois: seq<Roi>, gt: Roi, clipped: seq<Span>)
    requires Clips(rois, gt, clipped)
    ensures Inside(clipped, gt)
  {
    forall s | s in clipped ensures gt.x <= s.x1 <= s.x2 <= gt.x + gt.w && gt.y <= s.y1 <= s.y2 <= gt.y + gt.h {
      var r :| r in rois && s == Clip(r, gt);
    }
  }

  lemma LinesInside(spans: seq<Span>, gt: Roi)
    requires gt.w > 0 && gt.h > 0 && Inside(spans, gt)
    ensures forall k :: k in XLines(spans, gt) ==> gt.x <= k <= gt.x + gt.w
    ensures forall k :: k in YLines(spans, gt) ==> gt.y <= k <= gt.y + gt.h
  {
  }

  method GridLines(clipped: seq<Span>, gt: Roi) returns (xs: seq<int>, ys: seq<int>)
    requires gt.w > 0 && gt.h > 0 && Inside(clipped, gt)
    ensures Grid(xs, gt.x, gt.x + gt.w) && Grid(ys, gt.y, gt.y + gt.h) && TilesUncut(clipped, xs, ys)
  {
    LinesInside(clipped, gt);
    xs := SortLines(XLines(clipped, gt), gt.x, gt.x + gt.w);
    ys := SortLines(YLines(clipped, gt), gt.y, gt.y + gt.h);
    GridUncut(clipped, xs, ys);
  }

  // The sweep over the grid

  /** The covered area of one column of tiles. */
  method SweepColumn(clipped: seq<Span>, x1: int, x2: int, ys: seq<int>, ghost gt: Roi) returns (covered: int)
    requires x1 < x2 && Grid(ys, gt.y, gt.y + gt.h)
    requires forall n :: 0 <= n < |ys| - 1 ==> Uncut(clipped, Span(x1, ys[n], x2, ys[n + 1]))
    ensures covered == |HitCells(clipped, Span(x1, gt.y, x2, gt.y + gt.h))|
  {
    covered := 0;
    assert HitCells(clipped, Span(x1, gt.y, x2, gt.y)) == {};
    for n := 0 to |ys| - 1
      invariant covered == |HitCells(clipped, Span(x1, gt.y, x2, ys[n]))|
    {
      var tile := Span(x1, ys[n], x2, ys[n + 1]);
      assert ys[0] <= ys[n];
      SplitRows(clipped, Span(x1, gt.y, x2, ys[n + 1]), ys[n]);
      TileDecidedByCentre(clipped, tile);
      if AnyHoldsCentre(clipped, tile) {
        covered := covered + (tile.x2 - tile.x1) * (tile.y2 - tile.y1);
      }
    }
  }

  method SweepGrid(clipped: seq<Span>, xs: seq<int>, ys: seq<int>, ghost gt: Roi) returns (covered: int)
    requires Grid(xs, gt.x, gt.x + gt.w) && Grid(ys, gt.y, gt.y + gt.h) && TilesUncut(clipped, xs, ys)
    ensures covered == |HitCells(clipped, WholeFace(gt))|
  {
    covered := 0;
    assert HitCells(clipped, Span(gt.x, gt.y, gt.x, gt.y + gt.h)) == {};
    for m := 0 to |xs| - 1
      invariant covered == |HitCells(clipped, Span(gt.x, gt.y, xs[m], gt.y + gt.h))|
    {
      assert xs[0] <= xs[m];
      SplitColumns(clipped, Span(gt.x, gt.y, xs[m + 1], gt.y + gt.h), xs[m]);
      var column := SweepColumn(clipped, xs[m], xs[m + 1], ys, gt);
      covered := covered + column;
    }
  }

  method ComputeUnionCoverage(rois: seq<Roi>, gt: Roi) returns (r: real)
    ensures r == UnionCoverage(rois, gt)
  {
    var clipped := ClipAll(rois, gt);
    if Max(0, gt.w) * Max(0, gt.h) <= 0 {
      return 0.0;
    }
    if clipped == [] {
      ClippedCells(rois, gt, clipped);
      assert CoveredCells(rois, gt) == {};
      return 0.0;
    }
    ClipsInside(rois, gt, clipped);
    var xs, ys := GridLines(clipped, gt);
    var covered := SweepGrid(clipped, xs, ys, gt);
    ClippedCells(rois, gt, clipped);
    CoverageBounded(rois, gt);
    r := RMin(1.0, covered as real / (gt.w * gt.h) as real);
  }

  // What the measure guarantees

  lemma CellsOfFace(rois: seq<Roi>, gt: Roi)
    requires gt.w > 0 && gt.h > 0
    ensures 0 <= |CoveredCells(rois, gt)| <= gt.w * gt.h && gt.w * gt.h > 0
  {
    RectangleSize(WholeFace(gt));
    Smaller(CoveredCells(rois, gt), Cells(WholeFace(gt)));
    assert gt.w * gt.h >= gt.w * 1;
  }

  lemma {:induction false} Smaller<T>(a: set<T>, b: set<T>)
    requires a <= b
    ensures |a| <= |b|
  {
    assert b == a + (b - a);
  }

  /** So the final minimum with 1 changes nothing. */
  lemma CoverageBounded(rois: seq<Roi>, gt: Roi)
    ensures 0.0 <= UnionCoverage(rois, gt) <= 1.0
  {
    if gt.w > 0 && gt.h > 0 {
      CellsOfFace(rois, gt);
      QuotientBounded(|CoveredCells(rois, gt)| as real, (gt.w * gt.h) as real);
    }
  }

  lemma QuotientMonotone(a: int, b: int, d: int)
    requires 0 <= a <= b && d > 0
    ensures a as real / d as real <= b as real / d as real
  {
    var p, q := a as real / d as real, b as real / d as real;
    assert p * d as real == a as real && q * d as real == b as real;
    assert (q - p) * d as real >= 0.0;
  }

  /** Adding regions never lowers the coverage. */
  lemma CoverageMonotone(a: seq<Roi>, b: seq<Roi>, gt: Roi)
    requires forall r :: r in a ==> r in b
    ensures UnionCoverage(a, gt) <= UnionCoverage(b, gt)
  {
    if gt.w > 0 && gt.h > 0 {
      CellsOfFace(a, gt);
      assert CoveredCells(a, gt) <= CoveredCells(b, gt);
      Smaller(CoveredCells(a, gt), CoveredCells(b, gt));
      QuotientMonotone(|CoveredCells(a, gt)|, |CoveredCells(b, gt)|, gt.w * gt.h);
    }
  }

  /** Order and duplicates do not matter. */
  lemma CoverageOfSet(a: seq<Roi>, b: seq<Roi>, gt: Roi)
    requires forall r :: r in a <==> r in b
    ensures UnionCoverage(a, gt) == UnionCoverage(b, gt)
  {
    assert CoveredCells(a, gt) == CoveredCells(b, gt);
  }

  /** `_coverage`: the coverage by one region. */
  function SingleCoverage(roi: Roi, gt: Roi): real {
    var s := Clip(roi, gt);
    var inter := Max(0, s.x2 - s.x1) * Max(0, s.y2 - s.y1);
    var area := Max(0, gt.w) * Max(0, gt.h);
    if area <= 0 then 0.0 else inter as real / area as real
  }

  /** For one region the two forms agree. */
  lemma CoverageOfOne(roi: Roi, gt: Roi)
    ensures UnionCoverage([roi], gt) == SingleCoverage(roi, gt)
  {
    if gt.w > 0 && gt.h > 0 {
      CellsOfFace([roi], gt);
      var s := Clip(roi, gt);
      assert roi in [roi];
      assert CoveredCells([roi], gt) == Cells(s) by {
        forall i, j ensures (i, j) in CoveredCells([roi], gt) <==> (i, j) in Cells(s) {
          assert (exists r :: r in [roi] && Contains(r, i, j)) <==> Contains(roi, i, j);
        }
      }
      if Nonempty(s) {
        RectangleSize(s);
      } else {
        assert Cells(s) == {};
      }
    }
  }
}
