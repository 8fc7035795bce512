/**
 What intersection over union measures: the share of the cells that two rectangles have in common. On whole coordinates
 they can be counted; for parts and for rectangles that lie apart the score is known over the reals.
 */
module Overlap {
  import opened Types
  import opened Geometry
  import Coverage

  /** A rectangle on whole coordinates. */
  function OnCells(x: int, y: int, w: int, h: int): Rect {
    Rect(x as real, y as real, w as real, h as real)
  }

  ghost function CellsOf(x: int, y: int, w: int, h: int): set<(int, int)> {
    set i, j | x <= i < x + w && y <= j < y + h :: (i, j)
  }

  function NonNegative(a: int): int {
    if a >= 0 then a else 0
  }

  lemma SizeOf(x: int, y: int, w: int, h: int)
    ensures |CellsOf(x, y, w, h)| == NonNegative(w) * NonNegative(h)
  {
    if w > 0 && h > 0 {
      assert CellsOf(x, y, w, h) == Coverage.Cells(Coverage.Span(x, y, x + w, y + h));
      Coverage.RectangleSize(Coverage.Span(x, y, x + w, y + h));
    } else {
      assert CellsOf(x, y, w, h) == {};
    }
  }

  lemma RealSize(x: int, y: int, w: int, h: int)
    ensures |CellsOf(x, y, w, h)| as real == NonNegative(w) as real * NonNegative(h) as real
  {
    SizeOf(x, y, w, h);
    ProductOfInts(NonNegative(w), NonNegative(h));
  }

  lemma AreaCounts(x: int, y: int, w: int, h: int)
    ensures Area(OnCells(x, y, w, h)) == |CellsOf(x, y, w, h)| as real
  {
    RealSize(x, y, w, h);
  }

  lemma ProductOfInts(a: int, b: int)
    ensures a as real * b as real == (a * b) as real
  {
  }

  /** The length that two intervals have in common. */
  function Common(a: real, w: real, b: real, v: real): real {
    RMax(0.0, RMin(a + w, b + v) - RMax(a, b))
  }

  /** Where two intervals meet, and how long the common part is. */
  function Meet(a: int, w: int, b: int, v: int): (int, int) {
    (Max(a, b), (if a + w <= b + v then a + w else b + v) - Max(a, b))
  }

  lemma CommonIsMeet(a: int, w: int, b: int, v: int)
    ensures Common(a as real, w as real, b as real, v as real) == NonNegative(Meet(a, w, b, v).1) as real
  {
  }

  lemma CommonCells(x: int, y: int, w: int, h: int, x': int, y': int, w': int, h': int)
    ensures var p, q := Meet(x, w, x', w'), Meet(y, h, y', h');
            CellsOf(x, y, w, h) * CellsOf(x', y', w', h') == CellsOf(p.0, q.0, p.1, q.1)
  {
  }

  lemma SizeOfBoth(a: set<(int, int)>, b: set<(int, int)>, p: (int, int), q: (int, int))
    requires a * b == CellsOf(p.0, q.0, p.1, q.1)
    ensures |a * b| as real == NonNegative(p.1) as real * NonNegative(q.1) as real
  {
    RealSize(p.0, q.0, p.1, q.1);
  }

  lemma IntersectionIsMeet(x: int, y: int, w: int, h: int, x': int, y': int, w': int, h': int)
    ensures IntersectionArea(OnCells(x, y, w, h), OnCells(x', y', w', h'))
         == NonNegative(Meet(x, w, x', w').1) as real * NonNegative(Meet(y, h, y', h').1) as real
  {
    CommonIsMeet(x, w, x', w');
    CommonIsMeet(y, h, y', h');
  }

  /** The common cells form a rectangle, whose area the overlap is. */
  lemma IntersectionCounts(x: int, y: int, w: int, h: int, x': int, y': int, w': int, h': int)
    ensures IntersectionArea(OnCells(x, y, w, h), OnCells(x', y', w', h'))
         == |CellsOf(x, y, w, h) * CellsOf(x', y', w', h')| as real
  {
    IntersectionIsMeet(x, y, w, h, x', y', w', h');
    CommonCells(x, y, w, h, x', y', w', h');
    SizeOfBoth(CellsOf(x, y, w, h), CellsOf(x', y', w', h'), Meet(x, w, x', w'), Meet(y, h, y', h'));
  }

  lemma UnionSize<T>(a: set<T>, b: set<T>)
    ensures |a + b| == |a| + |b| - |a * b|
  {
    assert a + b == a + (b - a) && a !! (b - a);
    assert b == (b - a) + (a * b) && (b - a) !! (a * b);
  }

  function Share(inter: real, union: real): real {
    if inter <= 0.0 || union <= 0.0 then 0.0 else inter / union
  }

  lemma IouIsShare(a: Rect, b: Rect)
    ensures Iou(a, b) == Share(IntersectionArea(a, b), Area(a) + Area(b) - IntersectionArea(a, b))
  {
  }

  lemma ShareOfUnion(inter: real, union: real)
    requires 0.0 <= inter <= union
    ensures Share(inter, union) * union == inter
  {
  }

  lemma CountedShare(score: real, inter: real, area: real, area': real, i: nat, n: nat, n': nat)
    requires score == Share(inter, area + area' - inter)
    requires inter == i as real && area == n as real && area' == n' as real && i <= n + n' - i
    ensures score * (n + n' - i) as real == i as real && (n + n' - i == 0 ==> score == 0.0)
  {
    ShareOfUnion(i as real, (n + n' - i) as real);
  }

  /** Times the number of cells in the union, the score is the number of cells in both. */
  ghost predicate ScoresCells(p: Rect, q: Rect, a: set<(int, int)>, b: set<(int, int)>) {
    Iou(p, q) * |a + b| as real == |a * b| as real && (|a + b| == 0 ==> Iou(p, q) == 0.0)
  }

  lemma IouOfCounts(p: Rect, q: Rect, a: set<(int, int)>, b: set<(int, int)>)
    requires Area(p) == |a| as real && Area(q) == |b| as real && IntersectionArea(p, q) == |a * b| as real
    ensures ScoresCells(p, q, a, b)
  {
    UnionSize(a, b);
    Coverage.Smaller(a * b, a + b);
    IouIsShare(p, q);
    CountedShare(Iou(p, q), IntersectionArea(p, q), Area(p), Area(q), |a * b|, |a|, |b|);
  }

  lemma IouCountsCells(x: int, y: int, w: int, h: int, x': int, y': int, w': int, h': int)
    ensures ScoresCells(OnCells(x, y, w, h), OnCells(x', y', w', h'), CellsOf(x, y, w, h), CellsOf(x', y', w', h'))
  {
    AreaCounts(x, y, w, h);
    AreaCounts(x', y', w', h');
    IntersectionCounts(x, y, w, h, x', y', w', h');
    IouOfCounts(OnCells(x, y, w, h), OnCells(x', y', w', h'), CellsOf(x, y, w, h), CellsOf(x', y', w', h'));
  }

  // Parts and neighbours

  lemma Divided(r: real, q: real, p: real)
    requires q > 0.0 && r * q == p
    ensures p / q == r
  {
    assert (p / q - r) * q == 0.0;
  }

  /** A rectangle inside another one, whole. */
  predicate Within(a: Rect, b: Rect) {
    && b.x <= a.x && a.x + a.w <= b.x + b.w && b.y <= a.y && a.y + a.h <= b.y + b.h
  }

  lemma InsideIsCommon(a: Rect, b: Rect)
    requires a.w > 0.0 && a.h > 0.0 && Within(a, b)
    ensures IntersectionArea(a, b) == Area(a) > 0.0
  {
  }

  /** A rectangle inside another one scores its share of the area, hence 1 with itself. */
  lemma IouOfPart(a: Rect, b: Rect)
    requires a.w > 0.0 && a.h > 0.0 && Within(a, b)
    ensures Iou(a, b) * Area(b) == Area(a) && Iou(a, a) == 1.0
  {
    InsideIsCommon(a, b);
    InsideIsCommon(a, a);
    IntersectionBounded(a, b);
    IouIsShare(a, b);
    IouIsShare(a, a);
    ShareOfUnion(Area(a), Area(b));
    Divided(1.0, Area(a), Area(a));
  }

  /** Rectangles without a common inner point score 0. */
  lemma IouOfApart(a: Rect, b: Rect)
    requires a.x + a.w <= b.x || b.x + b.w <= a.x || a.y + a.h <= b.y || b.y + b.h <= a.y
    ensures Iou(a, b) == 0.0
  {
  }
}
