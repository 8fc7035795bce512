/**
 Crossing of two closed segments (controller/veilsight_controller/analytics_engine.py).
 */
module Segments {
  import opened Geometry

  datatype Point = Point(x: real, y: real)

  const TOLERANCE := 0.000000001

  function Abs(a: real): real { if a >= 0.0 then a else -a }

  function SideOfLine(a: Point, b: Point, p: Point): real {
    (b.x - a.x) * (p.y - a.y) - (b.y - a.y) * (p.x - a.x)
  }

  /** `q` lies in the bounding box of `p` and `r`, enlarged by `slack`. */
  predicate InBox(p: Point, q: Point, r: Point, slack: real) {
    && RMin(p.x, r.x) - slack <= q.x <= RMax(p.x, r.x) + slack
    && RMin(p.y, r.y) - slack <= q.y <= RMax(p.y, r.y) + slack
  }

  predicate SegmentIntersects(a: Point, b: Point, c: Point, d: Point) {
    var o1, o2 := SideOfLine(a, b, c), SideOfLine(a, b, d);
    var o3, o4 := SideOfLine(c, d, a), SideOfLine(c, d, b);
    || (o1 * o2 < 0.0 && o3 * o4 < 0.0)
    || (Abs(o1) < TOLERANCE && InBox(a, c, b, TOLERANCE))
    || (Abs(o2) < TOLERANCE && InBox(a, d, b, TOLERANCE))
    || (Abs(o3) < TOLERANCE && InBox(c, a, d, TOLERANCE))
    || (Abs(o4) < TOLERANCE && InBox(c, b, d, TOLERANCE))
  }

  /** The same test without tolerances. */
  predicate ExactIntersects(a: Point, b: Point, c: Point, d: Point) {
    var o1, o2 := SideOfLine(a, b, c), SideOfLine(a, b, d);
    var o3, o4 := SideOfLine(c, d, a), SideOfLine(c, d, b);
    || (o1 * o2 < 0.0 && o3 * o4 < 0.0)
    || (o1 == 0.0 && InBox(a, c, b, 0.0))
    || (o2 == 0.0 && InBox(a, d, b, 0.0))
    || (o3 == 0.0 && InBox(c, a, d, 0.0))
    || (o4 == 0.0 && InBox(c, b, d, 0.0))
  }

  // What it means to cross

  function Along(a: Point, b: Point, t: real): Point {
    Point(a.x + t * (b.x - a.x), a.y + t * (b.y - a.y))
  }

  ghost predicate OnSegment(p: Point, a: Point, b: Point) {
    exists t :: 0.0 <= t <= 1.0 && p == Along(a, b, t)
  }

  ghost predicate SharePoint(a: Point, b: Point, c: Point, d: Point) {
    exists p :: OnSegment(p, a, b) && OnSegment(p, c, d)
  }

  // A point of a segment

  lemma Product(t: real, m: real)
    requires t >= 0.0 && m >= 0.0
    ensures t * m >= 0.0
  {
  }

  lemma PartOf(t: real, m: real)
    requires 0.0 <= t <= 1.0 && m >= 0.0
    ensures 0.0 <= t * m <= m
  {
    Product(t, m);
    Product(1.0 - t, m);
    assert (1.0 - t) * m == m - t * m;
  }

  lemma Between(u: real, v: real, t: real)
    requires 0.0 <= t <= 1.0
    ensures RMin(u, v) <= u + t * (v - u) <= RMax(u, v)
  {
    var m := v - u;
    var p := t * m;
    if u <= v {
      PartOf(t, m);
    } else {
      PartOf(t, -m);
      assert t * -m == -p;
    }
    assert u + t * (v - u) == u + p;
  }

  lemma OnSegmentInBox(p: Point, a: Point, b: Point)
    requires OnSegment(p, a, b)
    ensures InBox(a, p, b, 0.0)
  {
    var t :| 0.0 <= t <= 1.0 && p == Along(a, b, t);
    Between(a.x, b.x, t);
    Between(a.y, b.y, t);
  }

  /** The side of a point moves linearly along a segment. */
  lemma SideAlong(a: Point, b: Point, c: Point, d: Point, s: real)
    ensures SideOfLine(a, b, Along(c, d, s)) == (1.0 - s) * SideOfLine(a, b, c) + s * SideOfLine(a, b, d)
  {
    var ux, uy := b.x - a.x, b.y - a.y;
    var cx, cy, dx, dy := c.x - a.x, c.y - a.y, d.x - a.x, d.y - a.y;
    LinearCross(ux, uy, cx, cy, dx, dy, s);
    assert Along(c, d, s).x - a.x == cx + s * (dx - cx);
    assert Along(c, d, s).y - a.y == cy + s * (dy - cy);
  }

  lemma LinearCross(ux: real, uy: real, cx: real, cy: real, dx: real, dy: real, s: real)
    ensures ux * (cy + s * (dy - cy)) - uy * (cx + s * (dx - cx))
         == (1.0 - s) * (ux * cy - uy * cx) + s * (ux * dy - uy * dx)
  {
  }

  lemma OnLine(a: Point, b: Point, t: real)
    ensures SideOfLine(a, b, Along(a, b, t)) == 0.0
  {
    SideAlong(a, b, a, b, t);
  }

  /** The other coordinate follows when a collinear point is at fraction `t` in one. */
  lemma RatioX(a: Point, b: Point, q: Point, t: real)
    requires SideOfLine(a, b, q) == 0.0 && a.x != b.x && t * (b.x - a.x) == q.x - a.x
    ensures q == Along(a, b, t)
  {
    SameRatio(b.x - a.x, b.y - a.y, q.x - a.x, q.y - a.y, t);
  }

  lemma RatioY(a: Point, b: Point, q: Point, t: real)
    requires SideOfLine(a, b, q) == 0.0 && a.y != b.y && t * (b.y - a.y) == q.y - a.y
    ensures q == Along(a, b, t)
  {
    SameRatio(b.y - a.y, b.x - a.x, q.y - a.y, q.x - a.x, t);
  }

  /** A collinear point in the bounding box lies on the segment. */
  lemma CollinearInBox(a: Point, b: Point, q: Point)
    requires SideOfLine(a, b, q) == 0.0 && InBox(a, q, b, 0.0)
    ensures OnSegment(q, a, b)
  {
    if a.x != b.x {
      Fraction(q.x - a.x, b.x - a.x);
      RatioX(a, b, q, (q.x - a.x) / (b.x - a.x));
    } else if a.y != b.y {
      Fraction(q.y - a.y, b.y - a.y);
      RatioY(a, b, q, (q.y - a.y) / (b.y - a.y));
    } else {
      assert q == Along(a, b, 0.0);
    }
  }

  lemma Fraction(n: real, m: real)
    requires m != 0.0 && RMin(0.0, m) <= n <= RMax(0.0, m)
    ensures 0.0 <= n / m <= 1.0 && (n / m) * m == n
  {
    var t := n / m;
    assert t * m == n;
    if m > 0.0 {
      PositiveFactor(t, m);
      PositiveFactor(1.0 - t, m);
    } else {
      PositiveFactor(t, -m);
      PositiveFactor(1.0 - t, -m);
    }
  }

  lemma PositiveFactor(t: real, m: real)
    requires m > 0.0 && t * m >= 0.0
    ensures t >= 0.0
  {
  }

  lemma SameRatio(ux: real, uy: real, wx: real, wy: real, t: real)
    requires ux != 0.0 && t * ux == wx && ux * wy - uy * wx == 0.0
    ensures wy == t * uy
  {
    assert ux * wy == uy * (t * ux);
    assert ux * (wy - t * uy) == 0.0;
  }

  lemma Ends(a: Point, b: Point)
    ensures OnSegment(a, a, b) && OnSegment(b, a, b)
  {
    assert a == Along(a, b, 0.0) && b == Along(a, b, 1.0);
  }

  // Proper crossings

  lemma OppositeSigns(u: real, v: real)
    requires u * v < 0.0
    ensures u - v != 0.0 && 0.0 <= u / (u - v) <= 1.0
  {
    if u > 0.0 {
      NegativeFactor(v, u);
      Fraction(u, u - v);
    } else {
      NegativeFactor(v, -u);
      Fraction(u, u - v);
    }
  }

  lemma NegativeFactor(t: real, m: real)
    requires m != 0.0 && (t * m < 0.0 || t * m > 0.0)
    ensures t != 0.0 && (t * m < 0.0 <==> (t < 0.0 <==> m > 0.0))
  {
  }

  /** With u, v, w the edge of each segment and the offset between them: (u x v) w - (u x w) v == (w x v) u. */
  lemma CrossIdentity(ux: real, uy: real, vx: real, vy: real, wx: real, wy: real)
    ensures (ux * vy - uy * vx) * wx - (ux * wy - uy * wx) * vx == (wx * vy - wy * vx) * ux
    ensures (ux * vy - uy * vx) * wy - (ux * wy - uy * wx) * vy == (wx * vy - wy * vx) * uy
  {
  }

  /** Scaling by a nonzero determinant loses nothing. */
  lemma Cancel(det: real, w: real, o: real, v: real, e: real, u: real, s: real, t: real)
    requires det != 0.0 && det * w - o * v == e * u && s * det == -o && t * det == e
    ensures t * u == w + s * v
  {
    assert (t * u) * det == e * u;
    assert (s * v) * det == -(o * v);
    assert (t * u - w - s * v) * det == 0.0;
  }

  /** The crossing point, in terms of u, v, w and the four determinants. */
  lemma CrossingPoint(ux: real, uy: real, vx: real, vy: real, wx: real, wy: real, o1: real, o2: real, o3: real, o4: real,
                      s: real, t: real)
    requires o1 == ux * wy - uy * wx && o2 == ux * (wy + vy) - uy * (wx + vx)
    requires o3 == vx * -wy - vy * -wx && o4 == vx * (uy - wy) - vy * (ux - wx)
    requires o1 - o2 != 0.0 && s * (o1 - o2) == o1 && t * (o3 - o4) == o3
    ensures t * ux == wx + s * vx && t * uy == wy + s * vy
  {
    var det := ux * vy - uy * vx;
    Determinants(ux, uy, vx, vy, wx, wy);
    CrossIdentity(ux, uy, vx, vy, wx, wy);
    assert s * det == -o1 by {
      assert o1 - o2 == -det;
      assert s * -det == -(s * det);
    }
    assert o3 - o4 == det;
    Cancel(det, wx, o1, vx, o3, ux, s, t);
    Cancel(det, wy, o1, vy, o3, uy, s, t);
  }

  lemma ProperCrossing(a: Point, b: Point, c: Point, d: Point)
    requires SideOfLine(a, b, c) * SideOfLine(a, b, d) < 0.0 && SideOfLine(c, d, a) * SideOfLine(c, d, b) < 0.0
    ensures SharePoint(a, b, c, d)
  {
    var o1, o2, o3, o4 := SideOfLine(a, b, c), SideOfLine(a, b, d), SideOfLine(c, d, a), SideOfLine(c, d, b);
    OppositeSigns(o1, o2);
    OppositeSigns(o3, o4);
    CrossingExists(a, b, c, d, o1, o2, o3, o4, o1 / (o1 - o2), o3 / (o3 - o4));
  }

  lemma CrossingExists(a: Point, b: Point, c: Point, d: Point, o1: real, o2: real, o3: real, o4: real, s: real, t: real)
    requires o1 == SideOfLine(a, b, c) && o2 == SideOfLine(a, b, d)
    requires o3 == SideOfLine(c, d, a) && o4 == SideOfLine(c, d, b)
    requires o1 - o2 != 0.0 && s * (o1 - o2) == o1 && t * (o3 - o4) == o3
    requires 0.0 <= s <= 1.0 && 0.0 <= t <= 1.0
    ensures SharePoint(a, b, c, d)
  {
    CrossingPoint(b.x - a.x, b.y - a.y, d.x - c.x, d.y - c.y, c.x - a.x, c.y - a.y, o1, o2, o3, o4, s, t);
    SharedAt(a, b, c, d, s, t);
  }

  lemma AlongIs(a: Point, b: Point, t: real, mx: real, my: real)
    requires mx == t * (b.x - a.x) && my == t * (b.y - a.y)
    ensures Along(a, b, t) == Point(a.x + mx, a.y + my)
  {
  }

  lemma SharedAt(a: Point, b: Point, c: Point, d: Point, s: real, t: real)
    requires 0.0 <= s <= 1.0 && 0.0 <= t <= 1.0
    requires t * (b.x - a.x) == (c.x - a.x) + s * (d.x - c.x) && t * (b.y - a.y) == (c.y - a.y) + s * (d.y - c.y)
    ensures SharePoint(a, b, c, d)
  {
    var mx, my, nx, ny := t * (b.x - a.x), t * (b.y - a.y), s * (d.x - c.x), s * (d.y - c.y);
    AlongIs(a, b, t, mx, my);
    AlongIs(c, d, s, nx, ny);
    assert OnSegment(Along(a, b, t), a, b) && OnSegment(Along(c, d, s), c, d);
  }

  lemma Determinants(ux: real, uy: real, vx: real, vy: real, wx: real, wy: real)
    ensures (ux * wy - uy * wx) - (ux * (wy + vy) - uy * (wx + vx)) == -(ux * vy - uy * vx)
    ensures (vx * -wy - vy * -wx) - (vx * (uy - wy) - vy * (ux - wx)) == ux * vy - uy * vx
    ensures vx * -wy - vy * -wx == wx * vy - wy * vx
  {
  }

  lemma ExactMeansShared(a: Point, b: Point, c: Point, d: Point)
    requires ExactIntersects(a, b, c, d)
    ensures SharePoint(a, b, c, d)
  {
    Ends(a, b);
    Ends(c, d);
    if SideOfLine(a, b, c) == 0.0 && InBox(a, c, b, 0.0) {
      CollinearInBox(a, b, c);
    } else if SideOfLine(a, b, d) == 0.0 && InBox(a, d, b, 0.0) {
      CollinearInBox(a, b, d);
    } else if SideOfLine(c, d, a) == 0.0 && InBox(c, a, d, 0.0) {
      CollinearInBox(c, d, a);
    } else if SideOfLine(c, d, b) == 0.0 && InBox(c, b, d, 0.0) {
      CollinearInBox(c, d, b);
    } else {
      ProperCrossing(a, b, c, d);
    }
  }

  // A shared point is found

  lemma ConvexSign(u: real, v: real, s: real)
    requires 0.0 <= s <= 1.0
    ensures u > 0.0 && v > 0.0 ==> (1.0 - s) * u + s * v > 0.0
    ensures u < 0.0 && v < 0.0 ==> (1.0 - s) * u + s * v < 0.0
  {
    if u > 0.0 && v > 0.0 && s > 0.0 {
      assert s * v > 0.0 && (1.0 - s) * u >= 0.0;
    }
    if u < 0.0 && v < 0.0 && s > 0.0 {
      assert s * -v > 0.0 && (1.0 - s) * -u >= 0.0;
      assert s * -v == -(s * v) && (1.0 - s) * -u == -((1.0 - s) * u);
    }
  }

  lemma ConvexZero(u: real, v: real, s: real)
    requires 0.0 <= s <= 1.0 && (1.0 - s) * u + s * v == 0.0
    ensures (u == 0.0 && v == 0.0) || (u == 0.0 && s == 0.0) || (v == 0.0 && s == 1.0) || u * v < 0.0
  {
    ConvexSign(u, v, s);
  }

  lemma Chain(x: real, m: real, u: real, v: real, s: real)
    ensures (x + u * m) + s * ((x + v * m) - (x + u * m)) == x + (u + s * (v - u)) * m
  {
    assert (x + v * m) - (x + u * m) == (v - u) * m;
    assert s * ((v - u) * m) == (s * (v - u)) * m;
  }

  lemma AlongAlong(a: Point, b: Point, u: real, v: real, s: real)
    ensures Along(Along(a, b, u), Along(a, b, v), s) == Along(a, b, u + s * (v - u))
  {
    Chain(a.x, b.x - a.x, u, v, s);
    Chain(a.y, b.y - a.y, u, v, s);
  }

  lemma SameParameter(a: Point, b: Point, t: real, u: real)
    requires a != b && Along(a, b, t) == Along(a, b, u)
    ensures t == u
  {
    if a.x != b.x {
      Injective(b.x - a.x, t, u);
    } else {
      Injective(b.y - a.y, t, u);
    }
  }

  lemma Injective(m: real, t: real, u: real)
    requires m != 0.0 && t * m == u * m
    ensures t == u
  {
    assert (t - u) * m == 0.0;
  }

  lemma Parameter(a: Point, b: Point, q: Point)
    requires a != b && SideOfLine(a, b, q) == 0.0
    ensures exists u :: q == Along(a, b, u)
  {
    if a.x != b.x {
      var u := (q.x - a.x) / (b.x - a.x);
      assert u * (b.x - a.x) == q.x - a.x;
      RatioX(a, b, q, u);
    } else {
      var u := (q.y - a.y) / (b.y - a.y);
      assert u * (b.y - a.y) == q.y - a.y;
      RatioY(a, b, q, u);
    }
  }

  lemma OutsideOnOppositeSides(u: real, v: real, s: real)
    requires 0.0 <= s <= 1.0 && 0.0 <= u + s * (v - u) <= 1.0
    requires !(0.0 <= u <= 1.0) && !(0.0 <= v <= 1.0)
    ensures u * v < 0.0
  {
    Between(u, v, s);
    if u < 0.0 {
      assert v > 1.0;
    } else {
      assert v < 0.0;
    }
  }

  /** Four points on one line: an end of one segment lies on the other. */
  lemma CollinearShared(a: Point, b: Point, c: Point, d: Point, s: real, t: real)
    requires SideOfLine(a, b, c) == 0.0 && SideOfLine(a, b, d) == 0.0
    requires 0.0 <= s <= 1.0 && 0.0 <= t <= 1.0 && Along(a, b, t) == Along(c, d, s)
    ensures ExactIntersects(a, b, c, d)
  {
    if a == b {
      assert a == Along(c, d, s);
      OnLine(c, d, s);
      OnSegmentInBox(a, c, d);
    } else {
      Parameter(a, b, c);
      Parameter(a, b, d);
      var u :| c == Along(a, b, u);
      var v :| d == Along(a, b, v);
      AlongAlong(a, b, u, v, s);
      SameParameter(a, b, t, u + s * (v - u));
      if 0.0 <= u <= 1.0 {
        OnSegmentInBox(c, a, b);
      } else if 0.0 <= v <= 1.0 {
        OnSegmentInBox(d, a, b);
      } else {
        OutsideOnOppositeSides(u, v, s);
        StartBetween(a, b, u, v);
      }
    }
  }

  lemma StartBetween(a: Point, b: Point, u: real, v: real)
    requires u * v < 0.0
    ensures var c, d := Along(a, b, u), Along(a, b, v); SideOfLine(c, d, a) == 0.0 && InBox(c, a, d, 0.0)
  {
    OppositeSigns(u, v);
    var r := u / (u - v);
    assert r * (u - v) == u;
    AlongAlong(a, b, u, v, r);
    assert a == Along(Along(a, b, u), Along(a, b, v), r);
    OnLine(Along(a, b, u), Along(a, b, v), r);
    OnSegmentInBox(a, Along(a, b, u), Along(a, b, v));
  }

  /** The last cases: the shared point is an end of a segment, or both segments have their ends on opposite sides. */
  lemma EndsOrOpposite(o1: real, o2: real, o3: real, o4: real, s: real, t: real,
                       boxC: bool, boxD: bool, boxA: bool, boxB: bool)
    requires (o1 == 0.0 && s == 0.0) || (o2 == 0.0 && s == 1.0) || o1 * o2 < 0.0
    requires (o3 == 0.0 && t == 0.0) || (o4 == 0.0 && t == 1.0) || o3 * o4 < 0.0
    requires (s == 0.0 ==> boxC) && (s == 1.0 ==> boxD) && (t == 0.0 ==> boxA) && (t == 1.0 ==> boxB)
    ensures (o1 * o2 < 0.0 && o3 * o4 < 0.0)
         || (o1 == 0.0 && boxC) || (o2 == 0.0 && boxD) || (o3 == 0.0 && boxA) || (o4 == 0.0 && boxB)
  {
  }

  lemma EndPoints(a: Point, b: Point)
    ensures Along(a, b, 0.0) == a && Along(a, b, 1.0) == b
  {
  }

  lemma SidesOfShared(a: Point, b: Point, c: Point, d: Point, s: real, t: real)
    requires 0.0 <= s <= 1.0 && Along(a, b, t) == Along(c, d, s)
    ensures var o1, o2 := SideOfLine(a, b, c), SideOfLine(a, b, d);
            (o1 == 0.0 && o2 == 0.0) || (o1 == 0.0 && s == 0.0) || (o2 == 0.0 && s == 1.0) || o1 * o2 < 0.0
  {
    OnLine(a, b, t);
    SideAlong(a, b, c, d, s);
    ConvexZero(SideOfLine(a, b, c), SideOfLine(a, b, d), s);
  }

  lemma SharedMeansExact(a: Point, b: Point, c: Point, d: Point)
    requires SharePoint(a, b, c, d)
    ensures ExactIntersects(a, b, c, d)
  {
    var p :| OnSegment(p, a, b) && OnSegment(p, c, d);
    var t :| 0.0 <= t <= 1.0 && p == Along(a, b, t);
    var s :| 0.0 <= s <= 1.0 && p == Along(c, d, s);
    SidesOfShared(a, b, c, d, s, t);
    SidesOfShared(c, d, a, b, t, s);
    if SideOfLine(a, b, c) == 0.0 && SideOfLine(a, b, d) == 0.0 {
      CollinearShared(a, b, c, d, s, t);
    } else if SideOfLine(c, d, a) == 0.0 && SideOfLine(c, d, b) == 0.0 {
      CollinearShared(c, d, a, b, t, s);
    } else {
      EndPoints(a, b);
      EndPoints(c, d);
      OnSegmentInBox(p, a, b);
      OnSegmentInBox(p, c, d);
      EndsOrOpposite(SideOfLine(a, b, c), SideOfLine(a, b, d), SideOfLine(c, d, a), SideOfLine(c, d, b), s, t,
                     InBox(a, c, b, 0.0), InBox(a, d, b, 0.0), InBox(c, a, d, 0.0), InBox(c, b, d, 0.0));
    }
  }

  /** Without tolerances the test holds exactly when the closed segments share a point, degenerate ones included. */
  lemma ExactIsShared(a: Point, b: Point, c: Point, d: Point)
    ensures ExactIntersects(a, b, c, d) <==> SharePoint(a, b, c, d)
  {
    if ExactIntersects(a, b, c, d) {
      ExactMeansShared(a, b, c, d);
    }
    if SharePoint(a, b, c, d) {
      SharedMeansExact(a, b, c, d);
    }
  }

  /** With its tolerances the test never misses a shared point. */
  lemma NeverMisses(a: Point, b: Point, c: Point, d: Point)
    requires SharePoint(a, b, c, d)
    ensures SegmentIntersects(a, b, c, d)
  {
    SharedMeansExact(a, b, c, d);
  }

  lemma ParallelOffset(h: real)
    requires 0.0 < h < TOLERANCE
    ensures var a, b, c, d := Point(0.0, 0.0), Point(1.0, 0.0), Point(0.0, h), Point(1.0, h);
            SegmentIntersects(a, b, c, d) && !ExactIntersects(a, b, c, d)
  {
    var a, b, c, d := Point(0.0, 0.0), Point(1.0, 0.0), Point(0.0, h), Point(1.0, h);
    assert SideOfLine(a, b, c) == h && SideOfLine(a, b, d) == h;
    assert SideOfLine(c, d, a) == -h && SideOfLine(c, d, b) == -h;
  }

  /** But it also accepts segments that miss each other: unit segments, parallel and closer than the tolerance. */
  lemma AcceptsNearMiss(h: real)
    requires 0.0 < h < TOLERANCE
    ensures var a, b, c, d := Point(0.0, 0.0), Point(1.0, 0.0), Point(0.0, h), Point(1.0, h);
            SegmentIntersects(a, b, c, d) && !SharePoint(a, b, c, d)
  {
    var a, b, c, d := Point(0.0, 0.0), Point(1.0, 0.0), Point(0.0, h), Point(1.0, h);
    ParallelOffset(h);
    if SharePoint(a, b, c, d) {
      SharedMeansExact(a, b, c, d);
    }
  }

  // When the tolerances make no difference

  /** An end `q` of one segment is taken to lie on the segment from `p` to `r`. */
  predicate Near(p: Point, q: Point, r: Point) {
    Abs(SideOfLine(p, r, q)) < TOLERANCE && InBox(p, q, r, TOLERANCE)
  }

  predicate Touches(p: Point, q: Point, r: Point) {
    SideOfLine(p, r, q) == 0.0 && InBox(p, q, r, 0.0)
  }

  predicate SomeEndNear(a: Point, b: Point, c: Point, d: Point) {
    Near(a, c, b) || Near(a, d, b) || Near(c, a, d) || Near(c, b, d)
  }

  predicate SomeEndTouches(a: Point, b: Point, c: Point, d: Point) {
    Touches(a, c, b) || Touches(a, d, b) || Touches(c, a, d) || Touches(c, b, d)
  }

  predicate Crosses(a: Point, b: Point, c: Point, d: Point) {
    SideOfLine(a, b, c) * SideOfLine(a, b, d) < 0.0 && SideOfLine(c, d, a) * SideOfLine(c, d, b) < 0.0
  }

  /** The test is wrong exactly when an end is near the other segment although none touches it and nothing crosses. */
  lemma WrongExactlyWhenNear(a: Point, b: Point, c: Point, d: Point)
    ensures (SegmentIntersects(a, b, c, d) <==> SharePoint(a, b, c, d))
       <==> !(SomeEndNear(a, b, c, d) && !SomeEndTouches(a, b, c, d) && !Crosses(a, b, c, d))
  {
    ExactIsShared(a, b, c, d);
    if SharePoint(a, b, c, d) {
      NeverMisses(a, b, c, d);
    }
  }

  /** A coordinate is within its range or out of it by more than the tolerance. */
  predicate Clear(u: real, q: real, v: real) {
    RMin(u, v) <= q <= RMax(u, v) || q < RMin(u, v) - TOLERANCE || q > RMax(u, v) + TOLERANCE
  }

  /** The side of `q` is zero or at least the tolerance, and its coordinates are clear of the box. */
  predicate Decided(p: Point, q: Point, r: Point) {
    && (SideOfLine(p, r, q) == 0.0 || Abs(SideOfLine(p, r, q)) >= TOLERANCE)
    && Clear(p.x, q.x, r.x) && Clear(p.y, q.y, r.y)
  }

  /** On points whose sides and gaps are zero or not below the tolerance the test is exact. */
  lemma ExactWhenDecided(a: Point, b: Point, c: Point, d: Point)
    requires Decided(a, c, b) && Decided(a, d, b) && Decided(c, a, d) && Decided(c, b, d)
    ensures SegmentIntersects(a, b, c, d) <==> SharePoint(a, b, c, d)
  {
    NearIsTouching(a, c, b);
    NearIsTouching(a, d, b);
    NearIsTouching(c, a, d);
    NearIsTouching(c, b, d);
    WrongExactlyWhenNear(a, b, c, d);
  }

  lemma NearIsTouching(p: Point, q: Point, r: Point)
    requires Decided(p, q, r)
    ensures Near(p, q, r) ==> Touches(p, q, r)
  {
  }

  /** A single end that is near without touching, while nothing else meets, makes the test wrong. */
  lemma WrongWhenUndecided(a: Point, b: Point, c: Point, d: Point)
    requires Near(a, c, b) && !Touches(a, c, b) && !Crosses(a, b, c, d)
    requires !Touches(a, d, b) && !Touches(c, a, d) && !Touches(c, b, d)
    ensures SegmentIntersects(a, b, c, d) && !SharePoint(a, b, c, d) && !Decided(a, c, b)
  {
    NearIsNotDecided(a, c, b);
    WrongExactlyWhenNear(a, b, c, d);
  }

  lemma NearIsNotDecided(p: Point, q: Point, r: Point)
    requires Near(p, q, r) && !Touches(p, q, r)
    ensures !Decided(p, q, r)
  {
  }

  // Points on a grid

  function Times(n: int, step: real): real {
    n as real * step
  }

  /** A point with coordinates that are whole multiples of a step. */
  function OnGrid(x: int, y: int, step: real): Point {
    Point(Times(x, step), Times(y, step))
  }

  lemma Difference(x: int, y: int, step: real)
    ensures Times(x, step) - Times(y, step) == Times(x - y, step)
  {
    assert (x - y) as real == x as real - y as real;
  }

  lemma Rearranged(u: real, v: real, step: real)
    ensures (u * step) * (v * step) == (u * v) * (step * step)
  {
  }

  lemma TimesTimes(u: int, v: int, step: real)
    ensures Times(u, step) * Times(v, step) == Times(u * v, step * step)
  {
    Rearranged(u as real, v as real, step);
    assert (u * v) as real == u as real * v as real;
  }

  /** On a grid the side of a point is a whole multiple of the square of the step. */
  lemma GridSide(a1: int, a2: int, b1: int, b2: int, p1: int, p2: int, step: real)
    ensures SideOfLine(OnGrid(a1, a2, step), OnGrid(b1, b2, step), OnGrid(p1, p2, step))
         == Times((b1 - a1) * (p2 - a2) - (b2 - a2) * (p1 - a1), step * step)
  {
    Difference(b1, a1, step);
    Difference(p2, a2, step);
    Difference(b2, a2, step);
    Difference(p1, a1, step);
    TimesTimes(b1 - a1, p2 - a2, step);
    TimesTimes(b2 - a2, p1 - a1, step);
    Difference((b1 - a1) * (p2 - a2), (b2 - a2) * (p1 - a1), step * step);
  }

  /** Whole multiples of a step are equal or at least the step apart. */
  predicate Apart(u: real, q: real, step: real) {
    u == q || u - q >= step || u - q <= -step
  }

  lemma Multiple(n: int, step: real)
    requires step > 0.0
    ensures Apart(Times(n, step), 0.0, step)
  {
    var r := n as real;
    if n >= 1 {
      Product(r - 1.0, step);
      assert (r - 1.0) * step == r * step - step;
    } else if n <= -1 {
      Product(-r - 1.0, step);
      assert (-r - 1.0) * step == -(r * step) - step;
    } else {
      assert r * step == 0.0;
    }
  }

  lemma Gap(u: int, q: int, step: real)
    requires step > 0.0
    ensures Apart(Times(u, step), Times(q, step), step)
  {
    Multiple(u - q, step);
    Difference(u, q, step);
  }

  lemma GapsClear(u: real, q: real, v: real, step: real)
    requires step > TOLERANCE && Apart(u, q, step) && Apart(v, q, step)
    ensures Clear(u, q, v)
  {
  }

  lemma GridClear(u: int, q: int, v: int, step: real)
    requires step > TOLERANCE
    ensures Clear(Times(u, step), Times(q, step), Times(v, step))
  {
    Gap(u, q, step);
    Gap(v, q, step);
    GapsClear(Times(u, step), Times(q, step), Times(v, step), step);
  }

  lemma StepExceedsTolerance(step: real)
    requires step > 0.0 && step * step >= TOLERANCE
    ensures step > TOLERANCE
  {
    if step <= TOLERANCE {
      Product(TOLERANCE - step, step);
      Product(TOLERANCE - step, TOLERANCE);
    }
  }

  lemma GridDecided(p1: int, p2: int, q1: int, q2: int, r1: int, r2: int, step: real)
    requires step > 0.0 && step * step >= TOLERANCE
    ensures Decided(OnGrid(p1, p2, step), OnGrid(q1, q2, step), OnGrid(r1, r2, step))
  {
    GridSide(p1, p2, r1, r2, q1, q2, step);
    Multiple((r1 - p1) * (q2 - p2) - (r2 - p2) * (q1 - p1), step * step);
    StepExceedsTolerance(step);
    GridClear(p1, q1, r1, step);
    GridClear(p2, q2, r2, step);
  }

  /** On any grid whose step is at least the square root of the tolerance, about 0.00003, the test is exact. */
  lemma ExactOnGrid(a1: int, a2: int, b1: int, b2: int, c1: int, c2: int, d1: int, d2: int, step: real)
    requires step > 0.0 && step * step >= TOLERANCE
    ensures var a, b, c, d := OnGrid(a1, a2, step), OnGrid(b1, b2, step), OnGrid(c1, c2, step), OnGrid(d1, d2, step);
            SegmentIntersects(a, b, c, d) <==> SharePoint(a, b, c, d)
  {
    GridDecided(a1, a2, c1, c2, b1, b2, step);
    GridDecided(a1, a2, d1, d2, b1, b2, step);
    GridDecided(c1, c2, a1, a2, d1, d2, step);
    GridDecided(c1, c2, b1, b2, d1, d2, step);
    ExactWhenDecided(OnGrid(a1, a2, step), OnGrid(b1, b2, step), OnGrid(c1, c2, step), OnGrid(d1, d2, step));
  }

  function Pixel(x: int, y: int): Point {
    Point(x as real, y as real)
  }

  /** In particular on whole pixels. */
  lemma ExactOnPixels(a1: int, a2: int, b1: int, b2: int, c1: int, c2: int, d1: int, d2: int)
    ensures var a, b, c, d := Pixel(a1, a2), Pixel(b1, b2), Pixel(c1, c2), Pixel(d1, d2);
            SegmentIntersects(a, b, c, d) <==> SharePoint(a, b, c, d)
  {
    ExactOnGrid(a1, a2, b1, b2, c1, c2, d1, d2, 1.0);
    PixelOnGrid(a1, a2);
    PixelOnGrid(b1, b2);
    PixelOnGrid(c1, c2);
    PixelOnGrid(d1, d2);
  }

  lemma PixelOnGrid(x: int, y: int)
    ensures Pixel(x, y) == OnGrid(x, y, 1.0) == OnGrid(20 * x, 20 * y, 0.05)
  {
  }

  /** The foot point of a track: the middle of its box, a twentieth of its height above the bottom. */
  function Foot(x: real, y: real, w: real, h: real): Point {
    Point(x + w / 2.0, y + h * 0.95)
  }

  lemma FootOnGrid(x: int, y: int, w: int, h: int)
    ensures Foot(x as real, y as real, w as real, h as real) == OnGrid(20 * x + 10 * w, 20 * y + 19 * h, 0.05)
  {
  }

  /** So the feet of boxes with whole pixel coordinates are compared exactly with lines through whole pixels. */
  lemma ExactOnFeet(x: int, y: int, w: int, h: int, x': int, y': int, w': int, h': int,
                    c1: int, c2: int, d1: int, d2: int)
    ensures var a := Foot(x as real, y as real, w as real, h as real);
            var b := Foot(x' as real, y' as real, w' as real, h' as real);
            var c, d := Pixel(c1, c2), Pixel(d1, d2);
            SegmentIntersects(a, b, c, d) <==> SharePoint(a, b, c, d)
  {
    FootOnGrid(x, y, w, h);
    FootOnGrid(x', y', w', h');
    PixelOnGrid(c1, c2);
    PixelOnGrid(d1, d2);
    ExactOnGrid(20 * x + 10 * w, 20 * y + 19 * h, 20 * x' + 10 * w', 20 * y' + 19 * h',
                20 * c1, 20 * c2, 20 * d1, 20 * d2, 0.05);
  }
}
