/** The deviation that the simplification of a polyline compares is the squared distance from a line. */
module LineDistance {
  import opened Segments
  import opened Polyline

  lemma PositiveProduct(u: real, v: real, w: real)
    requires u > 0.0 && v > 0.0 && w == u * v
    ensures w > 0.0
  {
  }

  lemma NegatedProduct(u: real, v: real, w: real)
    requires w == u * v
    ensures w == (-u) * (-v)
  {
  }

  lemma NonzeroSquare(u: real)
    ensures u != 0.0 ==> Square(u) > 0.0
  {
    if u < 0.0 {
      NegatedProduct(u, u, Square(u));
      PositiveProduct(-u, -u, Square(u));
    } else if u > 0.0 {
      PositiveProduct(u, u, Square(u));
    }
  }

  lemma PositiveDistance(a: Point, b: Point)
    requires a != b
    ensures DistanceSquared(a, b) > 0.0
  {
    NonzeroSquare(a.x - b.x);
    NonzeroSquare(a.y - b.y);
  }

  /** The squared distance in one coordinate from the place that lies `t` times the way along `d`. */
  function Offset(u: real, d: real, t: real): real {
    Square(u - t * d)
  }

  /** How far `p` is, squared, from the point that lies `t` times the way from `a` to `b`. */
  function FromLine(a: Point, b: Point, p: Point, t: real): real {
    Offset(p.x - a.x, b.x - a.x, t) + Offset(p.y - a.y, b.y - a.y, t)
  }

  lemma LineIdentity(dx: real, dy: real, px: real, py: real, t: real, length: real)
    requires length == dx * dx + dy * dy
    ensures (Offset(px, dx, t) + Offset(py, dy, t)) * length
         == Square(dx * py - dy * px) + Square(dx * px + dy * py - t * length)
  {
  }

  lemma QuotientLeast(cross: real, length: real, rest: real, d: real)
    requires length > 0.0 && d * length == cross + rest && rest >= 0.0
    ensures cross / length <= d && (rest == 0.0 ==> cross / length == d)
  {
    var q := cross / length;
    assert q * length == cross;
    assert (d - q) * length == rest;
  }

  lemma DistanceAtMost(dx: real, dy: real, px: real, py: real, t: real, length: real)
    requires length > 0.0 && length == dx * dx + dy * dy
    ensures var d := Offset(px, dx, t) + Offset(py, dy, t);
            && Square(dx * py - dy * px) / length <= d
            && (t * length == dx * px + dy * py ==> Square(dx * py - dy * px) / length == d)
  {
    LineIdentity(dx, dy, px, py, t, length);
    QuotientLeast(Square(dx * py - dy * px), length, Square(dx * px + dy * py - t * length),
                  Offset(px, dx, t) + Offset(py, dy, t));
  }

  lemma LengthOf(a: Point, b: Point, dx: real, dy: real)
    requires dx == b.x - a.x && dy == b.y - a.y
    ensures DistanceSquared(a, b) == dx * dx + dy * dy
  {
    NegatedProduct(a.x - b.x, a.x - b.x, Square(a.x - b.x));
    NegatedProduct(a.y - b.y, a.y - b.y, Square(a.y - b.y));
  }

  lemma SideIs(a: Point, b: Point, p: Point, dx: real, dy: real, px: real, py: real)
    requires dx == b.x - a.x && dy == b.y - a.y && px == p.x - a.x && py == p.y - a.y
    ensures SideOfLine(a, b, p) == dx * py - dy * px
  {
  }

  lemma NoWay(u: real, t: real)
    ensures Offset(u, 0.0, t) == Square(u)
  {
  }

  lemma DeviationAtMost(a: Point, b: Point, p: Point, t: real)
    ensures Deviation(a, b, p) <= FromLine(a, b, p, t)
    ensures a == b || t * DistanceSquared(a, b) == (b.x - a.x) * (p.x - a.x) + (b.y - a.y) * (p.y - a.y) ==>
              Deviation(a, b, p) == FromLine(a, b, p, t)
  {
    var dx, dy, px, py := b.x - a.x, b.y - a.y, p.x - a.x, p.y - a.y;
    if a == b {
      LengthOf(a, b, dx, dy);
      NoWay(px, t);
      NoWay(py, t);
    } else {
      PositiveDistance(a, b);
      LengthOf(a, b, dx, dy);
      SideIs(a, b, p, dx, dy, px, py);
      DistanceAtMost(dx, dy, px, py, t, DistanceSquared(a, b));
    }
  }

  /** It is the smallest squared distance from a point of the line through `a` and `b`. */
  lemma DeviationIsDistance(a: Point, b: Point, p: Point)
    ensures forall t :: Deviation(a, b, p) <= FromLine(a, b, p, t)
    ensures exists t :: Deviation(a, b, p) == FromLine(a, b, p, t)
  {
    forall t ensures Deviation(a, b, p) <= FromLine(a, b, p, t) {
      DeviationAtMost(a, b, p, t);
    }
    if a == b {
      DeviationAtMost(a, b, p, 0.0);
    } else {
      PositiveDistance(a, b);
      var along, length := (b.x - a.x) * (p.x - a.x) + (b.y - a.y) * (p.y - a.y), DistanceSquared(a, b);
      assert (along / length) * length == along;
      DeviationAtMost(a, b, p, along / length);
    }
  }
}
