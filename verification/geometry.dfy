/**
 Rectangle overlap over the reals, as the detectors, the face policy, the recognizer and the evaluation
 scripts compute it.
 */
module Geometry {
  import opened Types

  function RMax(a: real, b: real): real { if a >= b then a else b }

  function RMin(a: real, b: real): real { if a <= b then a else b }

  function Area(r: Rect): real { RMax(0.0, r.w) * RMax(0.0, r.h) }

  function IntersectionArea(a: Rect, b: Rect): real {
    RMax(0.0, RMin(a.x + a.w, b.x + b.w) - RMax(a.x, b.x)) * RMax(0.0, RMin(a.y + a.h, b.y + b.h) - RMax(a.y, b.y))
  }

  function Iou(a: Rect, b: Rect): real {
    var inter := IntersectionArea(a, b);
    if inter <= 0.0 then 0.0
    else
      var union := Area(a) + Area(b) - inter;
      if union <= 0.0 then 0.0 else inter / union
  }

  /** The form of the evaluation scripts, which test only the union. */
  function ScriptIou(a: Rect, b: Rect): real {
    var inter := IntersectionArea(a, b);
    var union := Area(a) + Area(b) - inter;
    if union <= 0.0 then 0.0 else inter / union
  }

  lemma ProductMonotone(a: real, b: real, c: real, d: real)
    requires 0.0 <= a <= c && 0.0 <= b <= d
    ensures 0.0 <= a * b <= c * d
  {
    assert a * b <= c * b;
    assert c * b <= c * d;
  }

  lemma IntersectionSymmetric(a: Rect, b: Rect)
    ensures IntersectionArea(a, b) == IntersectionArea(b, a)
  {
  }

  lemma IntersectionBounded(a: Rect, b: Rect)
    ensures 0.0 <= IntersectionArea(a, b) <= Area(a)
    ensures IntersectionArea(a, b) <= Area(b)
  {
    var iw := RMax(0.0, RMin(a.x + a.w, b.x + b.w) - RMax(a.x, b.x));
    var ih := RMax(0.0, RMin(a.y + a.h, b.y + b.h) - RMax(a.y, b.y));
    ProductMonotone(iw, ih, RMax(0.0, a.w), RMax(0.0, a.h));
    ProductMonotone(iw, ih, RMax(0.0, b.w), RMax(0.0, b.h));
  }

  lemma QuotientBounded(p: real, q: real)
    requires 0.0 <= p <= q && q > 0.0
    ensures 0.0 <= p / q <= 1.0
  {
    var r := p / q;
    assert r * q == p;
    assert (1.0 - r) * q == q - p;
  }

  /** IoU is a symmetric score in [0, 1], and both forms of it agree. */
  lemma IouLaws(a: Rect, b: Rect)
    ensures Iou(a, b) == Iou(b, a)
    ensures 0.0 <= Iou(a, b) <= 1.0
    ensures ScriptIou(a, b) == Iou(a, b)
  {
    IntersectionSymmetric(a, b);
    IntersectionBounded(a, b);
    var inter := IntersectionArea(a, b);
    var union := Area(a) + Area(b) - inter;
    if union > 0.0 {
      QuotientBounded(inter, union);
    }
  }
}
