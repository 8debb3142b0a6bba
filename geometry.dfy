/**
 * The integer interval arithmetic the spans are measured with (the `IntervalInt2D` of the
 * IntervalArithmetic package). That package is not part of this model; its operations are
 * assumed to be: hull for `|=`, closed-interval overlap for `intersect`, both bounds moved
 * outwards by the margin for `enlarge`, and `int((inf + sup) / 2)` for `center`.
 */
module Geometry {
  import opened Numbers

  /** A closed integer interval `[inf, sup]`. */
  datatype Interval = Interval(inf: int, sup: int) {

    predicate Valid() {
      inf <= sup
    }

    predicate Contains(p: int) {
      inf <= p <= sup
    }

    predicate Includes(other: Interval) {
      inf <= other.inf && other.sup <= sup
    }

    /** `self | other`: the smallest interval holding both. */
    function Union(other: Interval): (r: Interval)
      ensures r.Includes(this) && r.Includes(other)
      ensures forall c: Interval :: c.Includes(this) && c.Includes(other) ==> c.Includes(r)
    {
      Interval(if inf <= other.inf then inf else other.inf,
               if sup >= other.sup then sup else other.sup)
    }

    /** Closed intervals overlap: they share a point (touching ends count). */
    function Intersects(other: Interval): (r: bool)
      ensures Valid() && other.Valid() ==> (r <==> exists p :: Contains(p) && other.Contains(p))
    {
      var lo := if inf >= other.inf then inf else other.inf;
      assert Valid() && other.Valid() && inf <= other.sup && other.inf <= sup ==> Contains(lo) && other.Contains(lo);
      inf <= other.sup && other.inf <= sup
    }

    /** Both bounds moved outwards by `margin`. */
    function Enlarge(margin: int): (r: Interval)
      ensures forall p :: r.Contains(p) <==> inf - margin <= p <= sup + margin
      ensures margin >= 0 ==> r.Includes(this)
    {
      Interval(inf - margin, sup + margin)
    }

    /** `int((inf + sup) / 2)`: the midpoint truncated toward zero. */
    function Center(): (c: int)
      ensures Valid() ==> Contains(c)
      ensures Abs(inf + sup - 2 * c) <= 1
      ensures inf + sup >= 0 ==> 2 * c <= inf + sup
      ensures inf + sup <= 0 ==> 2 * c >= inf + sup
    {
      TruncDiv(inf + sup, 2)
    }
  }

  /** An `IntervalInt2D`: one interval per axis. */
  datatype Box = Box(x: Interval, y: Interval) {

    predicate Valid() {
      x.Valid() && y.Valid()
    }

    predicate Includes(other: Box) {
      x.Includes(other.x) && y.Includes(other.y)
    }

    /** `bbox |= other` on a clone. */
    function Union(other: Box): (r: Box)
      ensures r.Includes(this) && r.Includes(other)
      ensures forall c: Box :: c.Includes(this) && c.Includes(other) ==> c.Includes(r)
    {
      Box(x.Union(other.x), y.Union(other.y))
    }

    function Intersects(other: Box): (r: bool)
      ensures Valid() && other.Valid() ==>
        (r <==> exists px, py :: x.Contains(px) && other.x.Contains(px)
                              && y.Contains(py) && other.y.Contains(py))
    {
      x.Intersects(other.x) && y.Intersects(other.y)
    }

    function Enlarge(margin: int): (r: Box)
      ensures margin >= 0 ==> r.Includes(this)
      ensures r.x == x.Enlarge(margin) && r.y == y.Enlarge(margin)
    {
      Box(x.Enlarge(margin), y.Enlarge(margin))
    }

    function CenterX(): (c: int)
      ensures x.Valid() ==> x.Contains(c)
    {
      x.Center()
    }

    function CenterY(): (c: int)
      ensures y.Valid() ==> y.Contains(c)
    {
      y.Center()
    }
  }

  /** `IntervalInt2D((x_min, x_max), (y_min, y_max))` from a PyMuPDF `(x0, y0, x1, y1)` bbox. */
  function FromCorners(xMin: int, yMin: int, xMax: int, yMax: int): (b: Box)
    ensures b.x.inf == xMin && b.x.sup == xMax && b.y.inf == yMin && b.y.sup == yMax
  {
    Box(Interval(xMin, xMax), Interval(yMin, yMax))
  }
}
