/** Points and axis-aligned boxes in Revit's internal length unit (feet). */
module Geometry {

  /** An `XYZ` point. */
  datatype Point = Point(x: real, y: real, z: real)

  /** A `BoundingBoxXYZ` with both corners present. */
  datatype Box = Box(min: Point, max: Point)

  /** The corners are ordered on every axis (Revit's boxes are; nothing here relies on it unless stated). */
  predicate WellFormed(b: Box)
  {
    b.min.x <= b.max.x && b.min.y <= b.max.y && b.min.z <= b.max.z
  }

  /** `(Min + Max) / 2`, componentwise. */
  function Center(b: Box): (c: Point)
    ensures WellFormed(b) ==> b.min.x <= c.x <= b.max.x && b.min.y <= c.y <= b.max.y && b.min.z <= c.z <= b.max.z
  {
    Point((b.min.x + b.max.x) / 2.0, (b.min.y + b.max.y) / 2.0, (b.min.z + b.max.z) / 2.0)
  }

  /** The square of `p.DistanceTo(q)`: the Euclidean distance without its square root. */
  function SquaredDistance(p: Point, q: Point): (d: real)
    ensures d >= 0.0
    ensures p == q ==> d == 0.0
  {
    var dx, dy, dz := p.x - q.x, p.y - q.y, p.z - q.z;
    Square(dx);
    Square(dy);
    Square(dz);
    dx * dx + dy * dy + dz * dz
  }

  lemma Square(a: real)
    ensures a * a >= 0.0
  {
    if a < 0.0 {
      assert a * a == (-a) * (-a);
    }
  }

  /** `outer` contains `inner` on every axis. */
  predicate Encloses(outer: Box, inner: Box)
  {
    && outer.min.x <= inner.min.x && outer.min.y <= inner.min.y && outer.min.z <= inner.min.z
    && inner.max.x <= outer.max.x && inner.max.y <= outer.max.y && inner.max.z <= outer.max.z
  }
}
