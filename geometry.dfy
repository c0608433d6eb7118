// Plane geometry the mask works in: points, the host node's content box,
// and the ellipse tessellation (`_calculateCircle`) with its shared scratch
// buffer. Floating point is modelled by `real`; cosine and sine are left
// abstract behind a `UnitCircle` function.
module Geometry {

  datatype Point = Point(x: real, y: real)

  /** Width and height of the visible viewport. */
  datatype Size = Size(width: real, height: real)

  /** Content size and anchor point of the node that carries the mask. */
  datatype NodeGeometry = NodeGeometry(width: real, height: real, anchorX: real, anchorY: real)

  /**
   * The platform's cosine and sine, uninterpreted: `unit(t)` stands for
   * (cos 2πt, sin 2πt), the point a fraction `t` of a full turn round the
   * unit circle.
   */
  type UnitCircle = real -> Point

  /** What the model may assume of a faithful `UnitCircle`. */
  ghost predicate OnUnitCircle(unit: UnitCircle) {
    forall t :: unit(t).x * unit(t).x + unit(t).y * unit(t).y == 1.0
  }

  /** The `step`-th of `n` vertices of the ellipse with the given centre and radii. */
  function CircleVertex(center: Point, radius: Point, n: int, step: int, unit: UnitCircle): Point
    requires n > 0
  {
    var u := unit(step as real / n as real);
    Point(radius.x * u.x + center.x, radius.y * u.y + center.y)
  }

  /** All `n` vertices, in order of increasing angle; none when `n <= 0`. */
  function CircleVertices(center: Point, radius: Point, n: int, unit: UnitCircle): (pts: seq<Point>)
    ensures |pts| == if n > 0 then n else 0
    ensures forall i :: 0 <= i < |pts| ==> pts[i] == CircleVertex(center, radius, n, i, unit)
  {
    if n <= 0 then [] else seq(n, i requires 0 <= i < n => CircleVertex(center, radius, n, i, unit))
  }

  /**
   * Every tessellated vertex lies on the ellipse: its offset from the centre,
   * scaled by the radii, is a point of the unit circle.
   */
  lemma VertexOnEllipse(center: Point, radius: Point, n: int, step: int, unit: UnitCircle)
    requires n > 0 && radius.x != 0.0 && radius.y != 0.0
    requires OnUnitCircle(unit)
    ensures var v := CircleVertex(center, radius, n, step, unit);
            var dx, dy := (v.x - center.x) / radius.x, (v.y - center.y) / radius.y;
            dx * dx + dy * dy == 1.0
  {
    var u := unit(step as real / n as real);
    var v := CircleVertex(center, radius, n, step, unit);
    assert (v.x - center.x) / radius.x == u.x by {
      assert v.x - center.x == radius.x * u.x;
    }
    assert (v.y - center.y) / radius.y == u.y by {
      assert v.y - center.y == radius.y * u.y;
    }
  }

  /**
   * The module-wide scratch array that the tessellation empties and refills
   * on every call; all masks share it, so its contents are only good until
   * the next tessellation.
   */
  class CirclePoints {
    var points: seq<Point>

    constructor ()
      ensures points == []
    {
      points := [];
    }

    /** Empties the buffer, pushes the `segments` vertices, and hands the buffer back. */
    method Calculate(center: Point, radius: Point, segments: int, unit: UnitCircle) returns (pts: seq<Point>)
      modifies this
      ensures points == CircleVertices(center, radius, segments, unit)
      ensures pts == points
    {
      points := [];
      var step := 0;
      while step < segments
        invariant 0 <= step <= (if segments > 0 then segments else 0)
        invariant |points| == step
        invariant forall i :: 0 <= i < step ==> points[i] == CircleVertex(center, radius, segments, i, unit)
      {
        points := points + [CircleVertex(center, radius, segments, step, unit)];
        step := step + 1;
      }
      pts := points;
    }
  }
}
