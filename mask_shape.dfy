// The mask's shape configuration and the path it draws for it: the
// segment-count clamp and the command list the content graphics receives
// on every rebuild (`_updateGraphics`), plus the full-viewport rectangle of
// the clear graphics (`_updateClearGraphics`).
module MaskShape {
  import opened Geometry
  import G = GraphicsProxy

  /** `MaskType`: RECT = 0, ELLIPSE = 1, GRAPHICS_STENCIL = 2. */
  datatype MaskType = RectMask | EllipseMask | GraphicsStencilMask

  const SegmentsMin: int := 3
  const SegmentsMax: int := 10000
  /** Initial value of `_segments`. */
  const DefaultSegments: int := 64

  function Dist(a: int, b: int): nat {
    if a <= b then b - a else a - b
  }

  /** The engine's `clamp`: the point of [lo, hi] nearest to `v`. */
  function Clamp(v: int, lo: int, hi: int): (r: int)
    requires lo <= hi
    ensures lo <= r <= hi
    ensures lo <= v <= hi ==> r == v
    ensures forall k :: lo <= k <= hi ==> Dist(r, v) <= Dist(k, v)
  {
    if v < lo then lo else if v > hi then hi else v
  }

  /** Bottom-left corner of the content box in node-local space: (-w·ax, -h·ay). */
  function BoxOrigin(g: NodeGeometry): Point {
    Point(-g.width * g.anchorX, -g.height * g.anchorY)
  }

  /** Centre of the inscribed ellipse: the middle of the content box. */
  function EllipseCenter(g: NodeGeometry): Point {
    Point(BoxOrigin(g).x + g.width / 2.0, BoxOrigin(g).y + g.height / 2.0)
  }

  function EllipseRadius(g: NodeGeometry): Point {
    Point(g.width / 2.0, g.height / 2.0)
  }

  /** The tessellated outline of the ellipse inscribed in the content box. */
  function EllipseVertices(g: NodeGeometry, segments: int, unit: UnitCircle): seq<Point> {
    CircleVertices(EllipseCenter(g), EllipseRadius(g), segments, unit)
  }

  function LineTos(pts: seq<Point>): seq<G.PathCommand> {
    if pts == [] then [] else [G.LineTo(pts[0])] + LineTos(pts[1..])
  }

  /** A move to the first vertex, a line to each further one, then `close`. */
  function PolygonPath(pts: seq<Point>): seq<G.PathCommand> {
    (if pts == [] then [] else [G.MoveTo(pts[0])] + LineTos(pts[1..])) + [G.Close]
  }

  /** What a rebuild draws for the shape, between its `clear` and its `fill`. */
  function ShapePath(t: MaskType, g: NodeGeometry, segments: int, unit: UnitCircle): seq<G.PathCommand> {
    match t
    case RectMask => [G.Rect(BoxOrigin(g).x, BoxOrigin(g).y, g.width, g.height)]
    case EllipseMask => PolygonPath(EllipseVertices(g, segments, unit))
    case GraphicsStencilMask => []
  }

  /** The whole command list one rebuild sends to the content graphics. */
  function Outline(t: MaskType, g: NodeGeometry, segments: int, unit: UnitCircle): seq<G.PathCommand> {
    [G.Clear] + ShapePath(t, g, segments, unit) + [G.Fill]
  }

  /** The command list one clear-graphics rebuild sends: a viewport-sized rectangle centred on the origin. */
  function ClearOutline(v: Size): seq<G.PathCommand> {
    [G.Clear, G.Rect(-v.width / 2.0, -v.height / 2.0, v.width, v.height), G.Fill]
  }

  /** Where the clear graphics' node is put: the centre of the viewport. */
  function ViewportCenter(v: Size): Point {
    Point(v.width / 2.0, v.height / 2.0)
  }

  // ---- Properties ----

  /** Clamping is idempotent: a clamped count clamps to itself. */
  lemma ClampIdempotent(v: int, lo: int, hi: int)
    requires lo <= hi
    ensures Clamp(Clamp(v, lo, hi), lo, hi) == Clamp(v, lo, hi)
  {
  }

  /**
   * The segment setter compares the raw input with the stored count, which
   * always lies in range: an out-of-range input is never equal to it, and
   * what gets stored is the nearer bound.
   */
  lemma OutOfRangeSegmentsAlwaysStoreABound(stored: int, value: int)
    requires SegmentsMin <= stored <= SegmentsMax
    requires value < SegmentsMin || value > SegmentsMax
    ensures value != stored
    ensures Clamp(value, SegmentsMin, SegmentsMax) == if value < SegmentsMin then SegmentsMin else SegmentsMax
  {
  }

  lemma {:induction false} LineTosAt(pts: seq<Point>)
    ensures |LineTos(pts)| == |pts|
    ensures forall i :: 0 <= i < |pts| ==> LineTos(pts)[i] == G.LineTo(pts[i])
  {
    if pts != [] {
      LineTosAt(pts[1..]);
      assert forall i :: 1 <= i < |pts| ==> LineTos(pts)[i] == LineTos(pts[1..])[i - 1];
    }
  }

  lemma {:induction false} LineTosAppend(pts: seq<Point>, p: Point)
    ensures LineTos(pts + [p]) == LineTos(pts) + [G.LineTo(p)]
  {
    if pts != [] {
      assert (pts + [p])[1..] == pts[1..] + [p];
      LineTosAppend(pts[1..], p);
    }
  }

  /**
   * The polygon path of `n` vertices is one `moveTo` to the first vertex,
   * `n - 1` `lineTo`s to the others in order, and a final `close`.
   */
  lemma PolygonPathShape(pts: seq<Point>)
    requires pts != []
    ensures var r := PolygonPath(pts);
            && |r| == |pts| + 1
            && r[0] == G.MoveTo(pts[0])
            && (forall i :: 1 <= i < |pts| ==> r[i] == G.LineTo(pts[i]))
            && r[|pts|] == G.Close
  {
    LineTosAt(pts[1..]);
  }

  /** A rebuild's drawing never contains a `clear` of its own. */
  lemma ShapePathHasNoClear(t: MaskType, g: NodeGeometry, segments: int, unit: UnitCircle)
    ensures G.Clear !in ShapePath(t, g, segments, unit)
  {
    if t == EllipseMask {
      var pts := EllipseVertices(g, segments, unit);
      if pts != [] {
        LineTosAt(pts[1..]);
        assert forall i :: 1 <= i < |pts| ==> PolygonPath(pts)[i] == G.LineTo(pts[i]);
      }
    }
  }

  /**
   * The command list of one rebuild: `clear` first and `fill` last; a
   * rectangle of the content box for RECT; one `moveTo`, `segments - 1`
   * `lineTo`s over the tessellated vertices and a `close` for ELLIPSE;
   * nothing in between for GRAPHICS_STENCIL.
   */
  lemma OutlineShape(t: MaskType, g: NodeGeometry, segments: int, unit: UnitCircle)
    requires SegmentsMin <= segments <= SegmentsMax
    ensures var r := Outline(t, g, segments, unit);
            && r[0] == G.Clear && r[|r| - 1] == G.Fill
            && (t == RectMask ==>
                  r == [G.Clear, G.Rect(-g.width * g.anchorX, -g.height * g.anchorY, g.width, g.height), G.Fill])
            && (t == GraphicsStencilMask ==> r == [G.Clear, G.Fill])
            && (t == EllipseMask ==>
                  var pts := EllipseVertices(g, segments, unit);
                  && |r| == segments + 3
                  && r[1] == G.MoveTo(pts[0])
                  && (forall i :: 2 <= i <= segments ==> r[i] == G.LineTo(pts[i - 1]))
                  && r[segments + 1] == G.Close)
  {
    if t == EllipseMask {
      var pts := EllipseVertices(g, segments, unit);
      PolygonPathShape(pts);
      var r := Outline(t, g, segments, unit);
      assert forall i :: 1 <= i <= segments + 1 ==> r[i] == PolygonPath(pts)[i - 1];
    } else if t == RectMask {
      var o := BoxOrigin(g);
      assert Outline(t, g, segments, unit) == [G.Clear, G.Rect(o.x, o.y, g.width, g.height), G.Fill];
      assert o.x == -g.width * g.anchorX;
      assert o.y == -g.height * g.anchorY;
      assert Outline(t, g, segments, unit) == [G.Clear, G.Rect(-g.width * g.anchorX, -g.height * g.anchorY, g.width, g.height), G.Fill];
    }
  }

  /**
   * However many rebuilds came before, the drawing in effect on the content
   * graphics after a rebuild is exactly the shape followed by `fill`.
   */
  lemma RebuildReplacesDrawing(log: seq<G.PathCommand>, t: MaskType, g: NodeGeometry, segments: int, unit: UnitCircle)
    ensures G.SinceLastClear(log + Outline(t, g, segments, unit)) == ShapePath(t, g, segments, unit) + [G.Fill]
  {
    ShapePathHasNoClear(t, g, segments, unit);
    var drawing := ShapePath(t, g, segments, unit) + [G.Fill];
    assert log + Outline(t, g, segments, unit) == log + [G.Clear] + drawing;
    G.SinceLastClearAfterClear(log, drawing);
  }

  /**
   * The clear rectangle, drawn relative to the clear graphics' node placed at
   * the viewport centre, covers exactly the viewport [0, w] x [0, h].
   */
  lemma ClearRectCoversViewport(v: Size)
    ensures var c, r := ViewportCenter(v), ClearOutline(v)[1];
            && r.Rect? && r.w == v.width && r.h == v.height
            && c.x + r.x == 0.0 && c.x + r.x + r.w == v.width
            && c.y + r.y == 0.0 && c.y + r.y + r.h == v.height
  {
  }
}
