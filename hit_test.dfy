// Hit classification (`isHit`) for a point already mapped into the mask
// node's local space; the world-matrix inversion that produces that point
// is not part of this model.
module HitTest {
  import opened Geometry
  import opened MaskShape

  /** Shifts a node-local point so that the content box spans [0, w] x [0, h]. */
  function ToBoxSpace(local: Point, g: NodeGeometry): Point {
    Point(local.x + g.anchorX * g.width, local.y + g.anchorY * g.height)
  }

  function Sq(a: real): real { a * a }

  /**
   * The ellipse test on a box-space point: `px²/rx² + py²/ry² < 1` with
   * `rx = w/2`, `ry = h/2`, the offsets taken from the box centre. Over the
   * reals `px * px / (rx * rx)` equals `px * px / rx / rx`, which is how it is
   * written here. When either radius is zero the engine divides by zero;
   * every term is then +Infinity or NaN and the comparison is false.
   */
  function InEllipseBox(w: real, h: real, p: Point): bool {
    var rx, ry := w / 2.0, h / 2.0;
    var px, py := p.x - 0.5 * w, p.y - 0.5 * h;
    if rx == 0.0 || ry == 0.0 then false
    else EllipseSum(px, py, rx, ry) < 1.0
  }

  /** `px²/rx² + py²/ry²`. */
  function EllipseSum(px: real, py: real, rx: real, ry: real): real
    requires rx != 0.0 && ry != 0.0
  {
    px * px / rx / rx + py * py / ry / ry
  }

  /** `isHit` on a point in node-local space. */
  function Hits(t: MaskType, g: NodeGeometry, local: Point): bool {
    var p := ToBoxSpace(local, g);
    match t
    case RectMask => p.x >= 0.0 && p.y >= 0.0 && p.x <= g.width && p.y <= g.height
    case EllipseMask => InEllipseBox(g.width, g.height, p)
    case GraphicsStencilMask => false
  }

  // ---- Properties ----

  lemma QuotientSquared(a: real, r: real)
    requires r != 0.0
    ensures a * a / r / r == Sq(a / r)
  {
    assert a * a / r == a * (a / r);
  }

  /**
   * A RECT mask hits exactly the points of the rectangle its outline draws,
   * edges included.
   */
  lemma RectHitsDrawnRect(g: NodeGeometry, segments: int, unit: UnitCircle, local: Point)
    ensures var r := ShapePath(RectMask, g, segments, unit)[0];
            && r.Rect?
            && (Hits(RectMask, g, local) <==>
                  r.x <= local.x <= r.x + r.w && r.y <= local.y <= r.y + r.h)
  {
  }

  /**
   * For nonzero radii the ellipse test is the usual one: the offset from the
   * box centre, scaled by the radii, has length below 1.
   */
  lemma InEllipseBoxIff(w: real, h: real, p: Point)
    requires w != 0.0 && h != 0.0
    ensures InEllipseBox(w, h, p) <==>
              Sq((p.x - 0.5 * w) / (w / 2.0)) + Sq((p.y - 0.5 * h) / (h / 2.0)) < 1.0
  {
    EllipseFormula(p.x - 0.5 * w, p.y - 0.5 * h, w / 2.0, h / 2.0);
  }

  lemma EllipseFormula(px: real, py: real, rx: real, ry: real)
    requires rx != 0.0 && ry != 0.0
    ensures EllipseSum(px, py, rx, ry) == Sq(px / rx) + Sq(py / ry)
  {
    QuotientSquared(px, rx);
    QuotientSquared(py, ry);
  }

  /**
   * An ELLIPSE mask of nonzero size hits exactly the points strictly inside
   * the ellipse whose centre and radii the tessellation uses.
   */
  lemma EllipseHitsInsideDrawnEllipse(g: NodeGeometry, local: Point)
    requires g.width != 0.0 && g.height != 0.0
    ensures var c, r := EllipseCenter(g), EllipseRadius(g);
            Hits(EllipseMask, g, local) <==>
              Sq((local.x - c.x) / r.x) + Sq((local.y - c.y) / r.y) < 1.0
  {
    var c, p := EllipseCenter(g), ToBoxSpace(local, g);
    InEllipseBoxIff(g.width, g.height, p);
    assert p.x - 0.5 * g.width == local.x - c.x;
    assert p.y - 0.5 * g.height == local.y - c.y;
  }

  /** A zero-width or zero-height ELLIPSE mask never hits. */
  lemma DegenerateEllipseNeverHits(g: NodeGeometry, local: Point)
    requires g.width == 0.0 || g.height == 0.0
    ensures !Hits(EllipseMask, g, local)
  {
  }

  /** GRAPHICS_STENCIL masks are not hit-tested: every point misses. */
  lemma StencilNeverHits(g: NodeGeometry, local: Point)
    ensures !Hits(GraphicsStencilMask, g, local)
  {
  }

  /** The rectangle test is inclusive: all four corners of a non-negative box hit. */
  lemma RectCornersHit(g: NodeGeometry)
    requires g.width >= 0.0 && g.height >= 0.0
    ensures var o := BoxOrigin(g);
            && Hits(RectMask, g, o)
            && Hits(RectMask, g, Point(o.x + g.width, o.y))
            && Hits(RectMask, g, Point(o.x, o.y + g.height))
            && Hits(RectMask, g, Point(o.x + g.width, o.y + g.height))
  {
  }

  /** The centre of a nonzero ELLIPSE mask hits. */
  lemma EllipseCenterHits(g: NodeGeometry)
    requires g.width != 0.0 && g.height != 0.0
    ensures Hits(EllipseMask, g, EllipseCenter(g))
  {
    EllipseHitsInsideDrawnEllipse(g, EllipseCenter(g));
  }

  /**
   * The ellipse test is strict: with an exact cosine and sine, every vertex
   * of the tessellated outline lies on the boundary and misses.
   */
  lemma OutlineVerticesMiss(g: NodeGeometry, segments: int, unit: UnitCircle, i: int)
    requires OnUnitCircle(unit)
    requires 0 <= i < |EllipseVertices(g, segments, unit)|
    ensures !Hits(EllipseMask, g, EllipseVertices(g, segments, unit)[i])
  {
    if g.width != 0.0 && g.height != 0.0 {
      var c, r := EllipseCenter(g), EllipseRadius(g);
      VertexOnEllipse(c, r, segments, i, unit);
      EllipseHitsInsideDrawnEllipse(g, EllipseVertices(g, segments, unit)[i]);
    }
  }
}
