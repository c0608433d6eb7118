// The mask component itself: its two configuration properties, the two
// graphics proxies it owns (a full-viewport "clear" proxy on a node of its
// own and a content proxy on the mask's node), their lifecycle, the
// assembler flush, and hit classification.
module Mask {
  import opened Geometry
  import opened MaskShape
  import opened HitTest
  import opened RenderState
  import G = GraphicsProxy

  /** The settings `_createGraphics` gives a new clear proxy: delegated to the mask's node, instanced, invisible. */
  ghost predicate NewClearProxy(c: G.Graphics)
    reads c
  {
    c.delegated && !c.onMaskNode && c.instanceMaterial && c.lineWidth == 0.0 && c.fillAlpha == 0
  }

  /** The settings `_createGraphics` gives a new content proxy: on the mask's node, instanced, invisible. */
  ghost predicate NewContentProxy(g: G.Graphics)
    reads g
  {
    !g.delegated && g.onMaskNode && g.instanceMaterial && g.lineWidth == 0.0 && g.fillAlpha == 0
  }

  class MaskComponent {
    var maskType: MaskType
    /**
     * Ellipse tessellation count. The setter keeps it within [SegmentsMin,
     * SegmentsMax]; a deserialized value is assumed to lie there too (`Valid`).
     */
    var segments: int
    /** The content proxy, drawing the mask shape on the mask's own node. */
    var graphics: G.Graphics?
    /** The proxy that draws a viewport-sized rectangle to reset the stencil. */
    var clearGraphics: G.Graphics?
    var renderData: Option<RenderData>
    var assembler: Option<Assembler>
    var postAssembler: Option<Assembler>
    /** Set by `markForUpdateRenderData`. */
    var dirty: bool
    /** Whether the design-resolution handler is registered on the view. */
    var subscribed: bool
    /** Content size and anchor of the mask's node. */
    var node: NodeGeometry
    /** The module-wide tessellation buffer, shared by every mask. */
    const scratch: CirclePoints
    const unit: UnitCircle

    /** The content proxy as a frame: empty while there is none. */
    ghost function ContentProxy(): set<G.Graphics>
      reads this
    {
      if graphics == null then {} else {graphics}
    }

    /** The clear proxy as a frame: empty while there is none. */
    ghost function ClearProxy(): set<G.Graphics>
      reads this
    {
      if clearGraphics == null then {} else {clearGraphics}
    }

    ghost predicate Valid()
      reads this
    {
      && SegmentsMin <= segments <= SegmentsMax
      && (graphics != null && clearGraphics != null ==> graphics != clearGraphics)
    }

    /** A new mask: RECT, 64 segments, no proxies, no assemblers, no render data. */
    constructor (node: NodeGeometry, scratch: CirclePoints, unit: UnitCircle)
      ensures Valid()
      ensures maskType == RectMask && segments == DefaultSegments
      ensures graphics == null && clearGraphics == null
      ensures renderData == None && assembler == None && postAssembler == None
      ensures !dirty && !subscribed
      ensures this.node == node && this.scratch == scratch && this.unit == unit
    {
      maskType := RectMask;
      segments := DefaultSegments;
      graphics := null;
      clearGraphics := null;
      renderData := None;
      assembler := None;
      postAssembler := None;
      dirty := false;
      subscribed := false;
      this.node := node;
      this.scratch := scratch;
      this.unit := unit;
    }

    // ---- Configuration ----

    /** The `type` setter. */
    method SetType(value: MaskType)
      requires Valid()
      modifies this`maskType, this`renderData, ContentProxy()`commands, scratch
      ensures Valid()
      ensures maskType == value
      ensures old(maskType) == value ==>
                renderData == old(renderData)
                && (graphics != null ==> graphics.commands == old(graphics.commands))
                && unchanged(scratch)
      ensures old(maskType) != value ==>
                renderData == None
                && (graphics != null ==> graphics.commands == old(graphics.commands) + Outline(value, node, segments, unit))
    {
      if maskType == value {
        return;
      }
      maskType := value;
      UpdateGraphics();
      if renderData.Some? {
        DestroyRenderData();
        renderData := None;
      }
    }

    /**
     * The `segments` setter: the raw input is compared with the stored count,
     * and what is stored is the input clamped to [SegmentsMin, SegmentsMax].
     */
    method SetSegments(value: int)
      requires Valid()
      modifies this`segments, ContentProxy()`commands, scratch
      ensures Valid()
      ensures SegmentsMin <= segments <= SegmentsMax
      ensures renderData == old(renderData)
      ensures segments == if old(segments) == value then old(segments) else Clamp(value, SegmentsMin, SegmentsMax)
      ensures old(segments) == value ==>
                (graphics != null ==> graphics.commands == old(graphics.commands)) && unchanged(scratch)
      ensures old(segments) != value && graphics != null ==>
                graphics.commands == old(graphics.commands) + Outline(maskType, node, segments, unit)
    {
      if segments == value {
        return;
      }
      segments := Clamp(value, SegmentsMin, SegmentsMax);
      UpdateGraphics();
    }

    /**
     * The base class's `destroyRenderData`, which is not part of this model:
     * it is taken to leave the mask without render data.
     */
    method DestroyRenderData()
      modifies this`renderData
      ensures renderData == None
    {
      renderData := None;
    }

    // ---- Proxies ----

    /** Creates whichever of the two proxies is missing; an existing proxy is kept. */
    method CreateGraphics()
      requires Valid()
      modifies this`graphics, this`clearGraphics
      ensures Valid()
      ensures graphics != null && clearGraphics != null
      ensures forall b :: CanRender(b) == b
      ensures old(clearGraphics) != null ==> clearGraphics == old(clearGraphics)
      ensures old(clearGraphics) == null ==>
                && fresh(clearGraphics)
                && clearGraphics.commands == [] && clearGraphics.events == []
                && NewClearProxy(clearGraphics)
      ensures old(graphics) != null ==> graphics == old(graphics)
      ensures old(graphics) == null ==>
                && fresh(graphics)
                && graphics.commands == [] && graphics.events == []
                && NewContentProxy(graphics)
    {
      if clearGraphics == null {
        var c := new G.Graphics();
        clearGraphics := c;
        c.delegated := true;
        c.instanceMaterial := true;
        c.lineWidth := 0.0;
        c.fillAlpha := 0;
      }
      if graphics == null {
        var g := new G.Graphics();
        graphics := g;
        g.onMaskNode := true;
        g.instanceMaterial := true;
        g.lineWidth := 0.0;
        g.fillAlpha := 0;
      }
    }

    /**
     * Rebuilds the content path: `clear`, the shape of the current type over
     * the node's content box, `fill`. Nothing happens without a content proxy.
     */
    method UpdateGraphics()
      requires Valid()
      modifies ContentProxy()`commands, scratch
      ensures Valid()
      ensures graphics != null ==> graphics.commands == old(graphics.commands) + Outline(maskType, node, segments, unit)
      ensures graphics != null && maskType == EllipseMask ==> scratch.points == EllipseVertices(node, segments, unit)
      ensures graphics == null || maskType != EllipseMask ==> unchanged(scratch)
    {
      if graphics == null {
        return;
      }
      var start := graphics.commands;
      graphics.ClearPath();
      var o := BoxOrigin(node);
      var shape := ShapePath(maskType, node, segments, unit);
      if maskType == RectMask {
        graphics.AddRect(o.x, o.y, node.width, node.height);
      } else if maskType == EllipseMask {
        TraceEllipse();
      }
      assert graphics.commands == start + [G.Clear] + shape;
      graphics.FillPath();
      assert graphics.commands == start + Outline(maskType, node, segments, unit);
    }

    /** The ELLIPSE branch of a rebuild: tessellate into the shared buffer, then trace the polygon. */
    method TraceEllipse()
      requires graphics != null
      modifies ContentProxy()`commands, scratch
      ensures graphics.commands == old(graphics.commands) + ShapePath(EllipseMask, node, segments, unit)
      ensures scratch.points == EllipseVertices(node, segments, unit)
    {
      var pts := scratch.Calculate(EllipseCenter(node), EllipseRadius(node), segments, unit);
      TracePolygon(pts);
    }

    /**
     * The vertex loop of a rebuild: a move to the first point, a line to each
     * further one, then `close`.
     */
    method TracePolygon(pts: seq<Point>)
      requires graphics != null
      modifies ContentProxy()`commands
      ensures graphics.commands == old(graphics.commands) + PolygonPath(pts)
    {
      var start := graphics.commands;
      var i := 0;
      while i < |pts|
        invariant 0 <= i <= |pts|
        invariant graphics.commands == start + (if i == 0 then [] else [G.MoveTo(pts[0])] + LineTos(pts[1..i]))
      {
        if i == 0 {
          graphics.AddMoveTo(pts[0]);
        } else {
          LineTosAppend(pts[1..i], pts[i]);
          assert pts[1..i + 1] == pts[1..i] + [pts[i]];
          graphics.AddLineTo(pts[i]);
        }
        i := i + 1;
      }
      assert pts != [] ==> pts[1..i] == pts[1..];
      graphics.ClosePath();
    }

    /** Redraws the clear proxy as a rectangle covering the viewport, its node moved to the viewport centre. */
    method UpdateClearGraphics(viewport: Size)
      modifies ClearProxy()`commands, ClearProxy()`worldPosition
      ensures clearGraphics != null ==>
                && clearGraphics.worldPosition == ViewportCenter(viewport)
                && clearGraphics.commands == old(clearGraphics.commands) + ClearOutline(viewport)
    {
      if clearGraphics == null {
        return;
      }
      clearGraphics.SetWorldPosition(ViewportCenter(viewport));
      clearGraphics.ClearPath();
      clearGraphics.AddRect(-viewport.width / 2.0, -viewport.height / 2.0, viewport.width, viewport.height);
      clearGraphics.FillPath();
    }

    /** Enables both proxies and redraws each of them. */
    method EnableGraphics(viewport: Size)
      requires Valid()
      modifies ClearProxy()`events, ClearProxy()`commands, ClearProxy()`worldPosition
      modifies ContentProxy()`events, ContentProxy()`commands, scratch
      ensures Valid()
      ensures clearGraphics != null ==>
                && clearGraphics.events == old(clearGraphics.events) + [G.Enabled]
                && clearGraphics.worldPosition == ViewportCenter(viewport)
                && clearGraphics.commands == old(clearGraphics.commands) + ClearOutline(viewport)
      ensures graphics != null ==>
                && graphics.events == old(graphics.events) + [G.Enabled]
                && graphics.commands == old(graphics.commands) + Outline(maskType, node, segments, unit)
    {
      if clearGraphics != null {
        clearGraphics.OnEnable();
        UpdateClearGraphics(viewport);
      }
      if graphics != null {
        graphics.OnEnable();
        UpdateGraphics();
      }
    }

    /** Disables the content proxy, then the clear proxy. */
    method DisableGraphics()
      requires Valid()
      modifies ContentProxy()`events, ClearProxy()`events
      ensures Valid()
      ensures graphics != null ==> graphics.events == old(graphics.events) + [G.Disabled]
      ensures clearGraphics != null ==>
                clearGraphics.events == old(clearGraphics.events) + [G.Disabled]
    {
      if graphics != null {
        graphics.OnDisable();
      }
      if clearGraphics != null {
        clearGraphics.OnDisable();
      }
    }

    /** Destroys both proxies; the fields keep pointing at them. */
    method RemoveGraphics()
      requires Valid()
      modifies ContentProxy()`events, ClearProxy()`events
      ensures Valid()
      ensures graphics != null ==> graphics.events == old(graphics.events) + [G.Destroyed]
      ensures clearGraphics != null ==>
                clearGraphics.events == old(clearGraphics.events) + [G.Destroyed]
    {
      if graphics != null {
        graphics.Destroy();
      }
      if clearGraphics != null {
        clearGraphics.Destroy();
      }
    }

    // ---- Lifecycle ----

    /** Creates the missing proxies and forwards `onLoad` to both. */
    method OnLoad()
      requires Valid()
      modifies this`graphics, this`clearGraphics, ContentProxy()`events, ClearProxy()`events
      ensures Valid()
      ensures graphics != null && clearGraphics != null
      ensures old(graphics) != null ==> graphics == old(graphics)
      ensures old(clearGraphics) != null ==> clearGraphics == old(clearGraphics)
      ensures old(clearGraphics) == null ==>
                fresh(clearGraphics) && clearGraphics.commands == [] && NewClearProxy(clearGraphics)
      ensures old(graphics) == null ==>
                fresh(graphics) && graphics.commands == [] && NewContentProxy(graphics)
      ensures graphics.events == (if old(graphics) == null then [] else old(graphics.events)) + [G.Loaded]
      ensures clearGraphics.events == (if old(clearGraphics) == null then [] else old(clearGraphics.events)) + [G.Loaded]
    {
      CreateGraphics();
      clearGraphics.OnLoad();
      graphics.OnLoad();
    }

    /** Creates the missing proxies and rebuilds the content path. */
    method OnRestore()
      requires Valid()
      modifies this`graphics, this`clearGraphics, ContentProxy()`commands, scratch
      ensures Valid()
      ensures graphics != null && clearGraphics != null
      ensures old(graphics) != null ==> graphics == old(graphics)
      ensures old(clearGraphics) != null ==> clearGraphics == old(clearGraphics)
      ensures old(clearGraphics) == null ==>
                fresh(clearGraphics) && clearGraphics.commands == [] && clearGraphics.events == [] && NewClearProxy(clearGraphics)
      ensures old(graphics) == null ==>
                fresh(graphics) && graphics.events == [] && NewContentProxy(graphics)
      ensures graphics.commands == (if old(graphics) == null then [] else old(graphics.commands)) + Outline(maskType, node, segments, unit)
    {
      CreateGraphics();
      UpdateGraphics();
    }

    /** Enables and redraws both proxies, then listens for design-resolution changes. */
    method OnEnable(viewport: Size)
      requires Valid()
      modifies this`subscribed
      modifies ClearProxy()`events, ClearProxy()`commands, ClearProxy()`worldPosition
      modifies ContentProxy()`events, ContentProxy()`commands, scratch
      ensures Valid()
      ensures subscribed
      ensures clearGraphics != null ==>
                && clearGraphics.events == old(clearGraphics.events) + [G.Enabled]
                && clearGraphics.worldPosition == ViewportCenter(viewport)
                && clearGraphics.commands == old(clearGraphics.commands) + ClearOutline(viewport)
      ensures graphics != null ==>
                && graphics.events == old(graphics.events) + [G.Enabled]
                && graphics.commands == old(graphics.commands) + Outline(maskType, node, segments, unit)
    {
      EnableGraphics(viewport);
      subscribed := true;
    }

    /** Disables both proxies and stops listening for design-resolution changes. */
    method OnDisable()
      requires Valid()
      modifies this`subscribed, ContentProxy()`events, ClearProxy()`events
      ensures Valid()
      ensures !subscribed
      ensures graphics != null ==> graphics.events == old(graphics.events) + [G.Disabled]
      ensures clearGraphics != null ==>
                clearGraphics.events == old(clearGraphics.events) + [G.Disabled]
    {
      DisableGraphics();
      subscribed := false;
    }

    /**
     * `onDisable` as written: the handler is removed without naming the
     * target it was registered with, so under a bus that matches listeners
     * by handler and target nothing is removed and the mask stays subscribed.
     */
    method OnDisableAsWritten()
      requires Valid()
      modifies ContentProxy()`events, ClearProxy()`events
      ensures Valid()
      ensures subscribed == old(subscribed)
      ensures graphics != null ==> graphics.events == old(graphics.events) + [G.Disabled]
      ensures clearGraphics != null ==>
                clearGraphics.events == old(clearGraphics.events) + [G.Disabled]
    {
      DisableGraphics();
    }

    /**
     * Destroys both proxies. The fields are not cleared, so a destroyed mask
     * still reports the proxies as present, and a second call destroys them again.
     */
    method OnDestroy()
      requires Valid()
      modifies ContentProxy()`events, ClearProxy()`events
      ensures Valid()
      ensures graphics == old(graphics) && clearGraphics == old(clearGraphics)
      ensures forall b :: CanRender(b) == old(CanRender(b))
      ensures graphics != null ==> graphics.events == old(graphics.events) + [G.Destroyed]
      ensures clearGraphics != null ==>
                clearGraphics.events == old(clearGraphics.events) + [G.Destroyed]
    {
      RemoveGraphics();
    }

    /**
     * The node's size or anchor is changed by code outside the mask, with no
     * notification reaching it: the mask reads the new geometry the next
     * time it rebuilds or hit-tests, but does not react now.
     */
    method SetNodeGeometry(g: NodeGeometry)
      requires Valid()
      modifies this`node
      ensures Valid()
      ensures node == g
    {
      node := g;
    }

    /** The node's size or anchor changed and the mask is notified: record the new geometry and rebuild the content path. */
    method NodeStateChange(g: NodeGeometry)
      requires Valid()
      modifies this`node, ContentProxy()`commands, scratch
      ensures Valid()
      ensures node == g
      ensures graphics != null ==> graphics.commands == old(graphics.commands) + Outline(maskType, g, segments, unit)
    {
      node := g;
      UpdateGraphics();
    }

    /** The screen resolution changed: redraw the clear proxy for the new viewport. */
    method ResolutionChanged(viewport: Size)
      modifies ClearProxy()`commands, ClearProxy()`worldPosition
      ensures clearGraphics != null ==>
                && clearGraphics.worldPosition == ViewportCenter(viewport)
                && clearGraphics.commands == old(clearGraphics.commands) + ClearOutline(viewport)
    {
      UpdateClearGraphics(viewport);
    }

    /**
     * The view's design-resolution event: it reaches the mask only while
     * the mask is subscribed, that is, between `OnEnable` and `OnDisable`.
     */
    method DesignResolutionChanged(viewport: Size)
      modifies ClearProxy()`commands, ClearProxy()`worldPosition
      ensures !subscribed ==> unchanged(ClearProxy())
      ensures subscribed && clearGraphics != null ==>
                && clearGraphics.worldPosition == ViewportCenter(viewport)
                && clearGraphics.commands == old(clearGraphics.commands) + ClearOutline(viewport)
    {
      if subscribed {
        UpdateClearGraphics(viewport);
      }
    }

    // ---- Rendering ----

    /** The base render gate, further requiring both proxies. */
    function CanRender(baseGate: bool): (r: bool)
      reads this
      ensures r <==> baseGate && clearGraphics != null && graphics != null
    {
      if !baseGate then false else clearGraphics != null && graphics != null
    }

    /**
     * Adopts the assemblers the renderer resolves for this mask, discarding
     * the render data when the primary assembler changed and creating it
     * (with `material` bound) when absent and the assembler can.
     */
    method FlushAssembler(resolved: Option<Assembler>, resolvedPost: Option<Assembler>, material: nat)
      modifies this`assembler, this`postAssembler, this`renderData, this`dirty
      ensures assembler == resolved && postAssembler == resolvedPost
      ensures renderData == FlushedRenderData(old(assembler), old(renderData), resolved, material)
      ensures old(assembler) == resolved ==> (old(renderData).Some? ==> renderData == old(renderData))
      ensures dirty == (old(dirty) || (renderData.Some? && !(old(assembler) == resolved && old(renderData).Some?)))
    {
      if assembler != resolved {
        DestroyRenderData();
        assembler := resolved;
      }
      if postAssembler != resolvedPost {
        postAssembler := resolvedPost;
      }
      if renderData.None? {
        if assembler.Some? && assembler.value.createsData {
          renderData := Some(RenderData(assembler.value, material));
          dirty := true;
        }
      }
    }

    // ---- Hit testing ----

    /**
     * `isHit` on a point already in the node's local space: an inclusive
     * box test for RECT, a strict inside-the-ellipse test for ELLIPSE, and a
     * miss for GRAPHICS_STENCIL.
     */
    function IsHit(local: Point): (r: bool)
      reads this
      ensures var p, w, h := ToBoxSpace(local, node), node.width, node.height;
              && (maskType == RectMask ==> (r <==> 0.0 <= p.x <= w && 0.0 <= p.y <= h))
              && (maskType == EllipseMask && w != 0.0 && h != 0.0 ==>
                    (r <==> Sq((p.x - w / 2.0) / (w / 2.0)) + Sq((p.y - h / 2.0) / (h / 2.0)) < 1.0))
              && (maskType == EllipseMask && (w == 0.0 || h == 0.0) ==> !r)
              && (maskType == GraphicsStencilMask ==> !r)
    {
      var p := ToBoxSpace(local, node);
      if maskType == EllipseMask && node.width != 0.0 && node.height != 0.0 then
        InEllipseBoxIff(node.width, node.height, p);
        Hits(maskType, node, local)
      else
        Hits(maskType, node, local)
    }
  }

  /**
   * Load, enable and disable a mask with `OnDisable` as written, then fire a
   * design-resolution change: the disabled clear proxy is drawn again.
   */
  method DisabledMaskRedrawnAsWritten(node: NodeGeometry, unit: UnitCircle, viewport: Size) returns (m: MaskComponent)
    ensures m.clearGraphics != null
    ensures m.clearGraphics.events == [G.Loaded, G.Enabled, G.Disabled]
    ensures m.clearGraphics.commands == ClearOutline(viewport) + ClearOutline(viewport)
  {
    var buffer := new CirclePoints();
    m := new MaskComponent(node, buffer, unit);
    m.OnLoad();
    m.OnEnable(viewport);
    m.OnDisableAsWritten();
    m.DesignResolutionChanged(viewport);
  }

  /**
   * The same session with the handler removed on disable: the disabled
   * clear proxy keeps the one drawing it received while enabled.
   */
  method DisabledMaskIgnoresResolution(node: NodeGeometry, unit: UnitCircle, viewport: Size) returns (m: MaskComponent)
    ensures m.clearGraphics != null
    ensures m.clearGraphics.events == [G.Loaded, G.Enabled, G.Disabled]
    ensures m.clearGraphics.commands == ClearOutline(viewport)
  {
    var buffer := new CirclePoints();
    m := new MaskComponent(node, buffer, unit);
    m.OnLoad();
    m.OnEnable(viewport);
    m.OnDisable();
    m.DesignResolutionChanged(viewport);
  }
}
