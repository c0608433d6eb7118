# Mask component model

A Dafny model of the UI stencil-mask component of the Cocos Creator engine
(`MaskComponent`). A mask owns two vector-graphics proxies:

- a *clear* proxy on a node of its own, which draws a rectangle covering the
  whole viewport to reset the stencil;
- a *content* proxy on the mask's own node, which draws the mask shape.

The model covers:

- the two configuration properties, `type` (RECT, ELLIPSE or
  GRAPHICS_STENCIL) and `segments` (the ellipse tessellation count, clamped
  to [3, 10000]);
- the lifecycle hooks and how they create, enable, disable and destroy the
  proxies;
- the path each rebuild sends to the proxies, including the ellipse
  tessellation into the module-wide point buffer;
- the assembler flush that decides when render data is discarded or created;
- the hit classification of a point in the node's local space.

Modules:

| module | contents |
|---|---|
| `Geometry` | points, the node's content box, and the ellipse tessellation (`CirclePoints.Calculate`, the shared point buffer). Cosine and sine are an uninterpreted `UnitCircle` function. |
| `GraphicsProxy` | the graphics component as the mask sees it: a log of path commands, a log of lifecycle calls, and the properties the mask sets. |
| `MaskShape` | the mask type, the segment clamp, and the command lists of one content rebuild (`Outline`) and one clear rebuild (`ClearOutline`). |
| `HitTest` | the pure hit classification and its geometric meaning. |
| `RenderState` | assemblers, render data, and the specification of the flush. |
| `Mask` | the `MaskComponent` class (fields, setters, lifecycle, rebuilds, flush, hit test) and two sessions that exhibit the finding below. |

Some details of the model:

- Each proxy is a `class` whose methods append to its command or event log.
- The component is a `class` whose methods carry `modifies` frames naming
  exactly the fields and proxy logs they touch.
- A proxy field that may be null is framed through `ContentProxy()` or
  `ClearProxy()`, which are empty while there is no proxy.
- The drawing in effect on a proxy is the part of its log after the last
  `Clear`, computed by `SinceLastClear`.

## Model

| member | source | states |
|---|---|---|
| Geometry.CircleVertices | cocos/ui/components/mask-component.ts:47-56 | exactly `segments` vertices (none for a non-positive count); vertex `i` is the centre plus the radii scaled by the unit-circle point at `i/segments` of a turn |
| Geometry.VertexOnEllipse | cocos/ui/components/mask-component.ts:51-52 | with an exact cosine and sine, every tessellated vertex lies on the ellipse: `((x-cx)/rx)² + ((y-cy)/ry)² = 1` |
| Geometry.CirclePoints.constructor | cocos/ui/components/mask-component.ts:46 | the shared point buffer starts empty |
| Geometry.CirclePoints.Calculate | cocos/ui/components/mask-component.ts:47-56 | the buffer is emptied and refilled with exactly the `segments` vertices in step order, and its contents are returned |
| GraphicsProxy.SinceLastClear | cocos/ui/components/mask-component.ts:429 | the drawing in effect is the suffix of the command log after its last `clear`, and holds no `clear` |
| GraphicsProxy.SinceLastClearAfterClear | cocos/ui/components/mask-component.ts:429-454 | after a `clear` followed by drawing without `clear`, exactly that drawing is in effect, whatever came before |
| GraphicsProxy.Graphics.constructor | cocos/ui/components/mask-component.ts:387-388 | a new graphics component has received no commands and no lifecycle calls, has no instanced material and is neither delegated nor on the mask's node |
| GraphicsProxy.Graphics.ClearPath | cocos/ui/components/mask-component.ts:416 | `clear` is appended to the command log |
| GraphicsProxy.Graphics.AddRect | cocos/ui/components/mask-component.ts:417 | `rect(x, y, w, h)` is appended to the command log |
| GraphicsProxy.Graphics.AddMoveTo | cocos/ui/components/mask-component.ts:446 | `moveTo(p)` is appended to the command log |
| GraphicsProxy.Graphics.AddLineTo | cocos/ui/components/mask-component.ts:448 | `lineTo(p)` is appended to the command log |
| GraphicsProxy.Graphics.ClosePath | cocos/ui/components/mask-component.ts:451 | `close` is appended to the command log |
| GraphicsProxy.Graphics.FillPath | cocos/ui/components/mask-component.ts:454 | `fill` is appended to the command log |
| GraphicsProxy.Graphics.OnLoad | cocos/ui/components/mask-component.ts:261 | an `onLoad` call is appended to the event log |
| GraphicsProxy.Graphics.OnEnable | cocos/ui/components/mask-component.ts:459 | an `onEnable` call is appended to the event log |
| GraphicsProxy.Graphics.OnDisable | cocos/ui/components/mask-component.ts:471 | an `onDisable` call is appended to the event log |
| GraphicsProxy.Graphics.Destroy | cocos/ui/components/mask-component.ts:481 | a `destroy` call is appended to the event log |
| GraphicsProxy.Graphics.SetWorldPosition | cocos/ui/components/mask-component.ts:415 | the proxy's node is at the given world position |
| MaskShape.Clamp | cocos/ui/components/mask-component.ts:172 | the result lies in [lo, hi], equals the input when the input is in range, and is the point of the range nearest the input |
| MaskShape.ClampIdempotent | cocos/ui/components/mask-component.ts:172 | clamping a clamped count changes nothing |
| MaskShape.OutOfRangeSegmentsAlwaysStoreABound | cocos/ui/components/mask-component.ts:82-83 | an out-of-range input never equals the stored count, so it always rebuilds, and what gets stored is the nearer of 3 and 10000 |
| MaskShape.LineTosAt | cocos/ui/components/mask-component.ts:443-450 | one `lineTo` per point, in order |
| MaskShape.LineTosAppend | cocos/ui/components/mask-component.ts:443-450 | one more point adds one `lineTo` at the end |
| MaskShape.PolygonPathShape | cocos/ui/components/mask-component.ts:443-451 | `n` vertices give `moveTo` to the first, `lineTo` to each of the other `n-1` in order, then `close` |
| MaskShape.ShapePathHasNoClear | cocos/ui/components/mask-component.ts:436-452 | the drawing between a rebuild's `clear` and `fill` holds no `clear` |
| MaskShape.OutlineShape | cocos/ui/components/mask-component.ts:421-455 | a rebuild starts with `clear` and ends with `fill`. Between them, RECT has exactly `rect(-w·ax, -h·ay, w, h)`; ELLIPSE has one `moveTo`, `segments-1` `lineTo`s and `close`, `segments+3` commands in all; GRAPHICS_STENCIL has nothing |
| MaskShape.RebuildReplacesDrawing | cocos/ui/components/mask-component.ts:429-454 | after any number of earlier rebuilds, the drawing in effect is exactly this rebuild's shape and `fill` |
| MaskShape.ClearRectCoversViewport | cocos/ui/components/mask-component.ts:414-418 | the clear rectangle, drawn relative to a node placed at the viewport centre, spans exactly [0, width] × [0, height] |
| HitTest.QuotientSquared | cocos/ui/components/mask-component.ts:325 | `a·a/r/r` is the square of `a/r` |
| HitTest.EllipseFormula | cocos/ui/components/mask-component.ts:325 | the ellipse sum `px²/rx² + py²/ry²` equals `(px/rx)² + (py/ry)²` |
| HitTest.InEllipseBoxIff | cocos/ui/components/mask-component.ts:320-326 | for a nonzero box, the ellipse test holds iff the scaled offset from the box centre has squared length below 1 |
| HitTest.RectHitsDrawnRect | cocos/ui/components/mask-component.ts:317-319 | a RECT mask hits exactly the points of the rectangle its rebuild draws, edges included |
| HitTest.EllipseHitsInsideDrawnEllipse | cocos/ui/components/mask-component.ts:320-326 | an ELLIPSE mask of nonzero size hits exactly the points strictly inside the ellipse its tessellation uses |
| HitTest.DegenerateEllipseNeverHits | cocos/ui/components/mask-component.ts:320-326 | an ELLIPSE mask of zero width or height never hits |
| HitTest.StencilNeverHits | cocos/ui/components/mask-component.ts:316-330 | a GRAPHICS_STENCIL mask never hits |
| HitTest.RectCornersHit | cocos/ui/components/mask-component.ts:318 | the box test is inclusive: all four corners of the content box hit |
| HitTest.EllipseCenterHits | cocos/ui/components/mask-component.ts:320-326 | the centre of a nonzero ELLIPSE mask hits |
| HitTest.OutlineVerticesMiss | cocos/ui/components/mask-component.ts:325 | the ellipse test is strict: every vertex of the drawn outline misses |
| RenderState.FlushedRenderData | cocos/ui/components/mask-component.ts:363-383 | existing data is kept when the primary assembler is unchanged. Any data not carried over, whether after an assembler change or created lazily under an unchanged one, is new data from the resolved assembler with the given material. Data is present iff the resolved assembler can create it or old data was kept |
| RenderState.FlushIdempotent | cocos/ui/components/mask-component.ts:363-383 | a second flush that resolves the same assemblers changes nothing |
| RenderState.FlushKeepsDataWithItsAssembler | cocos/ui/components/mask-component.ts:363-383 | if the data belonged to the current assembler before a flush, any data after it belongs to the resolved one |
| Mask.MaskComponent.constructor | cocos/ui/components/mask-component.ts:238-251 | a new mask is RECT with 64 segments, has no proxies, assemblers or render data, and is not subscribed |
| Mask.MaskComponent.SetType | cocos/ui/components/mask-component.ts:107-118 | assigning the current type changes nothing. Assigning another type stores it, appends one full rebuild for the new type to the content proxy, and leaves no render data |
| Mask.MaskComponent.SetSegments | cocos/ui/components/mask-component.ts:167-174 | the stored count stays in [3, 10000]; render data is never touched. An input equal to the stored count changes nothing. Any other input, even one that clamps to the stored count, stores its clamp and appends a rebuild |
| Mask.MaskComponent.DestroyRenderData | cocos/ui/components/mask-component.ts:115 | afterwards the mask has no render data |
| Mask.MaskComponent.CreateGraphics | cocos/ui/components/mask-component.ts:385-407 | both proxies exist afterwards. An existing proxy is kept. A missing clear proxy is created fresh, delegated to the mask's node. A missing content proxy is created fresh, on the mask's node. New proxies are instanced with line width 0 and alpha 0. The mask can render whenever the base gate allows |
| Mask.MaskComponent.UpdateGraphics | cocos/ui/components/mask-component.ts:421-455 | with a content proxy, exactly one rebuild (`Outline`) for the current type, geometry and segment count is appended, and for ELLIPSE the shared buffer holds the vertices. Without one, nothing changes |
| Mask.MaskComponent.TraceEllipse | cocos/ui/components/mask-component.ts:438-452 | the ELLIPSE branch appends the polygon over the tessellated vertices and leaves them in the shared buffer |
| Mask.MaskComponent.TracePolygon | cocos/ui/components/mask-component.ts:443-451 | the vertex loop appends `moveTo` for the first point, `lineTo` for each other point, then `close` |
| Mask.MaskComponent.UpdateClearGraphics | cocos/ui/components/mask-component.ts:409-419 | with a clear proxy, its node is moved to the viewport centre and a `clear`, a viewport-sized rectangle centred on the node, and a `fill` are appended. Without one, nothing changes |
| Mask.MaskComponent.EnableGraphics | cocos/ui/components/mask-component.ts:457-467 | each existing proxy receives `onEnable` and one rebuild of its own kind |
| Mask.MaskComponent.DisableGraphics | cocos/ui/components/mask-component.ts:469-477 | each existing proxy receives `onDisable` |
| Mask.MaskComponent.RemoveGraphics | cocos/ui/components/mask-component.ts:479-487 | each existing proxy receives `destroy`; the fields are left as they were |
| Mask.MaskComponent.OnLoad | cocos/ui/components/mask-component.ts:258-267 | both proxies exist and existing ones are kept. A proxy created here is fresh, with no commands and the settings `_createGraphics` gives it. Each proxy has received `onLoad` after its earlier calls |
| Mask.MaskComponent.OnRestore | cocos/ui/components/mask-component.ts:273-276 | both proxies exist and existing ones are kept. A proxy created here is fresh, with no lifecycle calls and the settings `_createGraphics` gives it; a new clear proxy has no commands. The content proxy has received one rebuild after its earlier commands |
| Mask.MaskComponent.OnEnable | cocos/ui/components/mask-component.ts:278-283 | the proxies are enabled and redrawn as in `EnableGraphics`, and the mask is subscribed to design-resolution changes |
| Mask.MaskComponent.OnDisable | cocos/ui/components/mask-component.ts:285-289 | each existing proxy receives `onDisable`, and the mask is unsubscribed (the corrected behaviour, see Findings) |
| Mask.MaskComponent.OnDisableAsWritten | cocos/ui/components/mask-component.ts:285-289 | each existing proxy receives `onDisable`, and the subscription is left as it was, because the handler is removed without its target |
| Mask.DisabledMaskRedrawnAsWritten | cocos/ui/components/mask-component.ts:282-288 | after load, enable, disable as written and a design-resolution change, the disabled clear proxy has received a second viewport drawing |
| Mask.DisabledMaskIgnoresResolution | cocos/ui/components/mask-component.ts:282-288 | in the same session with the corrected `OnDisable`, the clear proxy keeps only the drawing it received while enabled |
| Mask.MaskComponent.OnDestroy | cocos/ui/components/mask-component.ts:291-294 | each existing proxy receives `destroy`, the proxy fields are unchanged, and so is the answer of `CanRender`; a second call sends `destroy` again |
| Mask.MaskComponent.SetNodeGeometry | cocos/ui/components/mask-component.ts:304-306 | the node's geometry changes without the mask reacting; later rebuilds and hit tests read the new geometry |
| Mask.MaskComponent.NodeStateChange | cocos/ui/components/mask-component.ts:345-349 | the new geometry is recorded, and a rebuild for it is appended to the content proxy |
| Mask.MaskComponent.ResolutionChanged | cocos/ui/components/mask-component.ts:351-353 | the clear proxy is redrawn for the new viewport |
| Mask.MaskComponent.DesignResolutionChanged | cocos/ui/components/mask-component.ts:282-288 | the event redraws the clear proxy only while the mask is subscribed; otherwise nothing changes |
| Mask.MaskComponent.CanRender | cocos/ui/components/mask-component.ts:355-361 | the mask can render iff the base gate passes and both proxies are present |
| Mask.MaskComponent.FlushAssembler | cocos/ui/components/mask-component.ts:363-383 | both assembler fields become the resolved ones, and the render data becomes `FlushedRenderData` of the old state. A change of post assembler alone keeps existing data. The data is marked for update exactly when new data is created |
| Mask.MaskComponent.IsHit | cocos/ui/components/mask-component.ts:302-331 | with the local point shifted by (ax·w, ay·h): RECT hits iff `0 ≤ x ≤ w ∧ 0 ≤ y ≤ h`; a nonzero ELLIPSE hits iff `((x-w/2)/(w/2))² + ((y-h/2)/(h/2))² < 1`; a zero-size ELLIPSE and GRAPHICS_STENCIL never hit |

## Left out

- The world-matrix inversion in `isHit` is not modelled. `IsHit` takes a
  point already in the node's local space.
- Cosine and sine are not modelled. `UnitCircle` is uninterpreted. Only the
  vertex count and order, and (under `OnUnitCircle`) that vertices lie on the
  ellipse, are stated.
- Floating point is not modelled: all coordinates are `real`. The ellipse
  test is written `px*px/rx/rx`, which over the reals equals the engine's
  `px*px/(rx*rx)`.
- Division by a zero radius is written as an explicit `false`. In the engine
  it produces Infinity or NaN, which makes the comparison false as well.
- `segments` is an integer. Non-integer numbers assigned to it are not
  modelled.
- The base class is not part of this model. That covers its `onEnable`,
  `onDisable`, `onDestroy`, `_nodeStateChange` and `_canRender`. `CanRender`
  takes the base gate as a parameter.
- `destroyRenderData` belongs to the base class. It is modelled as
  "afterwards there is no render data" (`DestroyRenderData`). Both `SetType`
  and `FlushAssembler` rely on that assumption.
- The graphics component's internals are not modelled: path building,
  rasterisation, `helpInstanceMaterial`, and what its lifecycle calls do.
  Each proxy only records the calls it receives.
- The relative order of calls across the two proxies is not recorded, because
  each proxy keeps its own log. For example, `DisableGraphics` disabling the
  content proxy before the clear proxy is not visible.
- The order between lifecycle calls and path commands on the same proxy is
  not recorded either, because each proxy keeps them in two separate logs
  (`events` and `commands`). For example, `EnableGraphics` sending `onEnable`
  before the redraw is not visible. Nor is it visible that `OnRestore` can
  draw on a proxy that has never received `onLoad`.
- The view event bus and `visibleRect` are not modelled. The subscription is
  the boolean `subscribed`, the viewport size is a parameter, and the bus
  delivering an event is `DesignResolutionChanged`.
- The bus is assumed to match listeners by handler and target, as Cocos's
  callback invoker does, and not to register the same handler and target
  twice. The bus code is not part of this model. Under that assumption the
  removal in `onDisable`, which names no target, removes nothing (see
  Findings).
- The node's content size and anchor are the field `node`, which stands for
  what the source reads from the node on every call. A change reaches the
  model in one of two ways. `NodeStateChange` is the notified change, which
  rebuilds. `SetNodeGeometry` is a change the mask is not told about, which
  only affects later rebuilds and hit tests.
- A deserialized `_segments` is assumed to lie in [3, 10000] (`Valid`). The
  setter keeps it there, but a scene load writes the field directly without
  clamping.
- `_render` and `_postRender` are not modelled. They only hand the mask to the
  renderer's `commitComp`, which is not part of this model.
- The assembler resolution service is not modelled. The resolved assemblers
  and the shared material are parameters of `FlushAssembler`.
- The `srcBlendFactor`, `dstBlendFactor` and `color` overrides are not
  modelled. They forward to base-class state that is not part of this model.
- The commented-out `alphaThreshold` and `inverted` features are not modelled.
- Decorators, enum registration and the global class registration are not
  modelled.
- Double destroy is not modelled as safe. `_removeGraphics` does not clear the
  proxy fields, so a second `onDestroy` destroys the same proxies again.
  `OnDestroy` states exactly that, and nothing is claimed about whether that
  second destroy is safe. A double destroy being a tolerated no-op would need
  the fields to be cleared, which the code does not do.
- Dirty-marking inside the outline rebuild is not modelled. Among the
  modelled operations, only `_flushAssembler` marks render data dirty
  (`dirty`); `_updateGraphics` does not. The `color` setter, which also marks
  it, is not part of this model.

## Findings

| source | as written | input that shows it | evidently intended | confidence | as-written member | corrected member |
|---|---|---|---|---|---|---|
| cocos/ui/components/mask-component.ts:282-288 | `onEnable` registers the design-resolution handler with the mask as its target, but `onDisable` removes it without a target. If the bus matches listeners by handler and target, nothing is removed. | `onLoad`, `onEnable`, `onDisable`, then a design-resolution change: the disabled mask's clear proxy is drawn again | `onDisable` removes the handler it registered, so a disabled mask ignores resolution changes | medium, not executed; depends on the bus's matching rule, whose code is not part of this model | Mask.DisabledMaskRedrawnAsWritten | Mask.DisabledMaskIgnoresResolution |
