// The vector-graphics component the mask drives, reduced to what the mask
// can observe of it: the path commands it has been sent, the lifecycle
// calls it has received, and the few properties the mask sets. Path
// building and rasterisation inside the component are not modelled.
module GraphicsProxy {
  import opened Geometry

  /** One call of the graphics component's path API. */
  datatype PathCommand =
    | Clear
    | MoveTo(to: Point)
    | LineTo(to: Point)
    | Rect(x: real, y: real, w: real, h: real)
    | Close
    | Fill

  /** One lifecycle call forwarded to the graphics component. */
  datatype ProxyEvent = Loaded | Enabled | Disabled | Destroyed

  /**
   * The drawing in effect after a command log: everything sent since the
   * last `Clear` (the whole log when there was none).
   */
  function SinceLastClear(log: seq<PathCommand>): (r: seq<PathCommand>)
    ensures Clear !in r
    ensures |r| <= |log| && r == log[|log| - |r|..]
    ensures |r| < |log| ==> log[|log| - |r| - 1] == Clear
  {
    if |log| == 0 then []
    else if log[|log| - 1] == Clear then []
    else SinceLastClear(log[..|log| - 1]) + [log[|log| - 1]]
  }

  /** A `Clear` followed by drawing free of `Clear` leaves exactly that drawing in effect. */
  lemma {:induction false} SinceLastClearAfterClear(log: seq<PathCommand>, drawing: seq<PathCommand>)
    requires Clear !in drawing
    ensures SinceLastClear(log + [Clear] + drawing) == drawing
  {
    var all := log + [Clear] + drawing;
    if drawing != [] {
      var n := |drawing|;
      assert all[|all| - 1] == drawing[n - 1] != Clear;
      assert all[..|all| - 1] == log + [Clear] + drawing[..n - 1];
      SinceLastClearAfterClear(log, drawing[..n - 1]);
      assert drawing == drawing[..n - 1] + [drawing[n - 1]];
    }
  }

  class Graphics {
    /** Every path command received, oldest first. */
    var commands: seq<PathCommand>
    /** Every lifecycle call received, oldest first. */
    var events: seq<ProxyEvent>
    var lineWidth: real
    /** Alpha channel (0..255) of the fill colour. */
    var fillAlpha: int
    /** Set by `helpInstanceMaterial`: the proxy renders with an instanced material. */
    var instanceMaterial: bool
    /** The proxy sits on the mask's own node instead of a node of its own. */
    var onMaskNode: bool
    /** `delegateSrc` points at the mask's node: its draws go through the mask's commit. */
    var delegated: bool
    /** World position of the proxy's node. */
    var worldPosition: Point

    /** A fresh component: no commands, no events; the other settings start at the graphics component's defaults. */
    constructor ()
      ensures commands == [] && events == []
      ensures !instanceMaterial && !onMaskNode && !delegated
    {
      commands := [];
      events := [];
      lineWidth := 1.0;
      fillAlpha := 255;
      instanceMaterial := false;
      onMaskNode := false;
      delegated := false;
      worldPosition := Point(0.0, 0.0);
    }

    method ClearPath()
      modifies this`commands
      ensures commands == old(commands) + [Clear]
    {
      commands := commands + [Clear];
    }

    method AddRect(x: real, y: real, w: real, h: real)
      modifies this`commands
      ensures commands == old(commands) + [Rect(x, y, w, h)]
    {
      commands := commands + [Rect(x, y, w, h)];
    }

    method AddMoveTo(p: Point)
      modifies this`commands
      ensures commands == old(commands) + [MoveTo(p)]
    {
      commands := commands + [MoveTo(p)];
    }

    method AddLineTo(p: Point)
      modifies this`commands
      ensures commands == old(commands) + [LineTo(p)]
    {
      commands := commands + [LineTo(p)];
    }

    method ClosePath()
      modifies this`commands
      ensures commands == old(commands) + [Close]
    {
      commands := commands + [Close];
    }

    method FillPath()
      modifies this`commands
      ensures commands == old(commands) + [Fill]
    {
      commands := commands + [Fill];
    }

    method OnLoad()
      modifies this`events
      ensures events == old(events) + [Loaded]
    {
      events := events + [Loaded];
    }

    method OnEnable()
      modifies this`events
      ensures events == old(events) + [Enabled]
    {
      events := events + [Enabled];
    }

    method OnDisable()
      modifies this`events
      ensures events == old(events) + [Disabled]
    {
      events := events + [Disabled];
    }

    method Destroy()
      modifies this`events
      ensures events == old(events) + [Destroyed]
    {
      events := events + [Destroyed];
    }

    method SetWorldPosition(p: Point)
      modifies this`worldPosition
      ensures worldPosition == p
    {
      worldPosition := p;
    }
  }
}
