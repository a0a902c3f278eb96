/** The camera of `hooks/useCameraControls.ts` (repeated inline in `App.tsx`): pan by
    shift-drag, zoom by shift-wheel about the viewport centre, and the camera restored
    from the stored `{ pan, scale }` value. */
module Camera {
  import opened Common
  import opened Geometry

  /** The `cursorMode` state. */
  datatype CursorMode = Default | Panning | Scaling

  /** What reading and parsing the stored camera value gave: no value (or an empty
      one), a value `JSON.parse` rejects, or an object whose `pan` and `scale` keys may
      be missing. */
  datatype StoredCamera = Missing | Unparseable | Parsed(pan: Option<Point>, scale: Option<real>)

  /** The initial `pan`: the stored one when there is one, `{ x: 0, y: 0 }` otherwise. */
  function RestoredPan(stored: StoredCamera): (p: Point)
    ensures stored.Parsed? && stored.pan.Some? ==> p == stored.pan.value
    ensures !(stored.Parsed? && stored.pan.Some?) ==> p == Point(0.0, 0.0)
  {
    if stored.Parsed? then stored.pan.GetOr(Point(0.0, 0.0)) else Point(0.0, 0.0)
  }

  /** The initial `scale`: the stored one when there is one, `1` otherwise. */
  function RestoredScale(stored: StoredCamera): (s: real)
    ensures stored.Parsed? && stored.scale.Some? ==> s == stored.scale.value
    ensures !(stored.Parsed? && stored.scale.Some?) ==> s == 1.0
  {
    if stored.Parsed? then stored.scale.GetOr(1.0) else 1.0
  }

  /** The panning refs and the pan: `isPanning`, `(startX, startY)` and `pan`. */
  datatype PanState = PanState(pan: Point, panning: bool, start: Point)

  /** `handleMouseDown`: only a shift-press starts panning, remembering the pointer. */
  function MouseDownStep(s: PanState, shift: bool, client: Point): PanState {
    if shift then s.(panning := true, start := client) else s
  }

  /** `handleMouseMove`: while panning, the pan follows the pointer by the distance
      since the last event, and that event becomes the new start point. */
  function MouseMoveStep(s: PanState, client: Point): PanState {
    if s.panning then PanState(Add(s.pan, Sub(client, s.start)), true, client) else s
  }

  /** `handleMouseUp` */
  function MouseUpStep(s: PanState): PanState {
    s.(panning := false)
  }

  /** A run of mouse moves, in order. */
  function MouseMoves(s: PanState, moves: seq<Point>): PanState
    decreases |moves|
  {
    if moves == [] then s else MouseMoves(MouseMoveStep(s, moves[0]), moves[1..])
  }

  /** Over a run of moves the pan changes by the last pointer minus the pointer where
      the drag began: the per-step deltas telescope because the start point is reset
      after each step. */
  lemma {:induction false} PanFollowsPointer(s: PanState, moves: seq<Point>)
    requires s.panning && |moves| > 0
    ensures MouseMoves(s, moves)
         == PanState(Add(s.pan, Sub(moves[|moves| - 1], s.start)), true, moves[|moves| - 1])
    decreases |moves|
  {
    var s1 := MouseMoveStep(s, moves[0]);
    if |moves| > 1 {
      PanFollowsPointer(s1, moves[1..]);
    }
  }

  /** Mouse moves while not panning leave everything as it was. */
  lemma {:induction false} IdleMovesChangeNothing(s: PanState, moves: seq<Point>)
    requires !s.panning
    ensures MouseMoves(s, moves) == s
    decreases |moves|
  {
    if moves != [] {
      IdleMovesChangeNothing(s, moves[1..]);
    }
  }

  /** The camera state and its event handlers. */
  class CameraControls {
    var pan: Point
    var scale: real
    var cursorMode: CursorMode
    var isPanning: bool
    var startX: real
    var startY: real

    function PanView(): PanState
      reads this
    {
      PanState(pan, isPanning, Point(startX, startY))
    }

    /** The initial state, from the stored camera value. */
    constructor (stored: StoredCamera)
      ensures pan == RestoredPan(stored) && scale == RestoredScale(stored)
      ensures cursorMode == Default && !isPanning && startX == 0.0 && startY == 0.0
    {
      pan := RestoredPan(stored);
      scale := RestoredScale(stored);
      cursorMode := Default;
      isPanning := false;
      startX, startY := 0.0, 0.0;
    }

    method MouseDown(shift: bool, client: Point)
      modifies this
      ensures PanView() == MouseDownStep(old(PanView()), shift, client)
      ensures cursorMode == (if shift then Panning else old(cursorMode))
      ensures scale == old(scale)
    {
      if shift {
        isPanning := true;
        cursorMode := Panning;
        startX := client.x;
        startY := client.y;
      }
    }

    method MouseMove(client: Point)
      modifies this
      ensures PanView() == MouseMoveStep(old(PanView()), client)
      ensures cursorMode == old(cursorMode) && scale == old(scale)
    {
      if isPanning {
        var dx := client.x - startX;
        var dy := client.y - startY;
        pan := Point(pan.x + dx, pan.y + dy);
        startX := client.x;
        startY := client.y;
      }
    }

    method MouseUp()
      modifies this
      ensures PanView() == MouseUpStep(old(PanView()))
      ensures cursorMode == Default && scale == old(scale)
    {
      isPanning := false;
      cursorMode := Default;
    }

    /** `handleWheel`; `container` is the viewport size, absent when the container
        element is not mounted. */
    method Wheel(shift: bool, deltaY: real, container: Option<Size>)
      requires shift && container.Some? ==> scale != 0.0
      modifies this
      ensures !shift ==> pan == old(pan) && scale == old(scale) && cursorMode == old(cursorMode)
      ensures shift ==> cursorMode == Scaling
      ensures shift && container.Some? ==>
        Zoom(pan, scale) == WheelZoom(container.value, old(pan), old(scale), deltaY)
      ensures shift && container.Some? ==> MinScale <= scale <= MaxScale
      ensures shift && container.Some? ==>
        CanvasCenter(container.value, pan, scale) == CanvasCenter(container.value, old(pan), old(scale))
      ensures !(shift && container.Some?) ==> pan == old(pan) && scale == old(scale)
      ensures isPanning == old(isPanning) && startX == old(startX) && startY == old(startY)
    {
      if !shift {
        return;
      }
      cursorMode := Scaling;
      if container.None? {
        return;
      }
      var rect := container.value;
      var centerX := rect.width / 2.0;
      var centerY := rect.height / 2.0;
      var canvasX := (centerX - pan.x) / scale;
      var canvasY := (centerY - pan.y) / scale;
      var newScale := scale - deltaY * WheelSensitivity;
      newScale := Min(Max(newScale, MinScale), MaxScale);
      var newPanX := centerX - canvasX * newScale;
      var newPanY := centerY - canvasY * newScale;
      scale := newScale;
      pan := Point(newPanX, newPanY);
    }
  }
}
