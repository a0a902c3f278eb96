/** Screen/canvas coordinate arithmetic of `utils/canvasUtils.ts` and of the wheel
    zoom and `getCenterPosition` in `hooks/useCameraControls.ts`. The canvas is drawn
    as `translate(pan) scale(scale)` from the top-left corner, so a canvas point `c`
    appears on screen at `c * scale + pan`. */
module Geometry {
  import opened Common

  /** Where canvas point `c` appears on screen. */
  function ToScreen(c: Point, pan: Point, scale: real): Point {
    Add(Mul(c, scale), pan)
  }

  /** `getCanvasCenter`: the canvas point under the centre of a `container` viewport. */
  function CanvasCenter(container: Size, pan: Point, scale: real): (c: Point)
    requires scale != 0.0
    ensures ToScreen(c, pan, scale) == Point(container.width / 2.0, container.height / 2.0)
  {
    Point((container.width / 2.0 - pan.x) / scale, (container.height / 2.0 - pan.y) / scale)
  }

  /** With no pan and no zoom the canvas centre is the viewport centre. */
  lemma CanvasCenterIdentity(container: Size)
    ensures CanvasCenter(container, Point(0.0, 0.0), 1.0) == Point(container.width / 2.0, container.height / 2.0)
  {
  }

  /** Panning right by `d` screen pixels moves the centre `d / scale` canvas units to
      the left and leaves its other coordinate alone. */
  lemma CanvasCenterPanShift(container: Size, pan: Point, scale: real, d: real)
    requires scale != 0.0
    ensures CanvasCenter(container, Point(pan.x + d, pan.y), scale).x == CanvasCenter(container, pan, scale).x - d / scale
    ensures CanvasCenter(container, Point(pan.x + d, pan.y), scale).y == CanvasCenter(container, pan, scale).y
  {
  }

  const MinScale := 0.5
  const MaxScale := 2.0
  const WheelSensitivity := 0.001

  /** `Math.min(Math.max(s, 0.5), 2)` */
  function ClampScale(s: real): (r: real)
    ensures MinScale <= r <= MaxScale
    ensures MinScale <= s <= MaxScale ==> r == s
    ensures s < MinScale ==> r == MinScale
    ensures s > MaxScale ==> r == MaxScale
  {
    Min(Max(s, MinScale), MaxScale)
  }

  /** One shift-wheel step on a viewport of size `container`: the new scale and the
      new pan that keeps the canvas point under the viewport centre in place. */
  datatype Zoom = Zoom(pan: Point, scale: real)

  function WheelZoom(container: Size, pan: Point, scale: real, deltaY: real): (z: Zoom)
    requires scale != 0.0
    ensures MinScale <= z.scale <= MaxScale
    ensures CanvasCenter(container, z.pan, z.scale) == CanvasCenter(container, pan, scale)
  {
    var center := Point(container.width / 2.0, container.height / 2.0);
    var canvas := CanvasCenter(container, pan, scale);
    var newScale := ClampScale(scale - deltaY * WheelSensitivity);
    Zoom(Sub(center, Mul(canvas, newScale)), newScale)
  }

  /** The zoom is anchored: the screen centre shows the same canvas point before and
      after the step, and the step is undone by the opposite step while both scales
      stay inside the clamp range. */
  lemma WheelZoomAnchored(container: Size, pan: Point, scale: real, deltaY: real)
    requires MinScale <= scale <= MaxScale
    requires MinScale <= scale - deltaY * WheelSensitivity <= MaxScale
    ensures var z := WheelZoom(container, pan, scale, deltaY);
      && ToScreen(CanvasCenter(container, pan, scale), z.pan, z.scale) == Point(container.width / 2.0, container.height / 2.0)
      && WheelZoom(container, z.pan, z.scale, -deltaY) == Zoom(pan, scale)
  {
  }

  /** `getCenterPosition`: no container gives no position; otherwise the canvas centre
      moved by `(r - 1) * 40` on each axis, where `rx`, `ry` are the two `Math.random()`
      draws. */
  function CenterPosition(container: Option<Size>, pan: Point, scale: real, rx: real, ry: real): (p: Option<Point>)
    requires 0.0 <= rx < 1.0 && 0.0 <= ry < 1.0
    requires container.Some? ==> scale != 0.0
    ensures p.None? <==> container.None?
    ensures p.Some? ==>
      var c := CanvasCenter(container.value, pan, scale);
      && c.x - 40.0 <= p.value.x < c.x
      && c.y - 40.0 <= p.value.y < c.y
  {
    match container
    case None => None
    case Some(box) =>
      var c := CanvasCenter(box, pan, scale);
      Some(Point(c.x + (rx - 1.0) * 40.0, c.y + (ry - 1.0) * 40.0))
  }
}
