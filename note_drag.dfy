/** The drag gesture of `hooks/useNoteDrag.ts`. The gesture library reports, per
    pointer event, the offset `from + movement`, where `from` is read once at the
    first event of a gesture and `movement` is the pointer travel since then. */
module NoteDrag {
  import opened Common
  import opened EditorFlags

  /** One callback of the gesture library. */
  datatype DragEvent = DragEvent(movement: Point, first: bool, last: bool)

  class DragHook {
    const flags: GestureRegistry
    /** The `scale` argument (the camera zoom). */
    var scale: real
    /** The `dragPos` ref. */
    var dragPos: Point
    /** The position shown while dragging (`setLocalPos`). */
    var localPos: Point
    /** The offset the gesture library started the current gesture from. */
    var from: Point
    /** The `onUpdate(id, { x, y })` calls, in order. */
    var commits: seq<Point>
    /** Where the note stood when the current gesture began. */
    ghost var start: Point

    /** `from` still describes the gesture's start position at the current scale. */
    ghost predicate Tracking()
      reads this
    {
      from == Mul(start, scale)
    }

    constructor (flags: GestureRegistry, x: real, y: real, scale: real)
      ensures this.flags == flags && this.scale == scale
      ensures dragPos == Point(x, y) && localPos == Point(x, y) && commits == []
    {
      this.flags := flags;
      this.scale := scale;
      dragPos := Point(x, y);
      localPos := Point(x, y);
      from := Point(0.0, 0.0);
      commits := [];
      start := Point(x, y);
    }

    /** The effect on `[x, y]`: new position props reset the ref and the shown position. */
    method PositionChanged(x: real, y: real)
      modifies this
      ensures dragPos == Point(x, y) && localPos == Point(x, y)
      ensures scale == old(scale) && from == old(from) && commits == old(commits) && start == old(start)
    {
      dragPos := Point(x, y);
      localPos := dragPos;
    }

    /** A re-render with a new camera zoom. */
    method ScaleChanged(s: real)
      modifies this
      ensures scale == s
      ensures dragPos == old(dragPos) && localPos == old(localPos) && from == old(from)
      ensures commits == old(commits) && start == old(start)
    {
      scale := s;
    }

    /** The drag handler: the note goes to `offset / scale`, i.e. to its start position
        plus the pointer travel divided by the zoom; the first event raises the drag
        flag and the last one commits the final position once and lowers the flag. */
    method OnDrag(e: DragEvent)
      requires scale != 0.0
      modifies this, flags
      ensures scale == old(scale)
      ensures from == (if e.first then Mul(old(dragPos), old(scale)) else old(from))
      ensures dragPos == Div(Add(from, e.movement), scale) && localPos == dragPos
      ensures e.first ==> start == old(dragPos) && Tracking()
      ensures !e.first ==> start == old(start) && (old(Tracking()) ==> Tracking())
      ensures Tracking() ==> dragPos == Add(start, Div(e.movement, scale))
      ensures commits == old(commits) + (if e.last then [dragPos] else [])
      ensures flags.dragging == (if e.last then false else if e.first then true else old(flags.dragging))
      ensures flags.resizing == old(flags.resizing) && flags.rotating == old(flags.rotating)
    {
      if e.first {
        from := Mul(dragPos, scale);
        start := dragPos;
      }
      var offset := Add(from, e.movement);
      var newX := offset.x / scale;
      var newY := offset.y / scale;
      dragPos := Point(newX, newY);
      localPos := dragPos;
      if e.first {
        flags.dragging := true;
      }
      if e.last {
        commits := commits + [dragPos];
        flags.dragging := false;
      }
    }
  }

  /** A whole gesture of two events: the note ends at its start plus the final travel
      over the zoom, exactly that position is committed once, and the flag is down. */
  method DragGesture(h: DragHook, m1: Point, m2: Point)
    requires h.scale != 0.0
    modifies h, h.flags
    ensures h.scale == old(h.scale)
    ensures h.dragPos == Add(old(h.dragPos), Div(m2, h.scale))
    ensures h.commits == old(h.commits) + [h.dragPos]
    ensures !h.flags.dragging
  {
    h.OnDrag(DragEvent(m1, true, false));
    assert h.flags.dragging;
    h.OnDrag(DragEvent(m2, false, true));
  }
}
