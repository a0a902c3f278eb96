/** The note widget of `components/Note.tsx`. Its three gestures attach document
    listeners on press and remove them on release; `gesture` stands for the attached
    listeners together with what their closures captured at the press. Pointer
    positions are page coordinates; `angle` is the direction, in degrees, from the
    centre the rotate press measured to the pointer (the source's `atan2`). */
module NoteComponent {
  import opened Common
  import opened NoteRecords

  datatype Gesture =
    | Idle
    | Dragging(offset: Point)
    | Resizing(start: Point, startSize: Size)
    | Rotating(initialAngle: real, startRotation: real)

  /** Everything the widget changes, in one value. */
  datatype WidgetState = WidgetState(
    decorMode: bool,
    lockDecor: bool,
    dragPos: Point,
    resizeRef: Size,
    rotateRef: real,
    localPos: Point,
    localSize: Size,
    localRotation: real,
    gesture: Gesture,
    updates: seq<Patch>)

  /** Where a drag puts the note: its start plus the pointer travel. */
  function Dragged(startPos: Point, startPointer: Point, pointer: Point): (p: Point)
    ensures Sub(p, startPos) == Sub(pointer, startPointer)
    ensures pointer == startPointer ==> p == startPos
  {
    Add(startPos, Sub(pointer, startPointer))
  }

  class NoteWidget {
    const id: string
    /** Props. */
    var decorMode: bool
    var lockDecor: bool
    /** The `dragPos`, `resizeRef` and `rotateRef` refs. */
    var dragPos: Point
    var resizeRef: Size
    var rotateRef: real
    /** The `localPos`, `localSize` and `localRotation` state the note is drawn with. */
    var localPos: Point
    var localSize: Size
    var localRotation: real
    var gesture: Gesture
    /** The `onUpdate(id, ...)` calls, in order. */
    var updates: seq<Patch>

    function State(): WidgetState
      reads this
    {
      WidgetState(decorMode, lockDecor, dragPos, resizeRef, rotateRef, localPos, localSize, localRotation, gesture, updates)
    }

    /** The first render: refs and local state start from the props. */
    constructor (id: string, x: real, y: real, width: real, height: real, rotation: real, decorMode: bool, lockDecor: bool)
      ensures this.id == id
      ensures State() == WidgetState(decorMode, lockDecor, Point(x, y), Size(width, height), rotation,
                                     Point(x, y), Size(width, height), rotation, Idle, [])
    {
      this.id := id;
      this.decorMode, this.lockDecor := decorMode, lockDecor;
      dragPos, localPos := Point(x, y), Point(x, y);
      resizeRef, localSize := Size(width, height), Size(width, height);
      rotateRef, localRotation := rotation, rotation;
      gesture := Idle;
      updates := [];
    }

    /** The effect on `[x, y]`. */
    method PositionChanged(x: real, y: real)
      modifies this
      ensures State() == old(State()).(dragPos := Point(x, y), localPos := Point(x, y))
    {
      dragPos := Point(x, y);
      localPos := Point(x, y);
    }

    /** The effect on `[width, height]`. */
    method SizeChanged(width: real, height: real)
      modifies this
      ensures State() == old(State()).(resizeRef := Size(width, height), localSize := Size(width, height))
    {
      resizeRef := Size(width, height);
      localSize := Size(width, height);
    }

    /** The effect on `[rotation]`. */
    method RotationChanged(rotation: real)
      modifies this
      ensures State() == old(State()).(rotateRef := rotation, localRotation := rotation)
    {
      rotateRef := rotation;
      localRotation := rotation;
    }

    /** A re-render with new `decorMode` and `lockDecor` props. */
    method DecorPropsChanged(decorMode: bool, lockDecor: bool)
      modifies this
      ensures State() == old(State()).(decorMode := decorMode, lockDecor := lockDecor)
    {
      this.decorMode, this.lockDecor := decorMode, lockDecor;
    }

    /** `handleDragStart`: remembers the pointer's offset from the note. */
    method DragStart(pointer: Point)
      requires gesture.Idle?
      modifies this
      ensures State() == old(State()).(gesture := Dragging(Sub(pointer, dragPos)))
    {
      var offsetX := pointer.x - dragPos.x;
      var offsetY := pointer.y - dragPos.y;
      gesture := Dragging(Point(offsetX, offsetY));
    }

    /** `handleResizeStart`: remembers the pointer and the size shown. */
    method ResizeStart(pointer: Point)
      requires gesture.Idle?
      modifies this
      ensures State() == old(State()).(gesture := Resizing(pointer, localSize))
    {
      gesture := Resizing(pointer, localSize);
    }

    /** `handleRotateStart`; `angle` is `None` when the note has no bounding box, and
        then nothing is attached. */
    method RotateStart(angle: Option<real>)
      requires gesture.Idle?
      modifies this
      ensures angle.None? ==> State() == old(State())
      ensures angle.Some? ==> State() == old(State()).(gesture := Rotating(angle.value, localRotation))
    {
      if angle.None? {
        return;
      }
      gesture := Rotating(angle.value, localRotation);
    }

    /** A `mousemove`/`touchmove` on the document, handled by whichever move listener
        is attached: the ref and the shown value follow the pointer. */
    method PointerMove(pointer: Point, angle: real)
      modifies this
      ensures old(gesture).Idle? ==> State() == old(State())
      ensures old(gesture).Dragging? ==>
        var p := Sub(pointer, old(gesture).offset);
        State() == old(State()).(dragPos := p, localPos := p)
      ensures old(gesture).Resizing? ==>
        var g := old(gesture);
        var s := Size(g.startSize.width + (pointer.x - g.start.x), g.startSize.height + (pointer.y - g.start.y));
        State() == old(State()).(resizeRef := s, localSize := s)
      ensures old(gesture).Rotating? ==>
        var r := old(gesture).startRotation + (angle - old(gesture).initialAngle);
        State() == old(State()).(rotateRef := r, localRotation := r)
    {
      match gesture
      case Idle =>
      case Dragging(offset) =>
        dragPos := Point(pointer.x - offset.x, pointer.y - offset.y);
        localPos := dragPos;
      case Resizing(start, startSize) =>
        resizeRef := Size(startSize.width + (pointer.x - start.x), startSize.height + (pointer.y - start.y));
        localSize := resizeRef;
      case Rotating(initialAngle, startRotation) =>
        var angleDiff := angle - initialAngle;
        rotateRef := startRotation + angleDiff;
        localRotation := rotateRef;
    }

    /** A `mouseup`/`touchend`: the attached end listener commits its ref once and
        removes the listeners. */
    method PointerUp()
      modifies this
      ensures old(gesture).Idle? ==> State() == old(State())
      ensures old(gesture).Dragging? ==>
        State() == old(State()).(gesture := Idle, updates := old(updates) + [PositionPatch(dragPos)])
      ensures old(gesture).Resizing? ==>
        State() == old(State()).(gesture := Idle, updates := old(updates) + [SizePatch(resizeRef)])
      ensures old(gesture).Rotating? ==>
        State() == old(State()).(gesture := Idle, updates := old(updates) + [RotationPatch(rotateRef)])
    {
      match gesture
      case Idle =>
      case Dragging(_) =>
        updates := updates + [PositionPatch(dragPos)];
        gesture := Idle;
      case Resizing(_, _) =>
        updates := updates + [SizePatch(resizeRef)];
        gesture := Idle;
      case Rotating(_, _) =>
        updates := updates + [RotationPatch(rotateRef)];
        gesture := Idle;
    }

    /** Double-click on the rotate handle: back to no rotation, committed at once. */
    method ResetRotation()
      modifies this
      ensures State() == old(State()).(rotateRef := 0.0, localRotation := 0.0,
                                       updates := old(updates) + [RotationPatch(0.0)])
    {
      rotateRef := 0.0;
      localRotation := 0.0;
      updates := updates + [RotationPatch(0.0)];
    }

    /** The decorate button. */
    method Decorate()
      modifies this
      ensures State() == old(State()).(updates := old(updates) + [DecorPatch(true)])
    {
      updates := updates + [DecorPatch(true)];
    }

    /** Double-click on the content: `handleDoubleClick` toggles `decorMode`, and it is
        only attached in decor mode when decor is not locked, so it can only turn decor
        mode off. */
    method ContentDoubleClick()
      modifies this
      ensures decorMode && !lockDecor ==>
        State() == old(State()).(updates := old(updates) + [DecorPatch(!decorMode)])
      ensures decorMode && !lockDecor ==> updates[|updates| - 1] == DecorPatch(false)
      ensures !(decorMode && !lockDecor) ==> State() == old(State())
    {
      if decorMode && !lockDecor {
        updates := updates + [DecorPatch(!decorMode)];
      }
    }
  }

  /** A drag from `p0` to `p1`: the note follows the pointer one for one and commits
      where it ended, once. */
  method DragTo(w: NoteWidget, p0: Point, p1: Point)
    requires w.gesture.Idle?
    modifies w
    ensures w.localPos == Dragged(old(w.dragPos), p0, p1)
    ensures w.updates == old(w.updates) + [PositionPatch(w.localPos)]
    ensures w.gesture.Idle?
  {
    w.DragStart(p0);
    w.PointerMove(p1, 0.0);
    w.PointerUp();
  }

  /** A resize from `p0` to `p1`: the size grows by the pointer travel, with no lower
      bound, and is committed once. */
  method ResizeTo(w: NoteWidget, p0: Point, p1: Point)
    requires w.gesture.Idle?
    modifies w
    ensures w.localSize == Size(old(w.localSize).width + (p1.x - p0.x), old(w.localSize).height + (p1.y - p0.y))
    ensures w.updates == old(w.updates) + [SizePatch(w.localSize)]
    ensures w.gesture.Idle?
  {
    w.ResizeStart(p0);
    w.PointerMove(p1, 0.0);
    w.PointerUp();
  }

  /** A rotation from pointer angle `a0` to `a1`: the note turns by the swept angle,
      with no normalisation, and commits it once. */
  method RotateTo(w: NoteWidget, a0: real, a1: real)
    requires w.gesture.Idle?
    modifies w
    ensures w.localRotation == old(w.localRotation) + (a1 - a0)
    ensures w.updates == old(w.updates) + [RotationPatch(w.localRotation)]
    ensures w.gesture.Idle?
  {
    w.RotateStart(Some(a0));
    w.PointerMove(Point(0.0, 0.0), a1);
    w.PointerUp();
  }
}
