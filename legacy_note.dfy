/** The older note widget of `Note.tsx` at the source root. It works like the one in
    `components/Note.tsx`, except that a resize starts from the `width`/`height`
    props and a rotation from the `rotation` prop (`rotation || 0`) rather than from
    what is shown, and it has no rotation reset. */
module LegacyNoteComponent {
  import opened Common
  import opened NoteRecords

  datatype Gesture =
    | Idle
    | Dragging(offset: Point)
    | Resizing(start: Point, startSize: Size)
    | Rotating(initialAngle: real, startRotation: real)

  datatype LegacyState = LegacyState(
    width: real,
    height: real,
    rotation: real,
    decorMode: bool,
    lockDecor: bool,
    dragPos: Point,
    resizeRef: Size,
    rotateRef: real,
    localPos: Point,
    localSize: Size,
    localRotation: real,
    gesture: Gesture,
    updates: seq<Patch>)

  /** `rotation || 0`: a missing rotation counts as none. */
  function StartRotation(rotation: Option<real>): (r: real)
    ensures rotation.Some? ==> r == rotation.value
    ensures rotation.None? ==> r == 0.0
  {
    rotation.GetOr(0.0)
  }

  class LegacyNoteWidget {
    const id: string
    /** Props. */
    var width: real
    var height: real
    var rotation: real
    var decorMode: bool
    var lockDecor: bool
    /** Refs and the local state the note is drawn with. */
    var dragPos: Point
    var resizeRef: Size
    var rotateRef: real
    var localPos: Point
    var localSize: Size
    var localRotation: real
    var gesture: Gesture
    /** The `onUpdate(id, ...)` calls, in order. */
    var updates: seq<Patch>

    function State(): LegacyState
      reads this
    {
      LegacyState(width, height, rotation, decorMode, lockDecor, dragPos, resizeRef, rotateRef,
                  localPos, localSize, localRotation, gesture, updates)
    }

    /** The first render; `rotation` is the prop after its default (`None` is 0). */
    constructor (id: string, x: real, y: real, width: real, height: real, rotation: Option<real>, decorMode: bool, lockDecor: bool)
      ensures this.id == id
      ensures State() == LegacyState(width, height, StartRotation(rotation), decorMode, lockDecor,
                                     Point(x, y), Size(width, height), StartRotation(rotation),
                                     Point(x, y), Size(width, height), StartRotation(rotation), Idle, [])
    {
      this.id := id;
      this.width, this.height := width, height;
      this.rotation := rotation.GetOr(0.0);
      this.decorMode, this.lockDecor := decorMode, lockDecor;
      dragPos, localPos := Point(x, y), Point(x, y);
      resizeRef, localSize := Size(width, height), Size(width, height);
      rotateRef, localRotation := this.rotation, this.rotation;
      gesture := Idle;
      updates := [];
    }

    /** The effect on `[x, y]`. */
    method PositionChanged(x: real, y: real)
      modifies this
      ensures State() == old(State()).(dragPos := Point(x, y), localPos := Point(x, y))
    {
      dragPos := Point(x, y);
      localPos := Point(x, y);
    }

    /** The effect on `[width, height]`. */
    method SizeChanged(width: real, height: real)
      modifies this
      ensures State() == old(State()).(width := width, height := height,
                                       resizeRef := Size(width, height), localSize := Size(width, height))
    {
      this.width, this.height := width, height;
      resizeRef := Size(width, height);
      localSize := Size(width, height);
    }

    /** The effect on `[rotation]`. */
    method RotationChanged(rotation: real)
      modifies this
      ensures State() == old(State()).(rotation := rotation, rotateRef := rotation, localRotation := rotation)
    {
      this.rotation := rotation;
      rotateRef := rotation;
      localRotation := rotation;
    }

    /** A re-render with new `decorMode` and `lockDecor` props. */
    method DecorPropsChanged(decorMode: bool, lockDecor: bool)
      modifies this
      ensures State() == old(State()).(decorMode := decorMode, lockDecor := lockDecor)
    {
      this.decorMode, this.lockDecor := decorMode, lockDecor;
    }

    /** `handleDragStart` */
    method DragStart(pointer: Point)
      requires gesture.Idle?
      modifies this
      ensures State() == old(State()).(gesture := Dragging(Sub(pointer, dragPos)))
    {
      var offsetX := pointer.x - dragPos.x;
      var offsetY := pointer.y - dragPos.y;
      gesture := Dragging(Point(offsetX, offsetY));
    }

    /** `handleResizeStart`: the start size is the props', not the one shown. */
    method ResizeStart(pointer: Point)
      requires gesture.Idle?
      modifies this
      ensures State() == old(State()).(gesture := Resizing(pointer, Size(width, height)))
    {
      gesture := Resizing(pointer, Size(width, height));
    }

    /** `handleRotateStart`: nothing without the note element; otherwise the rotation
        starts from the prop. */
    method RotateStart(angle: Option<real>)
      requires gesture.Idle?
      modifies this
      ensures angle.None? ==> State() == old(State())
      ensures angle.Some? ==> State() == old(State()).(gesture := Rotating(angle.value, rotation))
    {
      if angle.None? {
        return;
      }
      gesture := Rotating(angle.value, rotation);
    }

    /** A document move event, handled by whichever move listener is attached. */
    method PointerMove(pointer: Point, angle: real)
      modifies this
      ensures old(gesture).Idle? ==> State() == old(State())
      ensures old(gesture).Dragging? ==>
        var p := Sub(pointer, old(gesture).offset);
        State() == old(State()).(dragPos := p, localPos := p)
      ensures old(gesture).Resizing? ==>
        var g := old(gesture);
        var s := Size(g.startSize.width + (pointer.x - g.start.x), g.startSize.height + (pointer.y - g.start.y));
        State() == old(State()).(resizeRef := s, localSize := s)
      ensures old(gesture).Rotating? ==>
        var r := old(gesture).startRotation + (angle - old(gesture).initialAngle);
        State() == old(State()).(rotateRef := r, localRotation := r)
    {
      match gesture
      case Idle =>
      case Dragging(offset) =>
        dragPos := Point(pointer.x - offset.x, pointer.y - offset.y);
        localPos := dragPos;
      case Resizing(start, startSize) =>
        var newWidth := startSize.width + (pointer.x - start.x);
        var newHeight := startSize.height + (pointer.y - start.y);
        resizeRef := Size(newWidth, newHeight);
        localSize := Size(newWidth, newHeight);
      case Rotating(initialAngle, startRotation) =>
        var angleDiff := angle - initialAngle;
        var newRotation := startRotation + angleDiff;
        rotateRef := newRotation;
        localRotation := newRotation;
    }

    /** A document end event: the attached end listener commits exactly the fields of
        its gesture and removes the listeners. */
    method PointerUp()
      modifies this
      ensures old(gesture).Idle? ==> State() == old(State())
      ensures old(gesture).Dragging? ==>
        State() == old(State()).(gesture := Idle, updates := old(updates) + [PositionPatch(dragPos)])
      ensures old(gesture).Resizing? ==>
        State() == old(State()).(gesture := Idle, updates := old(updates) + [SizePatch(resizeRef)])
      ensures old(gesture).Rotating? ==>
        State() == old(State()).(gesture := Idle, updates := old(updates) + [RotationPatch(rotateRef)])
    {
      match gesture
      case Idle =>
      case Dragging(_) =>
        updates := updates + [PositionPatch(Point(dragPos.x, dragPos.y))];
        gesture := Idle;
      case Resizing(_, _) =>
        updates := updates + [SizePatch(Size(resizeRef.width, resizeRef.height))];
        gesture := Idle;
      case Rotating(_, _) =>
        updates := updates + [RotationPatch(rotateRef)];
        gesture := Idle;
    }

    /** The decorate button. */
    method Decorate()
      modifies this
      ensures State() == old(State()).(updates := old(updates) + [DecorPatch(true)])
    {
      updates := updates + [DecorPatch(true)];
    }

    /** Double-click on the content: the decorMode toggle, attached only in decor mode
        when decor is not locked. */
    method ContentDoubleClick()
      modifies this
      ensures decorMode && !lockDecor ==>
        State() == old(State()).(updates := old(updates) + [DecorPatch(!decorMode)])
      ensures decorMode && !lockDecor ==> updates[|updates| - 1] == DecorPatch(false)
      ensures !(decorMode && !lockDecor) ==> State() == old(State())
    {
      if decorMode && !lockDecor {
        updates := updates + [DecorPatch(!decorMode)];
      }
    }
  }

  /** A resize from `p0` to `p1` grows the props' size by the pointer travel, even when
      a different size is being shown, and commits that size once. */
  method ResizeTo(w: LegacyNoteWidget, p0: Point, p1: Point)
    requires w.gesture.Idle?
    modifies w
    ensures w.localSize == Size(w.width + (p1.x - p0.x), w.height + (p1.y - p0.y))
    ensures w.width == old(w.width) && w.height == old(w.height)
    ensures w.updates == old(w.updates) + [SizePatch(w.localSize)]
    ensures w.gesture.Idle?
  {
    w.ResizeStart(p0);
    w.PointerMove(p1, 0.0);
    w.PointerUp();
  }

  /** A rotation from pointer angle `a0` to `a1` turns the prop's rotation by the swept
      angle and commits exactly `{ rotation }` once. */
  method RotateTo(w: LegacyNoteWidget, a0: real, a1: real)
    requires w.gesture.Idle?
    modifies w
    ensures w.localRotation == w.rotation + (a1 - a0) && w.rotation == old(w.rotation)
    ensures w.updates == old(w.updates) + [RotationPatch(w.localRotation)]
    ensures w.gesture.Idle?
  {
    w.RotateStart(Some(a0));
    w.PointerMove(Point(0.0, 0.0), a1);
    w.PointerUp();
  }

  /** A drag from `p0` to `p1` moves the note by the pointer travel and commits exactly
      `{ x, y }` of where it ended, once. */
  method DragTo(w: LegacyNoteWidget, p0: Point, p1: Point)
    requires w.gesture.Idle?
    modifies w
    ensures w.localPos == Add(old(w.dragPos), Sub(p1, p0))
    ensures w.updates == old(w.updates) + [PositionPatch(w.localPos)]
    ensures w.gesture.Idle?
  {
    w.DragStart(p0);
    w.PointerMove(p1, 0.0);
    w.PointerUp();
  }
}
