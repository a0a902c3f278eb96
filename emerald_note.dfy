/** The floating note of the Emerald page (`components/emerald/EmeraldNote.tsx`): the
    gestures of `components/Note.tsx` made zoom-aware (pointer travel is divided by
    the `scale` prop captured at the press), a rotation reset, and "apply", which
    hands the note's text and frame to the page canvas and then deletes the note. */
module EmeraldNoteComponent {
  import opened Common
  import opened EmeraldPage

  /** The characters JavaScript's `String.prototype.trim` removes: white space and
      line terminators. */
  predicate IsJsWhitespace(c: char) {
    || c == '\t' || c == '\n' || c == '\U{000B}' || c == '\U{000C}' || c == '\r' || c == ' '
    || c == '\U{00A0}' || c == '\U{1680}' || ('\U{2000}' <= c <= '\U{200A}')
    || c == '\U{2028}' || c == '\U{2029}' || c == '\U{202F}' || c == '\U{205F}'
    || c == '\U{3000}' || c == '\U{FEFF}'
  }

  predicate Blank(s: string) {
    forall i :: 0 <= i < |s| ==> IsJsWhitespace(s[i])
  }

  function TrimStart(s: string): (r: string)
    decreases |s|
  {
    if s != [] && IsJsWhitespace(s[0]) then TrimStart(s[1..]) else s
  }

  function TrimEnd(s: string): (r: string)
    decreases |s|
  {
    if s != [] && IsJsWhitespace(s[|s| - 1]) then TrimEnd(s[..|s| - 1]) else s
  }

  /** `s.trim()` */
  function Trim(s: string): string {
    TrimEnd(TrimStart(s))
  }

  lemma {:induction false} TrimStartShape(s: string)
    ensures TrimStart(s) == [] <==> Blank(s)
    ensures TrimStart(s) != [] ==> !IsJsWhitespace(TrimStart(s)[0])
    decreases |s|
  {
    if s != [] && IsJsWhitespace(s[0]) {
      TrimStartShape(s[1..]);
      if Blank(s[1..]) {
        forall i | 0 <= i < |s|
          ensures IsJsWhitespace(s[i])
        {
          if i > 0 {
            assert s[i] == s[1..][i - 1];
          }
        }
      }
    }
  }

  lemma {:induction false} TrimEndKeepsHead(s: string)
    requires s != [] && !IsJsWhitespace(s[0])
    ensures TrimEnd(s) != []
    decreases |s|
  {
    if IsJsWhitespace(s[|s| - 1]) {
      TrimEndKeepsHead(s[..|s| - 1]);
    }
  }

  /** `content.trim()` is empty exactly when every character of `content` is white
      space, so "apply" ignores blank notes and only them. */
  lemma TrimEmptyIffBlank(s: string)
    ensures Trim(s) == [] <==> Blank(s)
  {
    TrimStartShape(s);
    if TrimStart(s) != [] {
      TrimEndKeepsHead(TrimStart(s));
    }
  }

  datatype Gesture =
    | Idle
    | Dragging(offset: Point, scale: real)
    | Resizing(start: Point, startSize: Size, scale: real)
    | Rotating(initialAngle: real, startRotation: real)

  datatype EmeraldWidgetState = EmeraldWidgetState(
    content: string,
    scale: real,
    dragPos: Point,
    resizeRef: Size,
    rotateRef: real,
    localPos: Point,
    localSize: Size,
    localRotation: real,
    gesture: Gesture,
    updates: seq<EmeraldPatch>)

  /** What "apply" asks of the page, in order. */
  datatype PageRequest = Apply(draw: NoteDraw) | Delete(id: string)

  class EmeraldNoteWidget {
    const id: string
    /** Props. */
    var content: string
    var scale: real
    /** Refs and the local state the note is drawn with. */
    var dragPos: Point
    var resizeRef: Size
    var rotateRef: real
    var localPos: Point
    var localSize: Size
    var localRotation: real
    var gesture: Gesture
    /** The `onUpdate(id, ...)` calls, in order. */
    var updates: seq<EmeraldPatch>

    function State(): EmeraldWidgetState
      reads this
    {
      EmeraldWidgetState(content, scale, dragPos, resizeRef, rotateRef, localPos, localSize, localRotation, gesture, updates)
    }

    constructor (id: string, content: string, x: real, y: real, width: real, height: real, rotation: real, scale: real)
      ensures this.id == id
      ensures State() == EmeraldWidgetState(content, scale, Point(x, y), Size(width, height), rotation,
                                            Point(x, y), Size(width, height), rotation, Idle, [])
    {
      this.id := id;
      this.content, this.scale := content, scale;
      dragPos, localPos := Point(x, y), Point(x, y);
      resizeRef, localSize := Size(width, height), Size(width, height);
      rotateRef, localRotation := rotation, rotation;
      gesture := Idle;
      updates := [];
    }

    /** The effect on `[x, y]`. */
    method PositionChanged(x: real, y: real)
      modifies this
      ensures State() == old(State()).(dragPos := Point(x, y), localPos := Point(x, y))
    {
      dragPos := Point(x, y);
      localPos := Point(x, y);
    }

    /** The effect on `[width, height]`. */
    method SizeChanged(width: real, height: real)
      modifies this
      ensures State() == old(State()).(resizeRef := Size(width, height), localSize := Size(width, height))
    {
      resizeRef := Size(width, height);
      localSize := Size(width, height);
    }

    /** The effect on `[rotation]`. */
    method RotationChanged(rotation: real)
      modifies this
      ensures State() == old(State()).(rotateRef := rotation, localRotation := rotation)
    {
      rotateRef := rotation;
      localRotation := rotation;
    }

    /** A re-render with new `content` and `scale` props. */
    method PropsChanged(content: string, scale: real)
      modifies this
      ensures State() == old(State()).(content := content, scale := scale)
    {
      this.content, this.scale := content, scale;
    }

    /** `handleDragStart`: the offset is taken in screen units. */
    method DragStart(pointer: Point)
      requires gesture.Idle? && scale != 0.0
      modifies this
      ensures State() == old(State()).(gesture := Dragging(Sub(pointer, Mul(dragPos, scale)), scale))
    {
      var offsetX := pointer.x - dragPos.x * scale;
      var offsetY := pointer.y - dragPos.y * scale;
      gesture := Dragging(Point(offsetX, offsetY), scale);
      assert Point(offsetX, offsetY) == Sub(pointer, Mul(dragPos, scale));
    }

    /** `handleResizeStart`: remembers the pointer and the size shown. */
    method ResizeStart(pointer: Point)
      requires gesture.Idle? && scale != 0.0
      modifies this
      ensures State() == old(State()).(gesture := Resizing(pointer, localSize, scale))
    {
      gesture := Resizing(pointer, localSize, scale);
    }

    /** `handleRotateStart`; `angle` is `None` when the note has no bounding box. */
    method RotateStart(angle: Option<real>)
      requires gesture.Idle?
      modifies this
      ensures angle.None? ==> State() == old(State())
      ensures angle.Some? ==> State() == old(State()).(gesture := Rotating(angle.value, localRotation))
    {
      if angle.None? {
        return;
      }
      gesture := Rotating(angle.value, localRotation);
    }

    /** A document move event, handled by whichever move listener is attached. */
    method PointerMove(pointer: Point, angle: real)
      requires gesture.Dragging? ==> gesture.scale != 0.0
      requires gesture.Resizing? ==> gesture.scale != 0.0
      modifies this
      ensures old(gesture).Idle? ==> State() == old(State())
      ensures old(gesture).Dragging? ==>
        var p := Div(Sub(pointer, old(gesture).offset), old(gesture).scale);
        State() == old(State()).(dragPos := p, localPos := p)
      ensures old(gesture).Resizing? ==>
        var g := old(gesture);
        var s := Size(g.startSize.width + (pointer.x - g.start.x) / g.scale,
                      g.startSize.height + (pointer.y - g.start.y) / g.scale);
        State() == old(State()).(resizeRef := s, localSize := s)
      ensures old(gesture).Rotating? ==>
        var r := old(gesture).startRotation + (angle - old(gesture).initialAngle);
        State() == old(State()).(rotateRef := r, localRotation := r)
    {
      match gesture
      case Idle =>
      case Dragging(offset, s) =>
        dragPos := Point((pointer.x - offset.x) / s, (pointer.y - offset.y) / s);
        localPos := dragPos;
      case Resizing(start, startSize, s) =>
        resizeRef := Size(startSize.width + (pointer.x - start.x) / s, startSize.height + (pointer.y - start.y) / s);
        localSize := resizeRef;
      case Rotating(initialAngle, startRotation) =>
        var angleDiff := angle - initialAngle;
        rotateRef := startRotation + angleDiff;
        localRotation := rotateRef;
    }

    /** A document end event: the attached end listener commits its ref once and
        removes the listeners. */
    method PointerUp()
      modifies this
      ensures old(gesture).Idle? ==> State() == old(State())
      ensures old(gesture).Dragging? ==>
        State() == old(State()).(gesture := Idle, updates := old(updates) + [PositionUpdate(dragPos)])
      ensures old(gesture).Resizing? ==>
        State() == old(State()).(gesture := Idle, updates := old(updates) + [SizeUpdate(resizeRef)])
      ensures old(gesture).Rotating? ==>
        State() == old(State()).(gesture := Idle, updates := old(updates) + [RotationUpdate(rotateRef)])
    {
      match gesture
      case Idle =>
      case Dragging(_, _) =>
        updates := updates + [PositionUpdate(dragPos)];
        gesture := Idle;
      case Resizing(_, _, _) =>
        updates := updates + [SizeUpdate(resizeRef)];
        gesture := Idle;
      case Rotating(_, _) =>
        updates := updates + [RotationUpdate(rotateRef)];
        gesture := Idle;
    }

    /** Double-click on the rotate handle: back to no rotation, committed at once. */
    method ResetRotation()
      modifies this
      ensures State() == old(State()).(rotateRef := 0.0, localRotation := 0.0,
                                       updates := old(updates) + [RotationUpdate(0.0)])
    {
      rotateRef := 0.0;
      localRotation := 0.0;
      updates := updates + [RotationUpdate(0.0)];
    }

    /** `handleApplyNote`: a note holding some non-blank text asks the page to draw
        its text with the frame currently shown and then to delete it; a blank note
        asks nothing. */
    method ApplyNote() returns (requests: seq<PageRequest>)
      ensures !Blank(content) ==>
        requests == [Apply(NoteDraw(content, localPos.x, localPos.y, localSize.width, localSize.height, localRotation)),
                     Delete(id)]
      ensures Blank(content) ==> requests == []
    {
      TrimEmptyIffBlank(content);
      if Trim(content) != [] {
        var draw := NoteDraw(content, localPos.x, localPos.y, localSize.width, localSize.height, localRotation);
        requests := [Apply(draw), Delete(id)];
      } else {
        requests := [];
      }
    }
  }

  /** `{ x, y }`, `{ width, height }` and `{ rotation }` as page updates. */
  function PositionUpdate(p: Point): EmeraldPatch {
    NoEmeraldChanges.(x := Some(p.x), y := Some(p.y))
  }

  function SizeUpdate(s: Size): EmeraldPatch {
    NoEmeraldChanges.(width := Some(s.width), height := Some(s.height))
  }

  function RotationUpdate(r: real): EmeraldPatch {
    NoEmeraldChanges.(rotation := Some(r))
  }

  /** A drag from `p0` to `p1` at zoom `scale` moves the note by the pointer travel
      divided by the zoom, and commits where it ended, once. */
  method DragTo(w: EmeraldNoteWidget, p0: Point, p1: Point)
    requires w.gesture.Idle? && w.scale != 0.0
    modifies w
    ensures w.scale == old(w.scale)
    ensures w.localPos == Add(old(w.dragPos), Div(Sub(p1, p0), w.scale))
    ensures w.updates == old(w.updates) + [PositionUpdate(w.localPos)]
    ensures w.gesture.Idle?
  {
    w.DragStart(p0);
    w.PointerMove(p1, 0.0);
    w.PointerUp();
  }

  /** A resize from `p0` to `p1` grows the shown size by the travel divided by the zoom,
      with no lower bound, and commits it once. */
  method ResizeTo(w: EmeraldNoteWidget, p0: Point, p1: Point)
    requires w.gesture.Idle? && w.scale != 0.0
    modifies w
    ensures w.scale == old(w.scale)
    ensures w.localSize == Size(old(w.localSize).width + (p1.x - p0.x) / w.scale,
                                old(w.localSize).height + (p1.y - p0.y) / w.scale)
    ensures w.updates == old(w.updates) + [SizeUpdate(w.localSize)]
    ensures w.gesture.Idle?
  {
    w.ResizeStart(p0);
    w.PointerMove(p1, 0.0);
    w.PointerUp();
  }

  /** A rotation from pointer angle `a0` to `a1` turns the note by the swept angle and
      commits it once. */
  method RotateTo(w: EmeraldNoteWidget, a0: real, a1: real)
    requires w.gesture.Idle?
    modifies w
    ensures w.localRotation == old(w.localRotation) + (a1 - a0)
    ensures w.updates == old(w.updates) + [RotationUpdate(w.localRotation)]
    ensures w.gesture.Idle?
  {
    w.RotateStart(Some(a0));
    w.PointerMove(Point(0.0, 0.0), a1);
    w.PointerUp();
  }
}
