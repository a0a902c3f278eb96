/** The resize gesture of `hooks/useNoteResize.ts`: the size follows the pointer
    travel divided by the zoom, from the size the note had when the gesture began,
    and never drops below one unit on either axis. */
module NoteResize {
  import opened Common
  import opened EditorFlags
  import opened NoteDrag

  /** `{ width: Math.max(1, w), height: Math.max(1, h) }` */
  function ClampSize(s: Size): (r: Size)
    ensures r.width >= 1.0 && r.height >= 1.0
    ensures r.width == s.width || r.width == 1.0
    ensures r.height == s.height || r.height == 1.0
    ensures s.width >= 1.0 && s.height >= 1.0 ==> r == s
  {
    Size(Max(1.0, s.width), Max(1.0, s.height))
  }

  /** The size reached from `base` after pointer travel `m` at zoom `scale`. */
  function ResizedFrom(base: Size, m: Point, scale: real): (r: Size)
    requires scale != 0.0
    ensures r.width >= 1.0 && r.height >= 1.0
    ensures base.width + m.x / scale >= 1.0 ==> r.width == base.width + m.x / scale
    ensures base.height + m.y / scale >= 1.0 ==> r.height == base.height + m.y / scale
  {
    ClampSize(Size(base.width + m.x / scale, base.height + m.y / scale))
  }

  /** No travel leaves a size of at least one unit per axis as it was, and the result
      grows with the travel: more travel on an axis never gives a smaller size. */
  lemma ResizedFromMonotone(base: Size, m: Point, m2: Point, scale: real)
    requires scale > 0.0
    requires m.x <= m2.x && m.y <= m2.y
    ensures base.width >= 1.0 && base.height >= 1.0 ==> ResizedFrom(base, Point(0.0, 0.0), scale) == base
    ensures ResizedFrom(base, m, scale).width <= ResizedFrom(base, m2, scale).width
    ensures ResizedFrom(base, m, scale).height <= ResizedFrom(base, m2, scale).height
  {
    assert m.x / scale <= m2.x / scale;
    assert m.y / scale <= m2.y / scale;
  }

  class ResizeHook {
    const flags: GestureRegistry
    /** The `width` and `height` arguments. */
    var width: real
    var height: real
    var scale: real
    /** The `resizeRef`: the size the current gesture started from. */
    var resizeRef: Size
    /** The size shown while resizing (`setLocalSize`). */
    var localSize: Size
    /** The `onUpdate(id, clampedSize)` calls, in order. */
    var commits: seq<Size>

    constructor (flags: GestureRegistry, width: real, height: real, scale: real)
      ensures this.flags == flags && this.width == width && this.height == height && this.scale == scale
      ensures resizeRef == Size(width, height) && localSize == Size(width, height) && commits == []
    {
      this.flags := flags;
      this.width, this.height, this.scale := width, height, scale;
      resizeRef := Size(width, height);
      localSize := Size(width, height);
      commits := [];
    }

    /** The effect on `[width, height]`. */
    method SizeChanged(w: real, h: real)
      modifies this
      ensures width == w && height == h
      ensures resizeRef == Size(w, h) && localSize == Size(w, h)
      ensures scale == old(scale) && commits == old(commits)
    {
      width, height := w, h;
      resizeRef := Size(w, h);
      localSize := Size(w, h);
    }

    /** A re-render with a new camera zoom. */
    method ScaleChanged(s: real)
      modifies this
      ensures scale == s
      ensures width == old(width) && height == old(height)
      ensures resizeRef == old(resizeRef) && localSize == old(localSize) && commits == old(commits)
    {
      scale := s;
    }

    /** The resize handler: the first event re-reads the size props and raises the
        flag; each event shows the clamped size; the last commits it and lowers the flag. */
    method OnResize(e: DragEvent)
      requires scale != 0.0
      modifies this, flags
      ensures scale == old(scale) && width == old(width) && height == old(height)
      ensures resizeRef == (if e.first then Size(width, height) else old(resizeRef))
      ensures localSize == ResizedFrom(resizeRef, e.movement, scale)
      ensures localSize.width >= 1.0 && localSize.height >= 1.0
      ensures commits == old(commits) + (if e.last then [localSize] else [])
      ensures flags.resizing == (if e.last then false else if e.first then true else old(flags.resizing))
      ensures flags.dragging == old(flags.dragging) && flags.rotating == old(flags.rotating)
    {
      if e.first {
        resizeRef := Size(width, height);
        flags.resizing := true;
      }
      var newWidth := resizeRef.width + e.movement.x / scale;
      var newHeight := resizeRef.height + e.movement.y / scale;
      var clampedSize := Size(Max(1.0, newWidth), Max(1.0, newHeight));
      localSize := clampedSize;
      if e.last {
        commits := commits + [clampedSize];
        flags.resizing := false;
      }
    }
  }
}
