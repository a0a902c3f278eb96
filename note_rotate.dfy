/** The rotate gesture of `hooks/useNoteRotate.ts`. `angle` is the direction, in
    degrees, from the centre of the note's bounding box to the pointer (the source's
    `atan2`), or `None` when the note element has no bounding box. */
module NoteRotate {
  import opened Common
  import opened EditorFlags

  datatype RotateEvent = RotateEvent(angle: Option<real>, first: bool, last: bool)

  class RotateHook {
    const flags: GestureRegistry
    /** The `rotateRef`: the current rotation and, during a gesture, the pointer angle
        and rotation it began with. */
    var rotation: real
    var initialAngle: Option<real>
    var startRotation: Option<real>
    /** The rotation shown while rotating (`setLocalRotation`). */
    var localRotation: real
    /** The `onUpdate(id, { rotation })` calls, in order. */
    var commits: seq<real>

    constructor (flags: GestureRegistry, rotation: real)
      ensures this.flags == flags && this.rotation == rotation && localRotation == rotation
      ensures initialAngle.None? && startRotation.None? && commits == []
    {
      this.flags := flags;
      this.rotation := rotation;
      initialAngle, startRotation := None, None;
      localRotation := rotation;
      commits := [];
    }

    /** The effect on `rotation`: the ref is replaced by `{ rotation }`, forgetting
        any gesture start. */
    method RotationChanged(r: real)
      modifies this
      ensures rotation == r && localRotation == r
      ensures initialAngle.None? && startRotation.None? && commits == old(commits)
    {
      rotation := r;
      initialAngle, startRotation := None, None;
      localRotation := r;
    }

    /** The drag handler of the rotate button. Without a bounding box the event is
        ignored. Otherwise the note turns by the angle the pointer swept round the
        centre since the first event; the first event leaves the rotation as it was. */
    method OnDrag(e: RotateEvent)
      modifies this, flags
      ensures e.angle.None? ==>
        && rotation == old(rotation) && initialAngle == old(initialAngle)
        && startRotation == old(startRotation) && localRotation == old(localRotation)
        && commits == old(commits) && flags.rotating == old(flags.rotating)
      ensures e.angle.Some? ==>
        && initialAngle == (if e.first then e.angle else old(initialAngle))
        && startRotation == (if e.first then Some(old(rotation)) else old(startRotation))
        && rotation == startRotation.GetOr(0.0) + (e.angle.value - initialAngle.GetOr(0.0))
        && localRotation == rotation
        && commits == old(commits) + (if e.last then [rotation] else [])
        && flags.rotating == (if e.last then false else if e.first then true else old(flags.rotating))
      ensures e.angle.Some? && e.first ==> rotation == old(rotation)
      ensures flags.dragging == old(flags.dragging) && flags.resizing == old(flags.resizing)
    {
      if e.angle.None? {
        return;
      }
      var angle := e.angle.value;
      if e.first {
        initialAngle := Some(angle);
        startRotation := Some(rotation);
        flags.rotating := true;
      }
      var angleDiff := angle - initialAngle.GetOr(0.0);
      var newRotation := startRotation.GetOr(0.0) + angleDiff;
      rotation := newRotation;
      localRotation := newRotation;
      if e.last {
        commits := commits + [newRotation];
        flags.rotating := false;
      }
    }
  }

  /** A gesture of two events with a bounding box throughout: the note ends turned by
      the angle between the two pointer directions, which is committed once. */
  method RotateGesture(h: RotateHook, a1: real, a2: real)
    modifies h, h.flags
    ensures h.rotation == old(h.rotation) + (a2 - a1)
    ensures h.commits == old(h.commits) + [h.rotation]
    ensures !h.flags.rotating
  {
    h.OnDrag(RotateEvent(Some(a1), true, false));
    h.OnDrag(RotateEvent(Some(a2), false, true));
  }
}
