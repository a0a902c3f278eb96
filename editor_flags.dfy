/** The three gesture flags of `contexts/EditorContext.tsx`, shared by every note's
    drag, resize and rotate hooks through one context object. */
module EditorFlags {

  class GestureRegistry {
    /** `isDraggingNoteRef.current` */
    var dragging: bool
    /** `isResizingNoteRef.current` */
    var resizing: bool
    /** `isRotatingNoteRef.current` */
    var rotating: bool

    constructor ()
      ensures !dragging && !resizing && !rotating
    {
      dragging, resizing, rotating := false, false, false;
    }
  }
}
