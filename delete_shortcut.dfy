/** The Backspace/Delete guard of `hooks/useDeleteShortcut.ts` (repeated in `App.tsx`):
    it decides which of the two callbacks fire, and in which order. The selection
    is tested for truthiness, so an empty id counts as no selection. */
module DeleteShortcut {
  import opened Common

  /** The focused element (`document.activeElement`), absent when there is none. */
  datatype Focus = Focus(tagName: string, isContentEditable: bool)

  /** A callback the handler invokes. */
  datatype Action = DeleteNote(id: string) | ClearActive

  /** Focus is in a text field or an editable element. */
  predicate IsEditing(focus: Option<Focus>) {
    focus.Some? &&
    (focus.value.tagName == "TEXTAREA" || focus.value.tagName == "INPUT" || focus.value.isContentEditable)
  }

  predicate IsDeleteKey(key: string) {
    key == "Backspace" || key == "Delete"
  }

  /** `handleDeleteKey`: outside text editing, Backspace or Delete with a selected note
      deletes that note and then clears the selection, each once; anything else fires
      nothing. */
  function HandleDeleteKey(focus: Option<Focus>, key: string, activeNoteId: Option<string>): (actions: seq<Action>)
    ensures actions == [] || (Truthy(activeNoteId) && actions == [DeleteNote(activeNoteId.value), ClearActive])
    ensures actions != [] <==> !IsEditing(focus) && Truthy(activeNoteId) && IsDeleteKey(key)
  {
    if IsEditing(focus) then []
    else if activeNoteId.Some? && activeNoteId.value != "" && IsDeleteKey(key) then [DeleteNote(activeNoteId.value), ClearActive]
    else []
  }

  /** The ways to get no action: focus in a text field, another key, no selection
      (an empty id is falsy and counts as none). */
  lemma DeleteKeyGuards(focus: Option<Focus>, key: string, activeNoteId: Option<string>)
    ensures focus == Some(Focus("TEXTAREA", false)) ==> HandleDeleteKey(focus, key, activeNoteId) == []
    ensures focus == Some(Focus("INPUT", false)) ==> HandleDeleteKey(focus, key, activeNoteId) == []
    ensures focus.Some? && focus.value.isContentEditable ==> HandleDeleteKey(focus, key, activeNoteId) == []
    ensures key != "Backspace" && key != "Delete" ==> HandleDeleteKey(focus, key, activeNoteId) == []
    ensures activeNoteId.None? ==> HandleDeleteKey(focus, key, activeNoteId) == []
    ensures activeNoteId == Some("") ==> HandleDeleteKey(focus, key, activeNoteId) == []
  {
  }
}
