/** The board page of `App.tsx`, which keeps its own copy of the note store: the
    same list operations as `hooks/useNotes.ts` without the decor-mode rule and
    without the editing flag, its own delete-key handler, the click on empty canvas
    that drops the selection, and the layer each note is drawn on. Its pan and zoom
    handlers are those of the camera model. */
module App {
  import opened Common
  import opened NoteRecords
  import opened NoteList
  import DeleteShortcut

  /** The partial `addGuideNote` passes here: the guide shape, explicitly unrotated. */
  function AppGuidePatch(text: string): Patch {
    GuidePatch(text).(rotation := Some(0.0))
  }

  /** The layer a note is drawn on: 999 for the selected note, its own otherwise. */
  function EffectiveZIndex(n: Note, activeNoteId: Option<string>): (z: int)
    ensures activeNoteId == Some(n.id) ==> z == 999
    ensures activeNoteId != Some(n.id) ==> z == n.zIndex.GetOr(1)
  {
    if Some(n.id) == activeNoteId then 999 else n.zIndex.GetOr(1)
  }

  /** The selected note is drawn above every other note whose own layer is below 999;
      two unselected notes keep the order of their own layers. */
  lemma SelectedDrawnOnTop(selected: Note, other: Note, activeNoteId: Option<string>)
    requires activeNoteId == Some(selected.id) && other.id != selected.id
    requires other.zIndex.GetOr(1) < 999
    ensures EffectiveZIndex(other, activeNoteId) < EffectiveZIndex(selected, activeNoteId)
  {
  }

  lemma UnselectedKeepOrder(a: Note, b: Note, activeNoteId: Option<string>)
    requires activeNoteId != Some(a.id) && activeNoteId != Some(b.id)
    ensures EffectiveZIndex(a, activeNoteId) <= EffectiveZIndex(b, activeNoteId)
        <==> a.zIndex.GetOr(1) <= b.zIndex.GetOr(1)
  {
  }

  class CloudNote {
    var notes: seq<Note>
    var activeNoteId: Option<string>
    /** The writes forwarded to the key-value store, in order. */
    ghost var log: seq<DbOp>

    constructor ()
      ensures notes == [] && activeNoteId == None && log == []
    {
      notes := [];
      activeNoteId := None;
      log := [];
    }

    /** `setActiveNoteId`, as the notes' `onActivate` calls it. */
    method SetActiveNoteId(id: Option<string>)
      modifies this
      ensures activeNoteId == id && notes == old(notes) && log == old(log)
    {
      activeNoteId := id;
    }

    /** A click on the board: outside every note it drops the selection. */
    method CanvasClick(insideNote: bool)
      modifies this
      ensures activeNoteId == (if insideNote then old(activeNoteId) else None)
      ensures notes == old(notes) && log == old(log)
    {
      if !insideNote {
        activeNoteId := None;
      }
    }

    /** `addNote`: `center` is what `getCenterPosition()` returned. */
    method AddNote(center: Option<Point>, freshId: string, randomColor: string)
      modifies this
      ensures notes == Append(old(notes), CreateNote(center, NoChanges, freshId, randomColor))
      ensures log == old(log) + [Put(ToStored(CreateNote(center, NoChanges, freshId, randomColor)))]
      ensures activeNoteId == old(activeNoteId)
    {
      var newNote := CreateNote(center, NoChanges, freshId, randomColor);
      notes := notes + [newNote];
      log := log + [Put(ToStored(newNote))];
    }

    /** `addGuideNote`; `guide` is the welcome text. */
    method AddGuideNote(center: Option<Point>, guide: string, freshId: string, randomColor: string)
      modifies this
      ensures notes == Append(old(notes), CreateNote(center, AppGuidePatch(guide), freshId, randomColor))
      ensures log == old(log) + [Put(ToStored(CreateNote(center, AppGuidePatch(guide), freshId, randomColor)))]
      ensures activeNoteId == old(activeNoteId)
    {
      var newNote := CreateNote(center, AppGuidePatch(guide), freshId, randomColor);
      notes := notes + [newNote];
      log := log + [Put(ToStored(newNote))];
    }

    /** `updateNote`: merge into the matching notes and store each merged record; the
        selection is never touched, whatever the update holds. */
    method UpdateNote(id: string, updates: Patch)
      modifies this
      ensures notes == UpdateNotes(old(notes), id, updates)
      ensures log == old(log) + UpdatePuts(old(notes), id, updates)
      ensures activeNoteId == old(activeNoteId)
    {
      log := log + UpdatePuts(notes, id, updates);
      notes := UpdateNotes(notes, id, updates);
    }

    /** `moveNoteZIndex` */
    method MoveNoteZIndex(id: string, direction: Direction)
      modifies this
      ensures (forall j :: 0 <= j < |old(notes)| ==> old(notes)[j].id != id) ==>
        notes == old(notes) && log == old(log)
      ensures forall k: nat :: IsFirstIndex(old(notes), id, k) ==>
        && notes == old(notes)[k := old(notes)[k].(zIndex := Some(NewZ(old(notes)[k].zIndex, direction)))]
        && log == old(log) + [Put(ToStored(notes[k]))]
      ensures activeNoteId == old(activeNoteId)
    {
      var found := FindIndex(notes, id);
      var updated := MoveZIndex(notes, id, direction);
      if found.Some? {
        log := log + [Put(ToStored(updated[found.value]))];
      }
      notes := updated;
    }

    /** `deleteNote`: drop the notes with that id and forward the delete; the selection
        is left as it was. */
    method DeleteNote(id: string)
      modifies this
      ensures notes == DeleteNotes(old(notes), id)
      ensures log == old(log) + [DeleteById(id)]
      ensures activeNoteId == old(activeNoteId)
    {
      notes := DeleteNotes(notes, id);
      log := log + [DeleteById(id)];
    }

    /** The `keydown` listener: outside text editing, Backspace or Delete removes the
        selected note and then drops the selection. */
    method KeyDown(focus: Option<DeleteShortcut.Focus>, key: string)
      modifies this
      ensures var fires := !DeleteShortcut.IsEditing(focus) && Truthy(old(activeNoteId)) && DeleteShortcut.IsDeleteKey(key);
        && (fires ==> notes == DeleteNotes(old(notes), old(activeNoteId).value)
                      && log == old(log) + [DeleteById(old(activeNoteId).value)]
                      && activeNoteId == None)
        && (!fires ==> notes == old(notes) && log == old(log) && activeNoteId == old(activeNoteId))
      ensures !DeleteShortcut.IsEditing(focus) && Truthy(old(activeNoteId)) && DeleteShortcut.IsDeleteKey(key) ==>
        forall n :: n in notes ==> n.id != old(activeNoteId).value
    {
      var actions := DeleteShortcut.HandleDeleteKey(focus, key, activeNoteId);
      if actions != [] {
        DeleteNote(activeNoteId.value);
        activeNoteId := None;
      }
    }
  }
}
