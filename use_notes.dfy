/** The note store of `hooks/useNotes.ts`. Its `updateNote` clears the selection
    whenever an update turns decor mode on. */
module UseNotes {
  import opened Common
  import opened NoteRecords
  import opened NoteList

  class NotesHook {
    /** The `notes` state. */
    var notes: seq<Note>
    /** The `activeNoteId` state. */
    var activeNoteId: Option<string>
    /** `isEditingNoteRef.current`, shared through the editor context. */
    var isEditing: bool
    /** The writes forwarded to the key-value store, in order. */
    ghost var log: seq<DbOp>

    /** The editing flag is only ever set while a note is selected (by a non-empty
        id). It is not the converse: `deleteNote` clears the flag and keeps the
        selection. */
    ghost predicate Valid()
      reads this
    {
      isEditing ==> Truthy(activeNoteId)
    }

    constructor ()
      ensures Valid()
      ensures notes == [] && activeNoteId == None && !isEditing && log == []
    {
      notes := [];
      activeNoteId := None;
      isEditing := false;
      log := [];
    }

    /** `setActiveNoteId(id)` followed by the effect that mirrors the selection into
        the editing flag (`if (activeNoteId)`, so an empty id counts as none); the
        effect runs only when the id actually changes. */
    method SetActiveNoteId(id: Option<string>)
      requires Valid()
      modifies this
      ensures Valid()
      ensures activeNoteId == id && notes == old(notes) && log == old(log)
      ensures id != old(activeNoteId) ==> isEditing == Truthy(id)
      ensures id == old(activeNoteId) ==> isEditing == old(isEditing)
    {
      if id != activeNoteId {
        activeNoteId := id;
        if activeNoteId.Some? && activeNoteId.value != "" {
          isEditing := true;
        } else {
          isEditing := false;
        }
      }
    }

    /** `addNote`: `center` is what `getCenterPosition()` returned. */
    method AddNote(center: Option<Point>, freshId: string, randomColor: string)
      requires Valid()
      modifies this
      ensures Valid()
      ensures notes == Append(old(notes), CreateNote(center, NoChanges, freshId, randomColor))
      ensures log == old(log) + [Put(ToStored(CreateNote(center, NoChanges, freshId, randomColor)))]
      ensures activeNoteId == old(activeNoteId) && isEditing == old(isEditing)
    {
      var newNote := CreateNote(center, NoChanges, freshId, randomColor);
      notes := notes + [newNote];
      log := log + [Put(ToStored(newNote))];
    }

    /** `addGuideNote`; `guide` is the welcome text. */
    method AddGuideNote(center: Option<Point>, guide: string, freshId: string, randomColor: string)
      requires Valid()
      modifies this
      ensures Valid()
      ensures notes == Append(old(notes), CreateNote(center, GuidePatch(guide), freshId, randomColor))
      ensures log == old(log) + [Put(ToStored(CreateNote(center, GuidePatch(guide), freshId, randomColor)))]
      ensures activeNoteId == old(activeNoteId) && isEditing == old(isEditing)
    {
      var newNote := CreateNote(center, GuidePatch(guide), freshId, randomColor);
      notes := notes + [newNote];
      log := log + [Put(ToStored(newNote))];
    }

    /** `updateNote`: merge into the matching notes, store each merged record, and
        drop the selection when the update sets `decorMode: true`, whichever note it
        names and even when no note carries that id. */
    method UpdateNote(id: string, updates: Patch)
      requires Valid()
      modifies this
      ensures Valid()
      ensures notes == UpdateNotes(old(notes), id, updates)
      ensures log == old(log) + UpdatePuts(old(notes), id, updates)
      ensures updates.decorMode == Some(true) ==> activeNoteId == None && !isEditing
      ensures updates.decorMode != Some(true) ==>
        activeNoteId == old(activeNoteId) && isEditing == old(isEditing)
    {
      notes := UpdateNotes(notes, id, updates);
      log := log + UpdatePuts(old(notes), id, updates);
      if updates.decorMode == Some(true) {
        SetActiveNoteId(None);
      }
    }

    /** `deleteNote`: drop the notes with that id, clear the editing flag, forward the
        delete; the selection is left as it was. */
    method DeleteNote(id: string)
      requires Valid()
      modifies this
      ensures Valid()
      ensures notes == DeleteNotes(old(notes), id)
      ensures !isEditing && activeNoteId == old(activeNoteId)
      ensures log == old(log) + [DeleteById(id)]
    {
      notes := DeleteNotes(notes, id);
      isEditing := false;
      log := log + [DeleteById(id)];
    }

    /** `moveNoteZIndex`: an unknown id changes nothing; otherwise the first note with
        that id moves one layer (never below 0) and its record is stored. */
    method MoveNoteZIndex(id: string, direction: Direction)
      requires Valid()
      modifies this
      ensures Valid()
      ensures (forall j :: 0 <= j < |old(notes)| ==> old(notes)[j].id != id) ==>
        notes == old(notes) && log == old(log)
      ensures forall k: nat :: IsFirstIndex(old(notes), id, k) ==>
        && notes == old(notes)[k := old(notes)[k].(zIndex := Some(NewZ(old(notes)[k].zIndex, direction)))]
        && log == old(log) + [Put(ToStored(notes[k]))]
      ensures activeNoteId == old(activeNoteId) && isEditing == old(isEditing)
    {
      var found := FindIndex(notes, id);
      var updated := MoveZIndex(notes, id, direction);
      if found.Some? {
        log := log + [Put(ToStored(updated[found.value]))];
      }
      notes := updated;
    }
  }
}
