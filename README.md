# cloudnote core, modelled in Dafny

cloudnote is a browser note board. Sticky notes sit on a canvas that can be panned
and zoomed; each note can be dragged, resized, rotated, switched to "decor mode",
moved between layers and deleted, and the notes are kept in a key-value store.
This project models the deterministic core beneath the React components and proves
what it promises:

- the note records: the store projection `toStoredNote`, the defaults and override
  rule of `createNote`, and the `{ ...note, ...updates }` merge (`note_records.dfy`);
- the list operations every note store repeats: update by id, delete by id, append,
  and the one-layer move of `moveNoteZIndex`, with a loop for `findIndex` and an
  array write for the copied list (`note_list.dfy`);
- the two note-store hooks `useNotes` and `useHeliodorNotes` and the store inside
  `App.tsx`, each as a class whose methods change the notes, the selection, the
  editing flag and a log of store writes (`use_notes.dfy`, `use_heliodor_notes.dfy`,
  `app.dfy`); they differ exactly where the source does (the decor-mode rule,
  the editing flag, the guide note's explicit rotation);
- the camera: screen/canvas conversion, shift-drag panning, the clamped and
  centre-anchored shift-wheel zoom, the stored camera fallback and the jittered
  spawn point (`geometry.dfy`, `camera.dfy`);
- the gesture hooks `useNoteDrag`, `useNoteResize` and `useNoteRotate`, as classes
  driven by the gesture library's first/move/last events, together with the shared
  gesture flags (`editor_flags.dfy`, `note_drag.dfy`, `note_resize.dfy`,
  `note_rotate.dfy`);
- the three note widgets that implement the same gestures with document listeners:
  `components/Note.tsx`, the older `Note.tsx` and the Emerald page's `EmeraldNote.tsx`
  (`note_component.dfy`, `legacy_note.dfy`, `emerald_note.dfy`), including "apply"
  and JavaScript's `trim`;
- the Emerald page state: creation counter, update, delete, exclusive activation
  and the list of applied drawings (`emerald_page.dfy`);
- the Backspace/Delete guard (`delete_shortcut.dfy`).

Randomness, identifiers and the clock come in as parameters: the `uuidv4()` value
(`freshId`), the random colour, the two `Math.random()` draws of the spawn jitter,
`Date.now()` (`now`), and the `atan2` pointer angle in degrees. A patch
(`Partial<...>`) is a record of optional fields, and the spread keeps every present
field. Numbers are `real`. Writes to the key-value store are recorded in a ghost
`log` of `Put(record)` and `DeleteById(id)` entries. Each widget's attached document
listeners, together with what their closures captured at the press, are a `Gesture`
value. Its `onUpdate` calls are recorded in `updates`. JavaScript truthiness of the
selection (`if (activeNoteId)`) is `Truthy`: an empty id counts as no selection.

`App.tsx` repeats `toStoredNote`, `createNote`, the panning handlers and the wheel
zoom of the hooks word for word (`src/App.tsx:16-41`, `166-183`, `259-298`,
`301-337`). The model uses one definition for each, and some rows below cite the
`App.tsx` copy.

The editor context in `src/contexts/EditorContext.tsx` provides only the three
gesture flags (lines 10-14 and 27). The editing flag that both note hooks write
(`isEditingNoteRef`) is modelled as a field of the hook that writes it, as if the
provider supplied it; "## Left out" says what the code does as it stands.

## Model

| member | source | states |
|---|---|---|
| NoteRecords.MergeIdempotent | src/hooks/useNotes.ts:79 | merging the same update twice equals merging it once, and an empty update changes nothing |
| NoteRecords.ToStoredExactly | src/utils/noteHelpers.ts:6-9 | two notes have the same stored record if and only if they agree on the ten persisted fields; reading a record back keeps those fields |
| NoteRecords.ToStoredIdempotent | src/App.tsx:16-41 | projecting an already projected record gives the same record |
| NoteRecords.CreateNoteDefaults | src/utils/noteHelpers.ts:18-28 | with an empty partial the note gets the fresh id, the spawn point (or the origin when there is none), 200 x 150, "type something...", the random colour, rotation 0 and layer 1 |
| NoteRecords.CreateNotePartialWins | src/utils/noteHelpers.ts:14-33 | every field the partial carries, including id, x and y, beats the default or generated value; creating with a partial is creating with none and then merging the partial |
| Geometry.CanvasCenter | src/utils/canvasUtils.ts:1-15 | the canvas point returned is drawn exactly at the viewport centre (scale must be non-zero, as the source divides by it unguarded) |
| Geometry.CanvasCenterIdentity | src/utils/canvasUtils.ts:7-12 | with no pan and scale 1 the canvas centre is the viewport centre |
| Geometry.CanvasCenterPanShift | src/utils/canvasUtils.ts:11-12 | panning right by d moves the centre d/scale canvas units left and leaves y alone |
| Geometry.ClampScale | src/hooks/useCameraControls.ts:102-103 | the zoom is always in [0.5, 2], kept when already inside, and pinned to the nearer bound otherwise |
| Geometry.WheelZoom | src/hooks/useCameraControls.ts:94-106 | after a wheel step the scale is in [0.5, 2] and the viewport centre shows the same canvas point as before |
| Geometry.WheelZoomAnchored | src/App.tsx:316-326 | the old centre point is drawn at the viewport centre after the step, and the opposite step restores pan and scale while both scales are inside the clamp range |
| Geometry.CenterPosition | src/hooks/useCameraControls.ts:129-139 | no container gives no spawn point; otherwise the point lies in [c - 40, c) on each axis around the canvas centre c |
| Camera.RestoredPan | src/hooks/useCameraControls.ts:7-17 | the stored pan when present, (0, 0) when the value is missing, unparseable or has no pan |
| Camera.RestoredScale | src/App.tsx:98-108 | the stored scale when present, 1 otherwise |
| Camera.PanFollowsPointer | src/hooks/useCameraControls.ts:58-66 | over any run of moves while panning the pan grows by the last pointer minus the pointer at the press |
| Camera.IdleMovesChangeNothing | src/App.tsx:269-282 | moves while not panning change nothing |
| Camera.CameraControls.constructor | src/hooks/useCameraControls.ts:7-37 | the camera starts from the stored value, not panning, in the default cursor mode |
| Camera.CameraControls.MouseDown | src/hooks/useCameraControls.ts:49-56 | only a shift-press starts panning and remembers the pointer; the zoom is untouched |
| Camera.CameraControls.MouseMove | src/hooks/useCameraControls.ts:58-66 | while panning the pan follows the pointer by the distance since the last event, otherwise nothing changes |
| Camera.CameraControls.MouseUp | src/hooks/useCameraControls.ts:68-71 | panning stops and the cursor mode returns to default |
| Camera.CameraControls.Wheel | src/hooks/useCameraControls.ts:86-110 | without shift nothing changes; with shift the cursor shows scaling and, when the container is mounted, pan and scale become the anchored, clamped zoom step; the panning refs are untouched |
| NoteList.UpdateNotes | src/hooks/useNotes.ts:74-85 | length and order are kept; the notes carrying the id get the update merged over them and every other note is unchanged |
| NoteList.UpdateAbsentId | src/App.tsx:388-399 | an id no note carries leaves the list as it was |
| NoteList.UpdateIdempotent | src/hooks/useHeliodorNotes.ts:75-87 | repeating an update changes nothing more; an update without an id keeps every id in place |
| NoteList.UpdatePuts | src/hooks/useNotes.ts:78-82 | every store write of an update is a put, at most one per note, each for the updated id when the update does not rename; none when no note matches |
| NoteList.UpdatePutsCount | src/hooks/useNotes.ts:76-82 | there is exactly one put per note carrying the id: puts plus the notes a delete of the id would keep make up the whole list |
| NoteList.UpdatePutsRecords | src/hooks/useNotes.ts:79-80 | each put stores the projection of a matching note with the update merged over it |
| NoteList.UpdatePutsInOrder | src/hooks/useHeliodorNotes.ts:75-87 | the puts of a list are those of its first part followed by those of the rest, so the records are stored in list order |
| NoteList.UpdatePutsSingle | src/hooks/useNotes.ts:77-83 | a single note gives one put of its merged record exactly when it carries the id, and none otherwise |
| NoteList.DeleteNotes | src/hooks/useNotes.ts:92 | a note survives if and only if it was there and carries another id |
| NoteList.DeleteKeepsOrder | src/App.tsx:423-426 | deleting distributes over concatenation, so the survivors keep their order |
| NoteList.DeleteAbsentId | src/hooks/useHeliodorNotes.ts:90 | deleting an id no note carries changes nothing |
| NoteList.DeleteIdempotent | src/hooks/useNotes.ts:91-95 | deleting twice is deleting once |
| NoteList.Append | src/hooks/useNotes.ts:44-48 | exactly one note is added, at the end, and the earlier notes are untouched |
| NoteList.GuideNoteShape | src/hooks/useHeliodorNotes.ts:65-71 | the guide note is 500 x 300, holds the guide text and otherwise has the creation defaults |
| NoteList.NewZ | src/hooks/useNotes.ts:118-120 | the new layer is never negative: one up or one down from `zIndex ?? 1`, floored at 0 |
| NoteList.NewZRoundTrip | src/hooks/useHeliodorNotes.ts:116-118 | up then down returns a non-negative layer to where it was; down from 0 stays at 0 |
| NoteList.FindIndex | src/hooks/useHeliodorNotes.ts:112-120 | the index found is the first note with the id; none is found exactly when no note carries it |
| NoteList.MoveZIndex | src/hooks/useNotes.ts:112-129 | an unknown id returns the list unchanged; otherwise only the first matching note gets its layer moved |
| NoteList.MoveZIndexEffect | src/App.tsx:407-414 | after a move the length is kept, the moved layer is non-negative and every other entry is unchanged |
| UseNotes.NotesHook.constructor | src/hooks/useNotes.ts:17-18 | no notes, no selection, not editing |
| UseNotes.NotesHook.SetActiveNoteId | src/hooks/useNotes.ts:27-33 | the selection is set; when it changes, the editing flag becomes whether a (non-empty) id is selected |
| UseNotes.NotesHook.AddNote | src/hooks/useNotes.ts:44-48 | one default note is appended and its record stored; selection and editing flag are kept |
| UseNotes.NotesHook.AddGuideNote | src/hooks/useNotes.ts:50-72 | one guide-shaped note is appended and its record stored |
| UseNotes.NotesHook.UpdateNote | src/hooks/useNotes.ts:74-89 | the matching notes are merged and stored; an update setting decor mode on clears the selection and the editing flag, whichever id it names |
| UseNotes.NotesHook.DeleteNote | src/hooks/useNotes.ts:91-95 | the notes with the id are dropped, the editing flag is cleared, the delete is forwarded, the selection is kept |
| UseNotes.NotesHook.MoveNoteZIndex | src/hooks/useNotes.ts:112-129 | an unknown id changes nothing; otherwise the first matching note moves one layer and its record is stored |
| UseHeliodorNotes.HeliodorNotesHook.constructor | src/hooks/useHeliodorNotes.ts:18-19 | no notes, no selection, not editing |
| UseHeliodorNotes.HeliodorNotesHook.SetActiveNoteId | src/hooks/useHeliodorNotes.ts:28-34 | as in `useNotes`: the flag mirrors a changed selection |
| UseHeliodorNotes.HeliodorNotesHook.AddNote | src/hooks/useHeliodorNotes.ts:45-49 | one default note is appended and stored |
| UseHeliodorNotes.HeliodorNotesHook.AddGuideNote | src/hooks/useHeliodorNotes.ts:51-73 | one guide-shaped note is appended and stored |
| UseHeliodorNotes.HeliodorNotesHook.UpdateNote | src/hooks/useHeliodorNotes.ts:75-87 | the matching notes are merged and stored; selection and editing flag never change, even for decor mode |
| UseHeliodorNotes.HeliodorNotesHook.DeleteNote | src/hooks/useHeliodorNotes.ts:89-93 | the notes with the id are dropped, the editing flag is cleared, the delete is forwarded |
| UseHeliodorNotes.HeliodorNotesHook.MoveNoteZIndex | src/hooks/useHeliodorNotes.ts:110-127 | an unknown id changes nothing; otherwise the first matching note moves one layer and is stored |
| App.EffectiveZIndex | src/App.tsx:503 | the selected note is drawn on layer 999, every other note on its own layer (1 when unset) |
| App.SelectedDrawnOnTop | src/App.tsx:503-504 | the selected note is drawn above every other note whose own layer is below 999 |
| App.UnselectedKeepOrder | src/App.tsx:497-503 | two unselected notes are drawn in the order of their own layers |
| App.CloudNote.constructor | src/App.tsx:69-72 | the board starts with no notes and no selection |
| App.CloudNote.SetActiveNoteId | src/App.tsx:505 | the selection is set and nothing else changes |
| App.CloudNote.CanvasClick | src/App.tsx:480-484 | a click outside every note clears the selection; a click inside a note keeps it |
| App.CloudNote.AddNote | src/App.tsx:340-344 | one default note is appended and stored |
| App.CloudNote.AddGuideNote | src/App.tsx:362-385 | one guide-shaped note with explicit rotation 0 is appended and stored |
| App.CloudNote.UpdateNote | src/App.tsx:388-399 | the matching notes are merged and stored; the selection is never touched |
| App.CloudNote.MoveNoteZIndex | src/App.tsx:402-420 | an unknown id changes nothing; otherwise the first matching note moves one layer and is stored |
| App.CloudNote.DeleteNote | src/App.tsx:423-426 | the notes with the id are dropped and the delete is forwarded; there is no editing flag to clear |
| App.CloudNote.KeyDown | src/App.tsx:237-252 | outside text editing, Backspace or Delete with a selected note deletes that note and clears the selection; otherwise nothing changes |
| DeleteShortcut.HandleDeleteKey | src/hooks/useDeleteShortcut.ts:10-24 | either nothing fires, or exactly "delete the selected note" then "clear the selection"; they fire if and only if focus is not in a text field, a note is selected and the key is Backspace or Delete |
| DeleteShortcut.DeleteKeyGuards | src/hooks/useDeleteShortcut.ts:11-19 | focus in a TEXTAREA, an INPUT or an editable element, any other key, or no (or an empty) selection each fire nothing |
| EditorFlags.GestureRegistry.constructor | src/contexts/EditorContext.tsx:21-23 | all three gesture flags start lowered |
| NoteDrag.DragHook.constructor | src/hooks/useNoteDrag.ts:5-13 | the drag ref and the shown position start at the props |
| NoteDrag.DragHook.PositionChanged | src/hooks/useNoteDrag.ts:16-19 | new x/y props reset the drag ref and the shown position |
| NoteDrag.DragHook.ScaleChanged | src/hooks/useNoteDrag.ts:9 | a new zoom changes nothing else |
| NoteDrag.DragHook.OnDrag | src/hooks/useNoteDrag.ts:22-38 | the note is at offset/scale, which is its start plus the travel over the zoom; the first event raises the drag flag, the last commits the shown position once and lowers it |
| NoteDrag.DragGesture | src/hooks/useNoteDrag.ts:25-35 | a first and a last event end at the start plus the final travel over the zoom, commit that position once and leave the flag down |
| NoteResize.ClampSize | src/hooks/useNoteResize.ts:31-34 | both sides are at least 1, each is the proposed value or 1, and a size already at least 1 is kept |
| NoteResize.ResizedFrom | src/hooks/useNoteResize.ts:28-34 | the new size is the base plus the travel over the zoom, floored at 1 per side |
| NoteResize.ResizedFromMonotone | src/hooks/useNoteResize.ts:28-34 | no travel keeps a base of at least 1, and more travel never gives a smaller side |
| NoteResize.ResizeHook.constructor | src/hooks/useNoteResize.ts:5-14 | the base and shown size start at the props |
| NoteResize.ResizeHook.SizeChanged | src/hooks/useNoteResize.ts:17-20 | new width/height props reset the base and the shown size |
| NoteResize.ResizeHook.ScaleChanged | src/hooks/useNoteResize.ts:9 | a new zoom changes nothing else |
| NoteResize.ResizeHook.OnResize | src/hooks/useNoteResize.ts:22-41 | the first event re-reads the props as the base and raises the flag; the shown size is at least 1 per side; the last event commits exactly the shown size and lowers the flag |
| NoteRotate.RotateHook.constructor | src/hooks/useNoteRotate.ts:17-19 | the rotation starts at the prop, with no gesture start |
| NoteRotate.RotateHook.RotationChanged | src/hooks/useNoteRotate.ts:22-25 | a new rotation prop resets the ref, forgetting any gesture start, and the shown rotation |
| NoteRotate.RotateHook.OnDrag | src/hooks/useNoteRotate.ts:31-60 | without a bounding box nothing changes; otherwise the rotation is the start rotation plus the swept angle, unnormalised; the first event keeps the rotation and raises the flag, the last commits the shown rotation and lowers it |
| NoteRotate.RotateGesture | src/hooks/useNoteRotate.ts:40-59 | a first and a last event turn the note by the angle between them and commit it once, leaving the flag down |
| NoteComponent.Dragged | src/components/Note.tsx:77-83 | the distance from the start position equals the pointer travel; no travel keeps the start |
| NoteComponent.NoteWidget.constructor | src/components/Note.tsx:42-48 | refs and shown values start at the props, with no gesture attached |
| NoteComponent.NoteWidget.PositionChanged | src/components/Note.tsx:50-53 | new x/y props resync the drag ref and the shown position, nothing else |
| NoteComponent.NoteWidget.SizeChanged | src/components/Note.tsx:55-58 | new size props resync the resize ref and the shown size |
| NoteComponent.NoteWidget.RotationChanged | src/components/Note.tsx:60-63 | a new rotation prop resyncs the rotate ref and the shown rotation |
| NoteComponent.NoteWidget.DecorPropsChanged | src/components/Note.tsx:33-35 | new decor props change nothing else |
| NoteComponent.NoteWidget.DragStart | src/components/Note.tsx:74-79 | attaches a drag that remembers the pointer's offset from the note |
| NoteComponent.NoteWidget.ResizeStart | src/components/Note.tsx:108-113 | attaches a resize from the pointer and the size shown |
| NoteComponent.NoteWidget.RotateStart | src/components/Note.tsx:143-156 | without a bounding box nothing is attached; otherwise a rotation from the pointer angle and the rotation shown |
| NoteComponent.NoteWidget.PointerMove | src/components/Note.tsx:80-86 | the attached gesture moves its ref and shown value: position = pointer - offset, size = start + travel with no lower bound, rotation = start + swept angle; with none attached nothing changes |
| NoteComponent.NoteWidget.PointerUp | src/components/Note.tsx:88-98 | the attached gesture commits its ref once, as exactly that gesture's fields, and detaches; with none attached nothing happens |
| NoteComponent.NoteWidget.ResetRotation | src/components/Note.tsx:218-223 | the rotation goes to 0 and 0 is committed at once |
| NoteComponent.NoteWidget.Decorate | src/components/Note.tsx:229 | commits decor mode on |
| NoteComponent.NoteWidget.ContentDoubleClick | src/components/Note.tsx:191-193 | commits the toggled decor mode, which is only wired in unlocked decor mode and so always turns it off; otherwise nothing |
| NoteComponent.DragTo | src/components/Note.tsx:74-91 | a drag ends at the start position plus the pointer travel, not divided by the zoom, and commits that once |
| NoteComponent.ResizeTo | src/components/Note.tsx:108-126 | a resize grows the shown size by the travel, with no lower bound, and commits it once |
| NoteComponent.RotateTo | src/components/Note.tsx:143-174 | a rotation turns the shown rotation by the swept angle and commits it once |
| LegacyNoteComponent.StartRotation | src/Note.tsx:152 | a missing rotation starts from 0, a present one from itself |
| LegacyNoteComponent.LegacyNoteWidget.constructor | src/Note.tsx:38-44 | refs and shown values start at the props, with no gesture attached |
| LegacyNoteComponent.LegacyNoteWidget.PositionChanged | src/Note.tsx:46-49 | new x/y props resync the drag ref and the shown position |
| LegacyNoteComponent.LegacyNoteWidget.SizeChanged | src/Note.tsx:51-54 | new size props resync the resize ref and the shown size |
| LegacyNoteComponent.LegacyNoteWidget.RotationChanged | src/Note.tsx:56-59 | a new rotation prop resyncs the rotate ref and the shown rotation |
| LegacyNoteComponent.LegacyNoteWidget.DecorPropsChanged | src/Note.tsx:31-33 | new decor props change nothing else |
| LegacyNoteComponent.LegacyNoteWidget.DragStart | src/Note.tsx:61-67 | attaches a drag that remembers the pointer's offset from the note |
| LegacyNoteComponent.LegacyNoteWidget.ResizeStart | src/Note.tsx:96-103 | attaches a resize from the pointer and the size props, not the size shown |
| LegacyNoteComponent.LegacyNoteWidget.RotateStart | src/Note.tsx:135-152 | without the element nothing is attached; otherwise a rotation from the pointer angle and the rotation prop |
| LegacyNoteComponent.LegacyNoteWidget.PointerMove | src/Note.tsx:69-80 | the attached gesture moves its ref and shown value as in the component widget |
| LegacyNoteComponent.LegacyNoteWidget.PointerUp | src/Note.tsx:82-88 | the attached gesture commits exactly its own fields once and detaches |
| LegacyNoteComponent.LegacyNoteWidget.Decorate | src/Note.tsx:216 | commits decor mode on |
| LegacyNoteComponent.LegacyNoteWidget.ContentDoubleClick | src/Note.tsx:189-191 | commits the toggled decor mode when wired (unlocked decor mode), otherwise nothing |
| LegacyNoteComponent.ResizeTo | src/Note.tsx:100-122 | a resize grows the props' size by the travel, even while another size is shown, and commits it once |
| LegacyNoteComponent.RotateTo | src/Note.tsx:149-176 | a rotation turns the prop's rotation by the swept angle and commits exactly `{ rotation }` once |
| LegacyNoteComponent.DragTo | src/Note.tsx:61-83 | a drag moves the note by the pointer travel and commits exactly `{ x, y }` of where it ended, once |
| EmeraldNoteComponent.TrimStartShape | src/components/emerald/EmeraldNote.tsx:190 | trimming the front leaves nothing exactly for an all-white-space string, and otherwise starts at a non-white-space character |
| EmeraldNoteComponent.TrimEndKeepsHead | src/components/emerald/EmeraldNote.tsx:190 | trimming the end of a string that starts with a visible character leaves something |
| EmeraldNoteComponent.TrimEmptyIffBlank | src/components/emerald/EmeraldNote.tsx:190 | `content.trim()` is empty if and only if every character is JavaScript white space |
| EmeraldNoteComponent.EmeraldNoteWidget.constructor | src/components/emerald/EmeraldNote.tsx:39-46 | refs and shown values start at the props, with no gesture attached |
| EmeraldNoteComponent.EmeraldNoteWidget.PositionChanged | src/components/emerald/EmeraldNote.tsx:48-51 | new x/y props resync the drag ref and the shown position |
| EmeraldNoteComponent.EmeraldNoteWidget.SizeChanged | src/components/emerald/EmeraldNote.tsx:53-56 | new size props resync the resize ref and the shown size |
| EmeraldNoteComponent.EmeraldNoteWidget.RotationChanged | src/components/emerald/EmeraldNote.tsx:58-61 | a new rotation prop resyncs the rotate ref and the shown rotation |
| EmeraldNoteComponent.EmeraldNoteWidget.PropsChanged | src/components/emerald/EmeraldNote.tsx:29-33 | new content and zoom props change nothing else |
| EmeraldNoteComponent.EmeraldNoteWidget.DragStart | src/components/emerald/EmeraldNote.tsx:72-76 | attaches a drag remembering the pointer's offset from the note in screen units, and the zoom |
| EmeraldNoteComponent.EmeraldNoteWidget.ResizeStart | src/components/emerald/EmeraldNote.tsx:106-111 | attaches a resize from the pointer, the size shown and the zoom |
| EmeraldNoteComponent.EmeraldNoteWidget.RotateStart | src/components/emerald/EmeraldNote.tsx:141-154 | without a bounding box nothing is attached; otherwise a rotation from the pointer angle and the rotation shown |
| EmeraldNoteComponent.EmeraldNoteWidget.PointerMove | src/components/emerald/EmeraldNote.tsx:78-84 | the attached gesture moves its ref and shown value, dividing the pointer travel by the zoom captured at the press |
| EmeraldNoteComponent.EmeraldNoteWidget.PointerUp | src/components/emerald/EmeraldNote.tsx:86-96 | the attached gesture commits its ref once and detaches |
| EmeraldNoteComponent.EmeraldNoteWidget.ResetRotation | src/components/emerald/EmeraldNote.tsx:223-228 | the rotation goes to 0 and 0 is committed at once |
| EmeraldNoteComponent.EmeraldNoteWidget.ApplyNote | src/components/emerald/EmeraldNote.tsx:189-201 | a note with some non-white-space text asks the page to draw its text with the frame shown, then to delete it; a blank note asks nothing |
| EmeraldNoteComponent.DragTo | src/components/emerald/EmeraldNote.tsx:72-89 | a drag moves the note by the pointer travel divided by the zoom and commits where it ended, once |
| EmeraldNoteComponent.ResizeTo | src/components/emerald/EmeraldNote.tsx:106-124 | a resize grows the shown size by the travel over the zoom, with no lower bound, and commits it once |
| EmeraldNoteComponent.RotateTo | src/components/emerald/EmeraldNote.tsx:141-172 | a rotation turns the note by the swept angle and commits it once |
| EmeraldPage.ApplyNote | src/pages/Emerald.tsx:49-51 | the drawing is added at the end of the list and nothing else changes |
| EmeraldPage.NatToString | src/pages/Emerald.tsx:56 | a number prints as a non-empty string of decimal digits |
| EmeraldPage.NatToStringInjective | src/pages/Emerald.tsx:56 | different numbers print differently |
| EmeraldPage.EmeraldIdsDistinct | src/pages/Emerald.tsx:56 | two notes created at the same clock reading with different counters get different ids |
| EmeraldPage.CreateEmeraldNote | src/pages/Emerald.tsx:54-74 | one blank 200 x 150 note is appended at (100 + 20c, 100 + 20c) on layer c + 1, unrotated, unzoomed and not marked active; it becomes the selection and the counter c advances by one |
| EmeraldPage.UpdateEmeraldNote | src/pages/Emerald.tsx:77-84 | the notes carrying the id get the update merged over them; all else is unchanged |
| EmeraldPage.Without | src/pages/Emerald.tsx:88 | a note survives if and only if it was there and carries another id |
| EmeraldPage.DeleteEmeraldNote | src/pages/Emerald.tsx:87-92 | the notes with the id are dropped, and the selection is cleared only when it was that id |
| EmeraldPage.ActivateEmeraldNote | src/pages/Emerald.tsx:95-103 | a note is marked active if and only if it carries the id, and the id becomes the selection |
| EmeraldPage.ActivationExclusive | src/pages/Emerald.tsx:96-101 | with distinct ids at most one note is marked active after activation, and one is if and only if some note carries the id |
| EmeraldPage.EmeraldIdCounter | src/pages/Emerald.tsx:56 | two ids made at any clock readings are equal only if their counters are equal, since the counter is the digits after the last dash |
| EmeraldPage.CreateKeepsUniqueIds | src/pages/Emerald.tsx:54-74 | when every id was made with a smaller counter, creating a note keeps all ids distinct and keeps that property, as do the empty page and activation |
| EmeraldPage.LayersBelowCounterKept | src/pages/Emerald.tsx:54-103 | every handler keeps each layer between 1 and the counter, so a new note is strictly above every earlier one |

## Left out

- Persistence: the IndexedDB calls are asynchronous I/O. They are kept only as the ghost `log` of puts and deletes, and loading the notes at start-up is not modelled.
- `localStorage` and its JSON are left out: the camera value read at start arrives already parsed (`StoredCamera`), and its writes, the `lockDecor` setting and the five-minute autosave are not modelled.
- The 300 ms timer that turns the cursor back from "scaling", toasts, the clipboard, image upload and import/export are left out, because they are browser timers or asynchronous APIs.
- Rendering is left out: markdown, styles, the canvas drawing of the Emerald page (`PageCanvas`), `wrapText`, and which buttons are shown. The one exception is the double-click wiring, which changes what a double-click commits.
- The guide text itself is a parameter.
- An update object whose key is present but holds `undefined` is not modelled: a patch field is either present with a value or absent.
- Numbers are mathematical reals. IEEE rounding, `NaN` and `Infinity` are not modelled, so every division by the zoom requires a non-zero zoom, including one restored from storage.
- `atan2` is not modelled: each rotate event carries the pointer angle it would give. The hook measures from the live bounding box and the widgets from the centre fixed at the press; the angle parameter stands for either.
- The gesture library is an input of first/last flags and movement. The model assumes its offset is the drag reference times the zoom plus the movement. Pinch and tap filtering are not modelled.
- NoteComponent.NoteWidget.DragStart: a second press while a gesture is attached would stack another set of listeners. The model requires no gesture to be attached at a press (one pointer at a time). The same holds for ResizeStart and RotateStart, and for the legacy and Emerald widgets.
- The pan and zoom of the camera read `panRef`, which an effect copies from `pan` after each render. The model reads `pan` directly, since both agree between events.
- UseNotes.NotesHook.DeleteNote: as written, the editor context supplies no `isEditingNoteRef` (`src/contexts/EditorContext.tsx:10-14`, `27`), so the ref read at `src/hooks/useNotes.ts:23` is undefined. The effect at lines 27-33 would then throw on mount, and `deleteNote` would throw at line 93 before forwarding the delete. The model assumes a provider that supplies the ref, so the flag is a working field and the delete is always forwarded. UseNotes.NotesHook.SetActiveNoteId and the same two members of UseHeliodorNotes.HeliodorNotesHook (`src/hooks/useHeliodorNotes.ts:24`, `28-34`, `91`) share this assumption.
- `onActivate`, the delete button, the layer buttons and content edits of the widgets only forward their argument to the store operations above, so they are not modelled separately.
- `components/heliodor/HeliodorNote.tsx` only composes the three hooks, and its decor toggle and rotation reset repeat `components/Note.tsx`. The Heliodor and NoticeBoard pages are wiring only.
- React's batching and the order in which effects run are not modelled. Each handler's state changes apply at once, and a prop-resync effect is a separate method call.
