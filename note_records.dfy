/** The note record, its stored form and the two helpers of `utils/noteHelpers.ts`
    (`toStoredNote`, `createNote`), which `App.tsx` repeats word for word. */
module NoteRecords {
  import opened Common

  /** A note as the board keeps it in memory (`HeliodorNoteProps` / `NoteProps`);
      the callback props (`onUpdate`, `onDelete`, ...) carry no data and are omitted. */
  datatype Note = Note(
    id: string,
    x: real,
    y: real,
    width: real,
    height: real,
    content: string,
    color: string,
    zIndex: Option<int>,
    rotation: Option<real>,
    decorMode: Option<bool>,
    isActive: Option<bool>,
    lockDecor: Option<bool>,
    scale: Option<real>)

  /** The record handed to the key-value store (`StoredNote`). */
  datatype StoredNote = StoredNote(
    id: string,
    content: string,
    x: real,
    y: real,
    width: real,
    height: real,
    color: string,
    rotation: Option<real>,
    zIndex: Option<int>,
    decorMode: Option<bool>)

  /** A `Partial<Note>`: `Some` for each key the object literal carries. */
  datatype Patch = Patch(
    id: Option<string>,
    x: Option<real>,
    y: Option<real>,
    width: Option<real>,
    height: Option<real>,
    content: Option<string>,
    color: Option<string>,
    zIndex: Option<int>,
    rotation: Option<real>,
    decorMode: Option<bool>,
    isActive: Option<bool>,
    lockDecor: Option<bool>,
    scale: Option<real>)

  /** `{}` */
  const NoChanges := Patch(None, None, None, None, None, None, None, None, None, None, None, None, None)

  /** `{ x, y }` */
  function PositionPatch(p: Point): Patch {
    NoChanges.(x := Some(p.x), y := Some(p.y))
  }

  /** `{ width, height }` */
  function SizePatch(s: Size): Patch {
    NoChanges.(width := Some(s.width), height := Some(s.height))
  }

  /** `{ rotation }` */
  function RotationPatch(r: real): Patch {
    NoChanges.(rotation := Some(r))
  }

  /** `{ decorMode }` */
  function DecorPatch(b: bool): Patch {
    NoChanges.(decorMode := Some(b))
  }

  /** A write forwarded to the key-value store. */
  datatype DbOp = Put(record: StoredNote) | DeleteById(key: string)

  /** The spread `{ ...note, ...updates }`: every key present in `p` wins. */
  function Merge(n: Note, p: Patch): Note {
    Note(
      p.id.GetOr(n.id),
      p.x.GetOr(n.x),
      p.y.GetOr(n.y),
      p.width.GetOr(n.width),
      p.height.GetOr(n.height),
      p.content.GetOr(n.content),
      p.color.GetOr(n.color),
      if p.zIndex.Some? then p.zIndex else n.zIndex,
      if p.rotation.Some? then p.rotation else n.rotation,
      if p.decorMode.Some? then p.decorMode else n.decorMode,
      if p.isActive.Some? then p.isActive else n.isActive,
      if p.lockDecor.Some? then p.lockDecor else n.lockDecor,
      if p.scale.Some? then p.scale else n.scale)
  }

  /** Merging the same patch twice is merging it once, and the empty patch changes nothing. */
  lemma MergeIdempotent(n: Note, p: Patch)
    ensures Merge(Merge(n, p), p) == Merge(n, p)
    ensures Merge(n, NoChanges) == n
  {
  }

  /** `toStoredNote`: keeps the ten persisted fields and drops the rest. */
  function ToStored(n: Note): StoredNote {
    StoredNote(n.id, n.content, n.x, n.y, n.width, n.height, n.color, n.rotation, n.zIndex, n.decorMode)
  }

  /** A stored record read back as a note (the transient fields absent). */
  function FromStored(s: StoredNote): Note {
    Note(s.id, s.x, s.y, s.width, s.height, s.content, s.color, s.zIndex, s.rotation, s.decorMode, None, None, None)
  }

  /** Two notes agree on every field the store keeps. */
  predicate SamePersisted(n: Note, m: Note) {
    && n.id == m.id && n.content == m.content && n.x == m.x && n.y == m.y
    && n.width == m.width && n.height == m.height && n.color == m.color
    && n.rotation == m.rotation && n.zIndex == m.zIndex && n.decorMode == m.decorMode
  }

  /** The projection sees exactly the ten persisted fields: two notes project to the
      same record if and only if they agree on those fields, whatever else differs. */
  lemma ToStoredExactly(n: Note, m: Note)
    ensures ToStored(n) == ToStored(m) <==> SamePersisted(n, m)
    ensures SamePersisted(n, FromStored(ToStored(n)))
  {
  }

  /** Projecting an already projected record gives the same record back. */
  lemma ToStoredIdempotent(s: StoredNote, n: Note)
    ensures ToStored(FromStored(s)) == s
    ensures ToStored(FromStored(ToStored(n))) == ToStored(n)
  {
  }

  const DefaultContent := "type something..."
  const DefaultWidth := 200.0
  const DefaultHeight := 150.0

  /** `createNote(getCenterPosition, partial)`: `center` is what `getCenterPosition()`
      returned, `freshId` the `uuidv4()` value, `randomColor` the `getRandomColor()` value. */
  function CreateNote(center: Option<Point>, partial: Patch, freshId: string, randomColor: string): Note {
    var defaults := Note(
      freshId,
      if center.Some? then center.value.x else 0.0,
      if center.Some? then center.value.y else 0.0,
      partial.width.GetOr(DefaultWidth),
      partial.height.GetOr(DefaultHeight),
      partial.content.GetOr(DefaultContent),
      partial.color.GetOr(randomColor),
      Some(partial.zIndex.GetOr(1)),
      Some(partial.rotation.GetOr(0.0)),
      None, None, None, None);
    Merge(defaults, partial)
  }

  /** With an empty partial every default shows: the fresh id, the centre (or the
      origin when there is no centre), 200 x 150, the placeholder text, rotation 0, layer 1. */
  lemma CreateNoteDefaults(center: Option<Point>, freshId: string, randomColor: string)
    ensures var n := CreateNote(center, NoChanges, freshId, randomColor);
      && n.id == freshId
      && n.x == (if center.Some? then center.value.x else 0.0)
      && n.y == (if center.Some? then center.value.y else 0.0)
      && n.width == 200.0 && n.height == 150.0
      && n.content == "type something..." && n.color == randomColor
      && n.rotation == Some(0.0) && n.zIndex == Some(1)
      && n.decorMode == None
  {
  }

  /** Every key the partial carries, including `id`, `x` and `y`, overrides the
      default or generated value, because the spread comes last. */
  lemma CreateNotePartialWins(center: Option<Point>, partial: Patch, freshId: string, randomColor: string)
    ensures var n := CreateNote(center, partial, freshId, randomColor);
      && (partial.id.Some? ==> n.id == partial.id.value)
      && (partial.x.Some? ==> n.x == partial.x.value)
      && (partial.y.Some? ==> n.y == partial.y.value)
      && (partial.width.Some? ==> n.width == partial.width.value)
      && (partial.height.Some? ==> n.height == partial.height.value)
      && (partial.content.Some? ==> n.content == partial.content.value)
      && (partial.zIndex.Some? ==> n.zIndex == partial.zIndex)
      && (partial.rotation.Some? ==> n.rotation == partial.rotation)
      && (partial.decorMode.Some? ==> n.decorMode == partial.decorMode)
    ensures CreateNote(center, partial, freshId, randomColor)
         == Merge(CreateNote(center, NoChanges, freshId, randomColor), partial)
  {
  }
}
