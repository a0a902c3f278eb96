/** The list transforms behind every note store of the board (`hooks/useNotes.ts`,
    `hooks/useHeliodorNotes.ts`, `App.tsx`): merge an update into the notes with a
    given id (`map`), drop the notes with a given id (`filter`), and move one note a
    layer up or down (copy the array, write one index). */
module NoteList {
  import opened Common
  import opened NoteRecords

  /** The `map` of `updateNote`: every note whose id matches gets the update merged
      over it; the others, the length and the order stay as they were. */
  function UpdateNotes(notes: seq<Note>, id: string, p: Patch): (r: seq<Note>)
    ensures |r| == |notes|
    ensures forall i :: 0 <= i < |notes| && notes[i].id != id ==> r[i] == notes[i]
    ensures forall i :: 0 <= i < |notes| && notes[i].id == id ==> r[i] == Merge(notes[i], p)
  {
    seq(|notes|, i requires 0 <= i < |notes| => if notes[i].id == id then Merge(notes[i], p) else notes[i])
  }

  /** An id no note carries leaves the list as it was. */
  lemma UpdateAbsentId(notes: seq<Note>, id: string, p: Patch)
    requires forall n :: n in notes ==> n.id != id
    ensures UpdateNotes(notes, id, p) == notes
  {
  }

  /** Applying the same update twice is applying it once (even one that renames the
      note); an update that does not rename the note keeps every id in place. */
  lemma UpdateIdempotent(notes: seq<Note>, id: string, p: Patch)
    ensures UpdateNotes(UpdateNotes(notes, id, p), id, p) == UpdateNotes(notes, id, p)
    ensures p.id.None? ==> forall i :: 0 <= i < |notes| ==> UpdateNotes(notes, id, p)[i].id == notes[i].id
  {
    var once := UpdateNotes(notes, id, p);
    forall i | 0 <= i < |notes|
      ensures UpdateNotes(once, id, p)[i] == once[i]
    {
      MergeIdempotent(notes[i], p);
    }
  }

  /** The store writes of `updateNote`: one `put` of the merged record per matching
      note, in list order, and none when no note matches (`UpdatePutsCount`,
      `UpdatePutsRecords`, `UpdatePutsInOrder`). */
  function UpdatePuts(notes: seq<Note>, id: string, p: Patch): (ops: seq<DbOp>)
    ensures |ops| <= |notes|
    ensures forall k :: 0 <= k < |ops| ==> ops[k].Put?
    ensures p.id.None? ==> forall k :: 0 <= k < |ops| ==> ops[k].record.id == id
    ensures (forall n :: n in notes ==> n.id != id) ==> ops == []
    decreases |notes|
  {
    if notes == [] then []
    else (if notes[0].id == id then [Put(ToStored(Merge(notes[0], p)))] else [])
         + UpdatePuts(notes[1..], id, p)
  }

  /** There are exactly as many puts as notes the update matches: the notes a delete
      of that id would drop. */
  lemma {:induction false} UpdatePutsCount(notes: seq<Note>, id: string, p: Patch)
    ensures |UpdatePuts(notes, id, p)| + |DeleteNotes(notes, id)| == |notes|
    decreases |notes|
  {
    if notes != [] {
      UpdatePutsCount(notes[1..], id, p);
    }
  }

  /** Each put stores the merged record of a note the update matches. */
  lemma {:induction false} UpdatePutsRecords(notes: seq<Note>, id: string, p: Patch)
    ensures forall k :: 0 <= k < |UpdatePuts(notes, id, p)| ==>
      exists i :: 0 <= i < |notes| && notes[i].id == id
        && UpdatePuts(notes, id, p)[k] == Put(ToStored(Merge(notes[i], p)))
    decreases |notes|
  {
    if notes == [] {
      assert UpdatePuts(notes, id, p) == [];
    } else {
      var tail := notes[1..];
      UpdatePutsRecords(tail, id, p);
      var head := if notes[0].id == id then [Put(ToStored(Merge(notes[0], p)))] else [];
      var rest := UpdatePuts(tail, id, p);
      var ops := UpdatePuts(notes, id, p);
      assert ops == head + rest;
      forall k | 0 <= k < |ops|
        ensures exists i :: 0 <= i < |notes| && notes[i].id == id && ops[k] == Put(ToStored(Merge(notes[i], p)))
      {
        if k < |head| {
          assert notes[0].id == id && ops[k] == Put(ToStored(Merge(notes[0], p)));
        } else {
          assert ops[k] == rest[k - |head|];
          var j :| 0 <= j < |tail| && tail[j].id == id && rest[k - |head|] == Put(ToStored(Merge(tail[j], p)));
          assert notes[j + 1] == tail[j];
          assert notes[j + 1].id == id && ops[k] == Put(ToStored(Merge(notes[j + 1], p)));
        }
      }
    }
  }

  /** The puts of a list are the puts of its first part followed by those of the rest,
      so the records are stored in list order. */
  lemma {:induction false} UpdatePutsInOrder(a: seq<Note>, b: seq<Note>, id: string, p: Patch)
    ensures UpdatePuts(a + b, id, p) == UpdatePuts(a, id, p) + UpdatePuts(b, id, p)
    decreases |a|
  {
    if a == [] {
      assert a + b == b;
    } else {
      var head := if a[0].id == id then [Put(ToStored(Merge(a[0], p)))] else [];
      assert (a + b)[0] == a[0];
      assert (a + b)[1..] == a[1..] + b;
      assert UpdatePuts(a + b, id, p) == head + UpdatePuts(a[1..] + b, id, p);
      assert UpdatePuts(a, id, p) == head + UpdatePuts(a[1..], id, p);
      UpdatePutsInOrder(a[1..], b, id, p);
    }
  }

  /** A single note gives one put of its merged record exactly when it matches. */
  lemma UpdatePutsSingle(n: Note, id: string, p: Patch)
    ensures UpdatePuts([n], id, p) == if n.id == id then [Put(ToStored(Merge(n, p)))] else []
  {
    assert [n][1..] == [];
  }

  /** The `filter` of `deleteNote`: drops exactly the notes carrying `id`. */
  function DeleteNotes(notes: seq<Note>, id: string): (r: seq<Note>)
    ensures |r| <= |notes|
    ensures forall n :: n in r <==> n in notes && n.id != id
    decreases |notes|
  {
    if notes == [] then []
    else (if notes[0].id == id then [] else [notes[0]]) + DeleteNotes(notes[1..], id)
  }

  /** Deleting works piece by piece, so the surviving notes keep their relative order. */
  lemma {:induction false} DeleteKeepsOrder(a: seq<Note>, b: seq<Note>, id: string)
    ensures DeleteNotes(a + b, id) == DeleteNotes(a, id) + DeleteNotes(b, id)
    decreases |a|
  {
    if a == [] {
      assert a + b == b;
    } else {
      assert (a + b)[1..] == a[1..] + b;
      DeleteKeepsOrder(a[1..], b, id);
    }
  }

  /** Deleting an id no note carries changes nothing, and deleting twice is deleting once. */
  lemma {:induction false} DeleteAbsentId(notes: seq<Note>, id: string)
    requires forall n :: n in notes ==> n.id != id
    ensures DeleteNotes(notes, id) == notes
    decreases |notes|
  {
    if notes != [] {
      DeleteAbsentId(notes[1..], id);
    }
  }

  lemma DeleteIdempotent(notes: seq<Note>, id: string)
    ensures DeleteNotes(DeleteNotes(notes, id), id) == DeleteNotes(notes, id)
  {
    DeleteAbsentId(DeleteNotes(notes, id), id);
  }

  /** `[...prev, newNote]` */
  function Append(notes: seq<Note>, n: Note): (r: seq<Note>)
    ensures |r| == |notes| + 1 && r[..|notes|] == notes && r[|notes|] == n
  {
    notes + [n]
  }

  /** The partial `addGuideNote` passes to `createNote`: a 500 x 300 note holding `text`. */
  function GuidePatch(text: string): Patch {
    NoChanges.(width := Some(500.0), height := Some(300.0), content := Some(text))
  }

  /** The guide note is 500 x 300 and holds the guide text, whatever the defaults are. */
  lemma GuideNoteShape(center: Option<Point>, text: string, freshId: string, randomColor: string)
    ensures var n := CreateNote(center, GuidePatch(text), freshId, randomColor);
      n.width == 500.0 && n.height == 300.0 && n.content == text && n.id == freshId
      && n.rotation == Some(0.0) && n.zIndex == Some(1)
  {
  }

  datatype Direction = Up | Down

  /** `Math.max(0, (zIndex ?? 1) + (up ? 1 : -1))` */
  function NewZ(z: Option<int>, d: Direction): (r: int)
    ensures r >= 0
    ensures d == Up ==> r == MaxInt(0, z.GetOr(1) + 1)
    ensures d == Down ==> r == MaxInt(0, z.GetOr(1) - 1)
  {
    MaxInt(0, z.GetOr(1) + (if d == Up then 1 else -1))
  }

  /** One layer up then one down returns a non-negative layer to where it was; one
      down from layer 0 stays at 0. */
  lemma NewZRoundTrip(z: Option<int>)
    requires z.GetOr(1) >= 0
    ensures NewZ(Some(NewZ(z, Up)), Down) == z.GetOr(1)
    ensures z.GetOr(1) == 0 ==> NewZ(z, Down) == 0
  {
  }

  /** `k` is where `findIndex` stops: the first note carrying `id`. */
  predicate IsFirstIndex(notes: seq<Note>, id: string, k: nat) {
    k < |notes| && notes[k].id == id && forall j :: 0 <= j < k ==> notes[j].id != id
  }

  /** `notes.findIndex((n) => n.id === id)`, with `None` for `-1`. */
  method FindIndex(notes: seq<Note>, id: string) returns (k: Option<nat>)
    ensures k.Some? ==> IsFirstIndex(notes, id, k.value)
    ensures k.None? <==> forall j :: 0 <= j < |notes| ==> notes[j].id != id
  {
    var i := 0;
    while i < |notes|
      invariant 0 <= i <= |notes|
      invariant forall j :: 0 <= j < i ==> notes[j].id != id
    {
      if notes[i].id == id {
        return Some(i);
      }
      i := i + 1;
    }
    return None;
  }

  /** The `moveNoteZIndex` updater: an unknown id returns the list as it was; otherwise
      the first note with that id, and only it, gets its layer moved. */
  method MoveZIndex(notes: seq<Note>, id: string, d: Direction) returns (r: seq<Note>)
    ensures (forall j :: 0 <= j < |notes| ==> notes[j].id != id) ==> r == notes
    ensures forall k: nat :: IsFirstIndex(notes, id, k) ==>
      r == notes[k := notes[k].(zIndex := Some(NewZ(notes[k].zIndex, d)))]
  {
    var found := FindIndex(notes, id);
    if found.None? {
      return notes;
    }
    var index := found.value;
    var target := notes[index];
    var updated := new Note[|notes|](i requires 0 <= i < |notes| => notes[i]);
    var newZ := NewZ(target.zIndex, d);
    updated[index] := target.(zIndex := Some(newZ));
    r := updated[..];
    assert forall k: nat :: IsFirstIndex(notes, id, k) ==> k == index;
  }

  /** After a move the layer of the moved note is never negative, every other entry
      is as it was, and the length is kept. */
  lemma MoveZIndexEffect(notes: seq<Note>, id: string, d: Direction, k: nat)
    requires IsFirstIndex(notes, id, k)
    ensures var r := notes[k := notes[k].(zIndex := Some(NewZ(notes[k].zIndex, d)))];
      && |r| == |notes|
      && r[k].zIndex.value >= 0
      && r[k].id == id
      && (forall j :: 0 <= j < |notes| && j != k ==> r[j] == notes[j])
  {
  }
}
