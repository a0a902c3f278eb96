/** The state of the Emerald page (`pages/Emerald.tsx`): the strokes already drawn on
    the page canvas, the floating notes, the selected note and the creation counter.
    Every handler replaces the state by a new value, so each is a function here. */
module EmeraldPage {
  import opened Common

  /** A note applied to the page canvas (`NoteDraw`). */
  datatype NoteDraw = NoteDraw(content: string, x: real, y: real, width: real, height: real, rotation: real)

  /** `EmeraldNoteData`: every field is present. */
  datatype EmeraldNote = EmeraldNote(
    id: string,
    x: real,
    y: real,
    width: real,
    height: real,
    content: string,
    color: string,
    zIndex: int,
    rotation: real,
    decorMode: bool,
    isActive: bool,
    lockDecor: bool,
    scale: real)

  /** A `Partial<EmeraldNoteProps>`: `Some` for each key the update carries. */
  datatype EmeraldPatch = EmeraldPatch(
    id: Option<string>,
    x: Option<real>,
    y: Option<real>,
    width: Option<real>,
    height: Option<real>,
    content: Option<string>,
    color: Option<string>,
    zIndex: Option<int>,
    rotation: Option<real>,
    isActive: Option<bool>,
    scale: Option<real>)

  const NoEmeraldChanges := EmeraldPatch(None, None, None, None, None, None, None, None, None, None, None)

  /** `{ ...note, ...updates }` */
  function MergeEmerald(n: EmeraldNote, p: EmeraldPatch): EmeraldNote {
    n.(id := p.id.GetOr(n.id), x := p.x.GetOr(n.x), y := p.y.GetOr(n.y),
       width := p.width.GetOr(n.width), height := p.height.GetOr(n.height),
       content := p.content.GetOr(n.content), color := p.color.GetOr(n.color),
       zIndex := p.zIndex.GetOr(n.zIndex), rotation := p.rotation.GetOr(n.rotation),
       isActive := p.isActive.GetOr(n.isActive), scale := p.scale.GetOr(n.scale))
  }

  datatype EmeraldState = EmeraldState(
    draws: seq<NoteDraw>,
    notes: seq<EmeraldNote>,
    activeNoteId: Option<string>,
    noteCounter: nat)

  /** The page as first shown. */
  const Initial := EmeraldState([], [], None, 0)

  /** `handleApplyNote`: the draw record goes to the end of the list; nothing else changes. */
  function ApplyNote(s: EmeraldState, d: NoteDraw): (r: EmeraldState)
    ensures |r.draws| == |s.draws| + 1 && r.draws[..|s.draws|] == s.draws && r.draws[|s.draws|] == d
    ensures r.(draws := s.draws) == s
  {
    s.(draws := s.draws + [d])
  }

  /** The decimal digits of `n`, as a template literal prints them. */
  function NatToString(n: nat): (r: string)
    ensures |r| >= 1
    ensures forall i :: 0 <= i < |r| ==> '0' <= r[i] <= '9'
    decreases n
  {
    var d := [(('0' as int) + n % 10) as char];
    if n < 10 then d else NatToString(n / 10) + d
  }

  /** Different numbers print differently. */
  lemma {:induction false} NatToStringInjective(m: nat, n: nat)
    requires NatToString(m) == NatToString(n)
    ensures m == n
    decreases m
  {
    var sm, sn := NatToString(m), NatToString(n);
    assert sm[|sm| - 1] == sn[|sn| - 1];
    assert m % 10 == n % 10;
    if m >= 10 && n >= 10 {
      assert sm[..|sm| - 1] == NatToString(m / 10);
      assert sn[..|sn| - 1] == NatToString(n / 10);
      NatToStringInjective(m / 10, n / 10);
    }
  }

  /** `emerald-${Date.now()}-${noteCounter}`, with `now` the clock reading. */
  function EmeraldId(now: nat, counter: nat): string {
    "emerald-" + NatToString(now) + "-" + NatToString(counter)
  }

  /** Two notes created at the same clock reading get different ids, because the
      counter differs. */
  lemma EmeraldIdsDistinct(now: nat, c1: nat, c2: nat)
    requires c1 != c2
    ensures EmeraldId(now, c1) != EmeraldId(now, c2)
  {
    var prefix := "emerald-" + NatToString(now) + "-";
    if EmeraldId(now, c1) == EmeraldId(now, c2) {
      assert EmeraldId(now, c1) == prefix + NatToString(c1);
      assert EmeraldId(now, c2) == prefix + NatToString(c2);
      assert NatToString(c1) == EmeraldId(now, c1)[|prefix|..];
      assert NatToString(c2) == EmeraldId(now, c2)[|prefix|..];
      NatToStringInjective(c1, c2);
    }
  }

  /** `createEmeraldNote`: a blank 200 x 150 note placed 20 units further down and
      right than the previous one and one layer higher, selected, with the counter
      advanced; `now` is `Date.now()` and `color` the random colour. */
  function CreateEmeraldNote(s: EmeraldState, now: nat, color: string): (r: EmeraldState)
    ensures |r.notes| == |s.notes| + 1 && r.notes[..|s.notes|] == s.notes
    ensures var n := r.notes[|s.notes|];
      && n.id == EmeraldId(now, s.noteCounter)
      && n.x == 100.0 + (s.noteCounter as real) * 20.0 && n.y == n.x
      && n.width == 200.0 && n.height == 150.0 && n.content == "" && n.color == color
      && n.zIndex == s.noteCounter + 1 && n.rotation == 0.0 && n.scale == 1.0
      && !n.decorMode && !n.isActive && !n.lockDecor
      && r.activeNoteId == Some(n.id)
    ensures r.noteCounter == s.noteCounter + 1 && r.draws == s.draws
  {
    var offset := 100.0 + (s.noteCounter as real) * 20.0;
    var newNote := EmeraldNote(EmeraldId(now, s.noteCounter), offset, offset, 200.0, 150.0, "", color,
                               s.noteCounter + 1, 0.0, false, false, false, 1.0);
    EmeraldState(s.draws, s.notes + [newNote], Some(newNote.id), s.noteCounter + 1)
  }

  /** `updateEmeraldNote`: the matching notes get the update merged over them. */
  function UpdateEmeraldNote(s: EmeraldState, id: string, p: EmeraldPatch): (r: EmeraldState)
    ensures |r.notes| == |s.notes|
    ensures forall i :: 0 <= i < |s.notes| ==>
      r.notes[i] == if s.notes[i].id == id then MergeEmerald(s.notes[i], p) else s.notes[i]
    ensures r.(notes := s.notes) == s
  {
    s.(notes := seq(|s.notes|, i requires 0 <= i < |s.notes| =>
      if s.notes[i].id == id then MergeEmerald(s.notes[i], p) else s.notes[i]))
  }

  /** The `filter` of `deleteEmeraldNote`. */
  function Without(notes: seq<EmeraldNote>, id: string): (r: seq<EmeraldNote>)
    ensures |r| <= |notes|
    ensures forall n :: n in r <==> n in notes && n.id != id
    decreases |notes|
  {
    if notes == [] then []
    else (if notes[0].id == id then [] else [notes[0]]) + Without(notes[1..], id)
  }

  /** `deleteEmeraldNote`: drops the notes carrying `id`, and clears the selection
      only when it was that note. */
  function DeleteEmeraldNote(s: EmeraldState, id: string): (r: EmeraldState)
    ensures forall n :: n in r.notes <==> n in s.notes && n.id != id
    ensures r.activeNoteId == if s.activeNoteId == Some(id) then None else s.activeNoteId
    ensures r.draws == s.draws && r.noteCounter == s.noteCounter
  {
    EmeraldState(s.draws, Without(s.notes, id),
                 if s.activeNoteId == Some(id) then None else s.activeNoteId,
                 s.noteCounter)
  }

  /** `activateEmeraldNote`: a note is marked active exactly when it carries `id`,
      and `id` becomes the selection. */
  function ActivateEmeraldNote(s: EmeraldState, id: string): (r: EmeraldState)
    ensures |r.notes| == |s.notes|
    ensures forall i :: 0 <= i < |s.notes| ==> r.notes[i] == s.notes[i].(isActive := s.notes[i].id == id)
    ensures forall i :: 0 <= i < |r.notes| ==> (r.notes[i].isActive <==> r.notes[i].id == id)
    ensures r.activeNoteId == Some(id) && r.draws == s.draws && r.noteCounter == s.noteCounter
  {
    EmeraldState(s.draws,
                 seq(|s.notes|, i requires 0 <= i < |s.notes| => s.notes[i].(isActive := s.notes[i].id == id)),
                 Some(id), s.noteCounter)
  }

  /** No two notes share an id. */
  predicate UniqueIds(notes: seq<EmeraldNote>) {
    forall i, j :: 0 <= i < j < |notes| ==> notes[i].id != notes[j].id
  }

  /** With distinct ids, activation leaves at most one note marked active, and exactly
      one when some note carries the id. */
  lemma ActivationExclusive(s: EmeraldState, id: string)
    requires UniqueIds(s.notes)
    ensures var r := ActivateEmeraldNote(s, id);
      && (forall i, j :: 0 <= i < |r.notes| && 0 <= j < |r.notes| && r.notes[i].isActive && r.notes[j].isActive ==> i == j)
      && ((exists k :: 0 <= k < |s.notes| && s.notes[k].id == id) <==> (exists k :: 0 <= k < |r.notes| && r.notes[k].isActive))
  {
  }

  /** The counter can be read back from an id: the digits after the last `-`. */
  lemma EmeraldIdCounter(t1: nat, c1: nat, t2: nat, c2: nat)
    requires EmeraldId(t1, c1) == EmeraldId(t2, c2)
    ensures c1 == c2
  {
    var x := EmeraldId(t1, c1);
    var p1, p2 := "emerald-" + NatToString(t1) + "-", "emerald-" + NatToString(t2) + "-";
    var d1, d2 := NatToString(c1), NatToString(c2);
    assert x == p1 + d1 && x == p2 + d2;
    assert x[|p1| - 1] == '-' && x[|p2| - 1] == '-';
    assert forall j :: |p1| <= j < |x| ==> x[j] == d1[j - |p1|];
    assert forall j :: |p2| <= j < |x| ==> x[j] == d2[j - |p2|];
    assert |p1| == |p2|;
    assert d1 == x[|p1|..] && d2 == x[|p2|..];
    NatToStringInjective(c1, c2);
  }

  /** Every id on the page was made by `createEmeraldNote` with a counter value below
      the current one. */
  ghost predicate IdsBelowCounter(s: EmeraldState) {
    forall n :: n in s.notes ==> exists t: nat, c: nat :: c < s.noteCounter && n.id == EmeraldId(t, c)
  }

  /** Creating a note keeps the ids distinct, whatever the clock says, because the new
      id carries the current counter and every earlier id a smaller one; activation
      leaves the ids alone. */
  lemma CreateKeepsUniqueIds(s: EmeraldState, now: nat, color: string, id: string)
    requires UniqueIds(s.notes) && IdsBelowCounter(s)
    ensures UniqueIds(Initial.notes) && IdsBelowCounter(Initial)
    ensures var r := CreateEmeraldNote(s, now, color); UniqueIds(r.notes) && IdsBelowCounter(r)
    ensures var r := ActivateEmeraldNote(s, id); UniqueIds(r.notes) && IdsBelowCounter(r)
  {
    var r := CreateEmeraldNote(s, now, color);
    var newId := EmeraldId(now, s.noteCounter);
    assert r.notes == s.notes + [r.notes[|s.notes|]];
    forall i | 0 <= i < |s.notes|
      ensures s.notes[i].id != newId
    {
      assert s.notes[i] in s.notes;
      var t: nat, c: nat :| c < s.noteCounter && s.notes[i].id == EmeraldId(t, c);
      if s.notes[i].id == newId {
        EmeraldIdCounter(t, c, now, s.noteCounter);
      }
    }
    forall n | n in r.notes
      ensures exists t: nat, c: nat :: c < r.noteCounter && n.id == EmeraldId(t, c)
    {
      if n in s.notes {
        var t: nat, c: nat :| c < s.noteCounter && n.id == EmeraldId(t, c);
        assert c < r.noteCounter;
      } else {
        assert n.id == EmeraldId(now, s.noteCounter);
      }
    }
    var a := ActivateEmeraldNote(s, id);
    forall n | n in a.notes
      ensures exists t: nat, c: nat :: c < a.noteCounter && n.id == EmeraldId(t, c)
    {
      var i :| 0 <= i < |a.notes| && a.notes[i] == n;
      assert s.notes[i] in s.notes;
    }
  }

  /** Every layer lies between 1 and the counter. */
  predicate LayersBelowCounter(s: EmeraldState) {
    forall n :: n in s.notes ==> 1 <= n.zIndex <= s.noteCounter
  }

  /** The page starts with the layer bound, and every handler keeps it (an update
      only when it brings no layer or one within the bound); so a newly created note
      is strictly above every note already on the page. */
  lemma LayersBelowCounterKept(s: EmeraldState, now: nat, color: string, id: string, p: EmeraldPatch, d: NoteDraw)
    requires LayersBelowCounter(s)
    requires p.zIndex.Some? ==> 1 <= p.zIndex.value <= s.noteCounter
    ensures LayersBelowCounter(Initial)
    ensures LayersBelowCounter(CreateEmeraldNote(s, now, color))
    ensures LayersBelowCounter(UpdateEmeraldNote(s, id, p))
    ensures LayersBelowCounter(DeleteEmeraldNote(s, id))
    ensures LayersBelowCounter(ActivateEmeraldNote(s, id))
    ensures LayersBelowCounter(ApplyNote(s, d))
    ensures var r := CreateEmeraldNote(s, now, color);
      forall n :: n in s.notes ==> n.zIndex < r.notes[|s.notes|].zIndex
  {
    var c := CreateEmeraldNote(s, now, color);
    forall n | n in c.notes
      ensures 1 <= n.zIndex <= c.noteCounter
    {
      var k :| 0 <= k < |c.notes| && c.notes[k] == n;
      if k < |s.notes| {
        assert n == s.notes[k];
      }
    }
    var u := UpdateEmeraldNote(s, id, p);
    forall n | n in u.notes
      ensures 1 <= n.zIndex <= u.noteCounter
    {
      var k :| 0 <= k < |u.notes| && u.notes[k] == n;
      assert s.notes[k] in s.notes;
    }
    var a := ActivateEmeraldNote(s, id);
    forall n | n in a.notes
      ensures 1 <= n.zIndex <= a.noteCounter
    {
      var k :| 0 <= k < |a.notes| && a.notes[k] == n;
      assert s.notes[k] in s.notes;
    }
  }
}
