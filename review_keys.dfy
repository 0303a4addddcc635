/** Keyboard handling of the review screen (src/hooks/useReviewKeys.ts):
    spatial navigation over the keep, maybe and yeet columns with a selection
    and a focused image, and the batch reclassification shortcuts. The store's
    `reclassifyBatch` is not modelled; a key press that would call it returns
    the call instead. */
module ReviewKeys {
  import opened Optional
  import opened JsRecord
  import opened AppStore

  /** The columns, left to right. */
  const Columns: seq<Classification> := [Keep, Maybe, Yeet]

  function ColumnIndex(c: Classification): (i: nat)
    ensures i < 3 && Columns[i] == c
  {
    match c
    case Keep => 0
    case Maybe => 1
    case Yeet => 2
  }

  /** The images of column `i`. */
  function Col(b: Buckets, i: nat): (col: seq<ImageFile>)
    requires i < 3
    ensures col == b.Of(Columns[i])
  {
    if i == 0 then b.keep else if i == 1 then b.maybe else b.yeet
  }

  function Max(a: int, b: int): int { if a >= b then a else b }

  datatype Location = Location(column: Classification, index: nat)

  datatype Key = ArrowUp | ArrowDown | ArrowLeft | ArrowRight | Enter | Backspace | OtherKey
  {
    predicate IsVertical() { this == ArrowUp || this == ArrowDown }
    predicate IsHorizontal() { this == ArrowLeft || this == ArrowRight }
  }

  datatype KeyEvent = KeyEvent(key: Key, shift: bool, alt: bool, ctrl: bool, meta: bool)

  /** A call of the store's `reclassifyBatch(ids, target)`. */
  datatype BatchCall = BatchCall(ids: seq<string>, target: Classification)

  /** What a key press leaves behind: the selection (a `Set` in insertion
      order), the focused id, and the batch call it made, if any. */
  datatype Outcome = Outcome(selection: seq<string>, focus: Option<string>, batch: Option<BatchCall>)

  /** A JavaScript `if (!id)` test fails for `null` and for the empty string. */
  predicate Truthy(id: Option<string>) { id.Some? && id.value != "" }

  /** `column.findIndex(img => img.id === id)`, with `None` for -1. */
  function FindIndex(column: seq<ImageFile>, id: string): (r: Option<nat>)
    ensures r.None? <==> forall i :: 0 <= i < |column| ==> column[i].id != id
    ensures r.Some? ==> r.value < |column| && column[r.value].id == id
    ensures r.Some? ==> forall j :: 0 <= j < r.value ==> column[j].id != id
  {
    if column == [] then None
    else if column[0].id == id then Some(0)
    else
      match FindIndex(column[1..], id)
      case None => None
      case Some(k) => Some(k + 1)
  }

  /** The column and row of an id: the first column, in keep, maybe, yeet
      order, that holds it, and its first row there. */
  function FindImageLocation(b: Buckets, id: Option<string>): (loc: Option<Location>)
    ensures !Truthy(id) ==> loc.None?
    ensures Truthy(id) && loc.None? ==>
      forall c: nat, i :: c < 3 && 0 <= i < |Col(b, c)| ==> Col(b, c)[i].id != id.value
    ensures loc.Some? ==> (Truthy(id) &&
      var col := b.Of(loc.value.column);
      && loc.value.index < |col| && col[loc.value.index].id == id.value
      && (forall j :: 0 <= j < loc.value.index ==> col[j].id != id.value)
      && (forall c: nat, i :: c < ColumnIndex(loc.value.column) && 0 <= i < |Col(b, c)| ==>
            Col(b, c)[i].id != id.value))
  {
    if !Truthy(id) then None
    else match FindIndex(b.keep, id.value)
      case Some(i) => Some(Location(Keep, i))
      case None =>
        match FindIndex(b.maybe, id.value)
        case Some(i) => Some(Location(Maybe, i))
        case None =>
          match FindIndex(b.yeet, id.value)
          case Some(i) => Some(Location(Yeet, i))
          case None => None
  }

  /** The leftmost non-empty column. */
  function FirstNonEmpty(b: Buckets): (c: Option<nat>)
    ensures c.None? <==> forall j: nat :: j < 3 ==> Col(b, j) == []
    ensures c.Some? ==> (c.value < 3 && Col(b, c.value) != [] &&
      forall j: nat :: j < c.value ==> Col(b, j) == [])
  {
    assert Col(b, 0) == b.keep && Col(b, 1) == b.maybe && Col(b, 2) == b.yeet;
    if b.keep != [] then Some(0)
    else if b.maybe != [] then Some(1)
    else if b.yeet != [] then Some(2)
    else None
  }

  /** With nothing focused, an arrow selects and focuses the first image of
      the first non-empty column; with every column empty nothing changes. */
  function Bootstrap(b: Buckets, selection: seq<string>, focus: Option<string>): Outcome {
    match FirstNonEmpty(b)
    case None => Outcome(selection, focus, None)
    case Some(c) => Outcome([Col(b, c)[0].id], Some(Col(b, c)[0].id), None)
  }

  /** The column `k` steps from `c` in direction `d`, wrapping around. */
  function Step(c: nat, d: int, k: nat): (t: nat)
    requires c < 3 && (d == 1 || d == -1) && k <= 3
    ensures t < 3
    ensures d == 1 ==> t == (c + k + 3) % 3
    ensures d == -1 ==> t == (c - k + 3) % 3
  {
    var s: int := c + (if d == 1 then k as int else -(k as int)) + 3;
    if s >= 6 then s - 6 else if s >= 3 then s - 3 else s
  }

  /** The number of steps, 1 to 3, to the first non-empty column met going
      from `c` in direction `d`; the third step is `c` itself. */
  function NonEmptyStep(b: Buckets, c: nat, d: int): (k: Option<nat>)
    requires c < 3 && (d == 1 || d == -1)
    ensures k.Some? ==> (1 <= k.value <= 3 && Col(b, Step(c, d, k.value)) != [] &&
      forall j: nat :: 1 <= j < k.value ==> Col(b, Step(c, d, j)) == [])
    ensures k.None? <==> forall j: nat :: 1 <= j <= 3 ==> Col(b, Step(c, d, j)) == []
    ensures Col(b, c) != [] ==> k.Some?
  {
    assert Step(c, d, 3) == c;
    if Col(b, Step(c, d, 1)) != [] then Some(1)
    else if Col(b, Step(c, d, 2)) != [] then Some(2)
    else if Col(b, Step(c, d, 3)) != [] then Some(3)
    else None
  }

  /** The row a vertical arrow moves to, clamped to the column. */
  function VerticalTarget(index: nat, len: nat, up: bool): (r: nat)
    requires index < len
    ensures r < len
    ensures up ==> r == if index == 0 then 0 else index - 1
    ensures !up ==> r == if index == len - 1 then index else index + 1
  {
    if up then Max(0, index - 1) else Min(len - 1, index + 1)
  }

  /** The bucket an Enter or Backspace press sends the selection to. */
  function ShortcutTarget(e: KeyEvent): (t: Option<Classification>)
    ensures t == Some(Maybe) <==> (e.meta || e.ctrl) && (e.key == Enter || e.key == Backspace)
    ensures t == Some(Keep) <==> e.key == Enter && !e.shift && !e.meta && !e.ctrl
    ensures t == Some(Yeet) <==> e.key == Backspace && !e.shift && !e.meta && !e.ctrl
  {
    if (e.meta || e.ctrl) && (e.key == Enter || e.key == Backspace) then Some(Maybe)
    else if e.key == Enter && !e.shift && !e.meta && !e.ctrl then Some(Keep)
    else if e.key == Backspace && !e.shift && !e.meta && !e.ctrl then Some(Yeet)
    else None
  }

  /** The loop that selects and focuses the first image of the first non-empty column. */
  method SelectFirstImage(b: Buckets, selection: seq<string>, focus: Option<string>) returns (out: Outcome)
    ensures out == Bootstrap(b, selection, focus)
  {
    out := Outcome(selection, focus, None);
    for i := 0 to 3
      invariant forall j: nat :: j < i ==> Col(b, j) == []
      invariant out == Outcome(selection, focus, None)
    {
      if Col(b, i) != [] {
        var firstId := Col(b, i)[0].id;
        out := Outcome([firstId], Some(firstId), None);
        break;
      }
    }
  }

  /** Up and Down: the neighbouring row of the focused image's column,
      clamped; Shift adds it to the selection, otherwise it replaces it. */
  method MoveVertical(b: Buckets, selection: seq<string>, focus: Option<string>, up: bool, shift: bool)
    returns (out: Outcome)
    ensures out.batch.None?
    ensures var loc := FindImageLocation(b, focus);
      if loc.None? then out == Bootstrap(b, selection, focus)
      else
        var col := b.Of(loc.value.column);
        var id := col[VerticalTarget(loc.value.index, |col|, up)].id;
        if id == "" then out == Outcome(selection, focus, None)
        else out == Outcome(if shift then SetAdd(selection, id) else [id], Some(id), None)
  {
    var location := FindImageLocation(b, focus);
    if location.None? {
      out := SelectFirstImage(b, selection, focus);
      return;
    }
    var currentColumn := b.Of(location.value.column);
    var newIndex := if up then Max(0, location.value.index - 1)
                    else Min(|currentColumn| - 1, location.value.index + 1);
    var newImageId := currentColumn[newIndex].id;
    if newImageId == "" {
      out := Outcome(selection, focus, None);
      return;
    }
    var next: seq<string>;
    if shift {
      next := SetAdd(selection, newImageId);
    } else {
      next := [newImageId];
    }
    out := Outcome(next, Some(newImageId), None);
  }

  /** Left and Right without a batch move: the nearest non-empty column in
      that direction, wrapping around, at the same row or its last one. */
  method MoveHorizontal(b: Buckets, selection: seq<string>, focus: Option<string>, direction: int)
    returns (out: Outcome)
    requires direction == 1 || direction == -1
    ensures out.batch.None?
    ensures var loc := FindImageLocation(b, focus);
      if loc.None? then out == Bootstrap(b, selection, focus)
      else
        var c := ColumnIndex(loc.value.column);
        var k := NonEmptyStep(b, c, direction);
        && k.Some?
        && var col := Col(b, Step(c, direction, k.value));
           var id := col[Min(loc.value.index, |col| - 1)].id;
           out == Outcome([id], Some(id), None)
  {
    var location := FindImageLocation(b, focus);
    if location.None? {
      out := SelectFirstImage(b, selection, focus);
      return;
    }
    out := Outcome(selection, focus, None);
    var colIndex := ColumnIndex(location.value.column);
    for i := 1 to 4
      invariant forall j: nat :: 1 <= j < i ==> Col(b, Step(colIndex, direction, j)) == []
    {
      var newColIndex := Step(colIndex, direction, i);
      var newColumn := Col(b, newColIndex);
      if |newColumn| > 0 {
        var newIndex := Min(location.value.index, |newColumn| - 1);
        var newImageId := newColumn[newIndex].id;
        out := Outcome([newImageId], Some(newImageId), None);
        FirstNonEmptyStepIs(b, colIndex, direction, i);
        return;
      }
    }
    ThirdStepIsStart(b, colIndex, direction);
    assert false;
  }

  /** Three steps around lead back to a non-empty starting column. */
  lemma ThirdStepIsStart(b: Buckets, c: nat, d: int)
    requires c < 3 && (d == 1 || d == -1) && Col(b, c) != []
    ensures Col(b, Step(c, d, 3)) != []
  {
    assert Step(c, d, 3) == c;
  }

  /** The first non-empty column met is the one `NonEmptyStep` finds. */
  lemma FirstNonEmptyStepIs(b: Buckets, c: nat, d: int, i: nat)
    requires c < 3 && (d == 1 || d == -1) && 1 <= i <= 3
    requires Col(b, Step(c, d, i)) != []
    requires forall j: nat :: 1 <= j < i ==> Col(b, Step(c, d, j)) == []
    ensures NonEmptyStep(b, c, d) == Some(i)
  {
  }

  /** The key-down handler. `inReviewView` is false when another view is
      shown (no listener is installed); `typing` is true when the event comes
      from a text input. */
  method HandleKeyDown(inReviewView: bool, typing: bool, b: Buckets, selection: seq<string>,
                       focus: Option<string>, e: KeyEvent)
    returns (out: Outcome)
    ensures !inReviewView || typing ==> out == Outcome(selection, focus, None)
    // after a batch call, nothing is selected or focused
    ensures out.batch.Some? ==>
      out.selection == [] && out.focus.None? && out.batch.value.ids == selection && selection != []
    // Up and Down
    ensures inReviewView && !typing && e.key.IsVertical() ==>
      out.batch.None? && (FindImageLocation(b, focus).None? ==> out == Bootstrap(b, selection, focus))
    // Alt+Left/Right with a selection and a focus: the adjacent column, no wrap
    ensures inReviewView && !typing && e.key.IsHorizontal() && e.alt && selection != [] &&
            FindImageLocation(b, focus).Some? ==>
      var t := ColumnIndex(FindImageLocation(b, focus).value.column) + (if e.key == ArrowLeft then -1 else 1);
      out == if 0 <= t < 3 then Outcome([], None, Some(BatchCall(selection, Columns[t])))
             else Outcome(selection, focus, None)
    // Left/Right otherwise never calls the store
    ensures inReviewView && !typing && e.key.IsHorizontal() &&
            !(e.alt && selection != [] && FindImageLocation(b, focus).Some?) ==>
      out.batch.None? && (FindImageLocation(b, focus).None? ==> out == Bootstrap(b, selection, focus))
    // Enter and Backspace: move the whole selection, if there is one
    ensures inReviewView && !typing && !e.key.IsVertical() && !e.key.IsHorizontal() ==>
      out == if selection == [] || ShortcutTarget(e).None? then Outcome(selection, focus, None)
             else Outcome([], None, Some(BatchCall(selection, ShortcutTarget(e).value)))
  {
    out := Outcome(selection, focus, None);
    if !inReviewView || typing {
      return;
    }

    if e.key == ArrowUp || e.key == ArrowDown {
      out := MoveVertical(b, selection, focus, e.key == ArrowUp, e.shift);
      return;
    }

    if e.key == ArrowLeft || e.key == ArrowRight {
      var direction: int := if e.key == ArrowLeft then -1 else 1;
      var location := FindImageLocation(b, focus);
      if e.alt && |selection| > 0 && location.Some? {
        var targetColIndex := ColumnIndex(location.value.column) + direction;
        if 0 <= targetColIndex < 3 {
          out := Outcome([], None, Some(BatchCall(selection, Columns[targetColIndex])));
        }
        return;
      }
      out := MoveHorizontal(b, selection, focus, direction);
      return;
    }

    if |selection| == 0 {
      return;
    }
    if (e.meta || e.ctrl) && (e.key == Enter || e.key == Backspace) {
      out := Outcome([], None, Some(BatchCall(selection, Maybe)));
      return;
    }
    if e.key == Enter && !e.shift && !e.meta && !e.ctrl {
      out := Outcome([], None, Some(BatchCall(selection, Keep)));
      return;
    }
    if e.key == Backspace && !e.shift && !e.meta && !e.ctrl {
      out := Outcome([], None, Some(BatchCall(selection, Yeet)));
      return;
    }
  }

  /** When the focused image's column is the only non-empty one, Left and
      Right land on the focused image itself and the selection collapses to it. */
  lemma HorizontalOnlyColumn(b: Buckets, focus: Option<string>, d: int)
    requires d == 1 || d == -1
    requires FindImageLocation(b, focus).Some?
    requires forall j: nat :: j < 3 && j != ColumnIndex(FindImageLocation(b, focus).value.column) ==> Col(b, j) == []
    ensures var loc := FindImageLocation(b, focus).value;
      var c := ColumnIndex(loc.column);
      var k := NonEmptyStep(b, c, d);
      && k == Some(3) && Step(c, d, 3) == c
      && Col(b, c)[Min(loc.index, |Col(b, c)| - 1)].id == focus.value
  {
    var loc := FindImageLocation(b, focus).value;
    var c := ColumnIndex(loc.column);
    assert Step(c, d, 1) != c && Step(c, d, 2) != c;
  }
}
