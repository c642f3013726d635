/**
 * The snip tool (snip-tool/main.py): a floating icon that can be dragged,
 * a full-screen window where the user drags out the region to capture, and
 * an editor that draws pens, rectangles and text over the capture with an
 * undo stack.
 *
 * A Tk canvas is modelled by the items it shows, bottom to top, and the id
 * it gives its next item: Tk numbers items from 1 upward and, with nothing
 * raised or lowered, stacks them in creation order.
 */
module SnipTool {
  import opened Common

  // ----- Canvases -----

  datatype Shape =
    | Line(x1: int, y1: int, x2: int, y2: int)
    | Rectangle(x1: int, y1: int, x2: int, y2: int)
    | TextItem(x: int, y: int, text: string)
    | Picture
  datatype Item = Item(id: nat, shape: Shape)

  /** The ids of the items, bottom to top: `canvas.find_all()`. */
  function Ids(items: seq<Item>): (ids: seq<nat>)
    ensures |ids| == |items|
    ensures forall k :: 0 <= k < |items| ==> ids[k] == items[k].id
  {
    seq(|items|, k requires 0 <= k < |items| => items[k].id)
  }

  /** Ids increase from bottom to top and are all below the next id to give. */
  predicate Numbered(items: seq<Item>, nextId: nat)
  {
    (forall i, j :: 0 <= i < j < |items| ==> items[i].id < items[j].id)
    && (forall k :: 0 <= k < |items| ==> 1 <= items[k].id < nextId)
  }

  /** `canvas.delete(id)`: the item with that id goes, if there is one. */
  function Without(items: seq<Item>, id: nat): (r: seq<Item>)
    ensures |r| <= |items|
  {
    if |items| == 0 then []
    else
      var rest := Without(items[1..], id);
      if items[0].id == id then rest else [items[0]] + rest
  }

  /** Exactly the items with other ids stay; with no item of that id, nothing changes. */
  lemma {:induction false} WithoutMembers(items: seq<Item>, id: nat)
    ensures forall it :: it in Without(items, id) <==> it in items && it.id != id
    ensures (forall it :: it in items ==> it.id != id) ==> Without(items, id) == items
  {
    if |items| > 0 {
      WithoutMembers(items[1..], id);
      assert items == [items[0]] + items[1..];
    }
  }

  /** Deleting an item keeps the canvas numbered: the rest keep their order. */
  lemma {:induction false} WithoutNumbered(items: seq<Item>, id: nat, nextId: nat)
    requires Numbered(items, nextId)
    ensures Numbered(Without(items, id), nextId)
  {
    if |items| > 0 {
      var tail := items[1..];
      TailNumbered(items, nextId);
      WithoutNumbered(tail, id, nextId);
      if items[0].id != id {
        HeadBelowWithout(items, id, nextId);
        ConsNumbered(items[0], Without(tail, id), nextId);
      }
    }
  }

  lemma TailNumbered(items: seq<Item>, nextId: nat)
    requires |items| > 0 && Numbered(items, nextId)
    ensures Numbered(items[1..], nextId)
  {
    var tail := items[1..];
    forall i, j | 0 <= i < j < |tail|
      ensures tail[i].id < tail[j].id
    {
      assert tail[i] == items[i + 1] && tail[j] == items[j + 1];
    }
  }

  lemma HeadBelowWithout(items: seq<Item>, id: nat, nextId: nat)
    requires |items| > 0 && Numbered(items, nextId)
    ensures forall it :: it in Without(items[1..], id) ==> items[0].id < it.id
  {
    var tail := items[1..];
    WithoutMembers(tail, id);
    forall it | it in Without(tail, id)
      ensures items[0].id < it.id
    {
      var k :| 0 <= k < |tail| && tail[k] == it;
      assert items[k + 1] == it;
    }
  }

  lemma ConsNumbered(first: Item, rest: seq<Item>, nextId: nat)
    requires Numbered(rest, nextId) && 1 <= first.id < nextId
    requires forall it :: it in rest ==> first.id < it.id
    ensures Numbered([first] + rest, nextId)
  {
    var r := [first] + rest;
    forall i, j | 0 <= i < j < |r|
      ensures r[i].id < r[j].id
    {
      assert r[j] == rest[j - 1];
      if i > 0 {
        assert r[i] == rest[i - 1];
      }
    }
    forall k | 0 <= k < |r|
      ensures 1 <= r[k].id < nextId
    {
      if k > 0 {
        assert r[k] == rest[k - 1];
      }
    }
  }

  /** Deleting the top item of two leaves the bottom one. */
  lemma WithoutTop(bottom: Item, top: Item)
    requires bottom.id != top.id
    ensures Without([bottom, top], top.id) == [bottom]
  {
    assert [bottom, top][1..] == [top];
    assert [top][1..] == [];
  }

  // ----- The floating icon -----

  const IconSize := 60

  /** `(screen - 60) // 2`: Python's `//` rounds down, as Dafny's `/` does for a positive divisor. */
  function CentredOrigin(screen: int): (x: int)
    ensures 0 <= (screen - IconSize) - 2 * x <= 1
  {
    (screen - IconSize) / 2
  }

  /** The icon's window position and the point where the last drag grabbed it. */
  class Icon {
    var x: int
    var y: int
    var dragStartX: int
    var dragStartY: int

    /** Placed in the middle of the screen; the odd pixel, if any, is on the right and at the bottom. */
    constructor (screenWidth: int, screenHeight: int)
      ensures x == CentredOrigin(screenWidth) && y == CentredOrigin(screenHeight)
      ensures dragStartX == 0 && dragStartY == 0
    {
      x := CentredOrigin(screenWidth);
      y := CentredOrigin(screenHeight);
      dragStartX := 0;
      dragStartY := 0;
    }

    /** `start_drag`: remembers where on the icon the button went down. */
    method StartDrag(eventX: int, eventY: int)
      modifies this`dragStartX, this`dragStartY
      ensures dragStartX == eventX && dragStartY == eventY
    {
      dragStartX := eventX;
      dragStartY := eventY;
    }

    /**
     * `on_drag`: the icon moves so that the point grabbed at `start_drag` is
     * where the pointer now is (the event is relative to the icon's old place).
     */
    method OnDrag(eventX: int, eventY: int)
      modifies this`x, this`y
      ensures x + dragStartX == old(x) + eventX && y + dragStartY == old(y) + eventY
    {
      x := x + eventX - dragStartX;
      y := y + eventY - dragStartY;
    }
  }

  // ----- Choosing the region -----

  /** A region with its corners ordered: left <= right, top <= bottom. */
  datatype Region = Region(x1: int, y1: int, x2: int, y2: int)

  function Min(a: int, b: int): int { if a <= b then a else b }
  function Max(a: int, b: int): int { if a <= b then b else a }

  /** The region spanned by the press and the release point, whichever way the drag went. */
  function Selection(startX: int, startY: int, endX: int, endY: int): (r: Region)
    ensures r.x1 <= r.x2 && r.y1 <= r.y2
    ensures r.x1 <= startX <= r.x2 && r.x1 <= endX <= r.x2
    ensures r.y1 <= startY <= r.y2 && r.y1 <= endY <= r.y2
    ensures (r.x1 == startX && r.x2 == endX) || (r.x1 == endX && r.x2 == startX)
    ensures (r.y1 == startY && r.y2 == endY) || (r.y1 == endY && r.y2 == startY)
  {
    Region(Min(startX, endX), Min(startY, endY), Max(startX, endX), Max(startY, endY))
  }

  /** Swapping the press and the release point gives the same region. */
  lemma SelectionSymmetric(ax: int, ay: int, bx: int, bY: int)
    ensures Selection(ax, ay, bx, bY) == Selection(bx, bY, ax, ay)
  {
  }

  /** The minimum-size rule: more than ten pixels each way. */
  predicate LargeEnough(r: Region)
  {
    r.x2 - r.x1 > 10 && r.y2 - r.y1 > 10
  }

  /** What the capture window hands `on_complete`: the region grabbed, or none with `success=False`. */
  datatype Completion = Completion(grabbed: Option<Region>, success: bool)

  /** The full-screen capture window: the press point and the selection rectangle drawn on its canvas. */
  class CaptureWindow {
    var startX: Option<int>
    var startY: Option<int>
    var rectId: Option<nat>
    var items: seq<Item>
    var nextId: nat
    const hint: Item

    /** The canvas shows the hint and at most one selection rectangle, the one `rectId` names. */
    ghost predicate Valid()
      reads this
    {
      Numbered(items, nextId)
      && (startX.Some? <==> startY.Some?)
      && |items| >= 1 && items[0] == hint
      && (rectId.None? ==> items == [hint])
      && (rectId.Some? ==> |items| == 2 && items[1].id == rectId.value && items[1].shape.Rectangle?)
    }

    /** The window opens with only the centred hint on its canvas and no press yet. */
    constructor (screenWidth: int, screenHeight: int)
      ensures Valid() && startX.None? && rectId.None?
      ensures hint == Item(1, TextItem(screenWidth / 2, screenHeight / 2, "拖动鼠标选择截图区域，按ESC取消"))
    {
      startX, startY, rectId := None, None, None;
      hint := Item(1, TextItem(screenWidth / 2, screenHeight / 2, "拖动鼠标选择截图区域，按ESC取消"));
      items := [Item(1, TextItem(screenWidth / 2, screenHeight / 2, "拖动鼠标选择截图区域，按ESC取消"))];
      nextId := 2;
    }

    /** `on_mouse_down`. */
    method OnMouseDown(eventX: int, eventY: int)
      requires Valid()
      modifies this`startX, this`startY
      ensures Valid() && startX == Some(eventX) && startY == Some(eventY)
    {
      startX := Some(eventX);
      startY := Some(eventY);
    }

    /** `on_mouse_drag`: before any press, nothing; otherwise the old rectangle is replaced by one from the press point to here. */
    method OnMouseDrag(eventX: int, eventY: int)
      requires Valid()
      modifies this`rectId, this`items, this`nextId
      ensures Valid()
      ensures old(startX).None? ==> rectId == old(rectId) && items == old(items) && nextId == old(nextId)
      ensures old(startX).Some? ==>
                items == [hint, Item(old(nextId), Rectangle(startX.value, startY.value, eventX, eventY))]
                && rectId == Some(old(nextId)) && nextId == old(nextId) + 1
    {
      if startX.None? {
        return;
      }
      if rectId.Some? {
        assert items == [hint, items[1]];
        WithoutTop(hint, items[1]);
        items := Without(items, rectId.value);
      }
      assert hint.id < nextId;
      var id := nextId;
      items := items + [Item(id, Rectangle(startX.value, startY.value, eventX, eventY))];
      rectId := Some(id);
      nextId := nextId + 1;
    }

    /**
     * `on_mouse_up`: before any press, nothing (None). Otherwise the region
     * is the press and release points with ordered corners; it is grabbed
     * only when more than ten pixels each way and the grab does not fail.
     */
    method OnMouseUp(eventX: int, eventY: int, grabFails: bool) returns (done: Option<Completion>)
      requires Valid()
      ensures startX.None? ==> done == None
      ensures startX.Some? ==>
                var r := Selection(startX.value, startY.value, eventX, eventY);
                done == Some(if LargeEnough(r) && !grabFails then Completion(Some(r), true) else Completion(None, false))
    {
      if startX.None? {
        return None;
      }
      var x1 := Min(startX.value, eventX);
      var y1 := Min(startY.value, eventY);
      var x2 := Max(startX.value, eventX);
      var y2 := Max(startY.value, eventY);
      if x2 - x1 > 10 && y2 - y1 > 10 {
        if grabFails {
          done := Some(Completion(None, false));
        } else {
          done := Some(Completion(Some(Region(x1, y1, x2, y2)), true));
        }
      } else {
        done := Some(Completion(None, false));
      }
    }

    /** `cancel` (Escape): nothing grabbed. */
    method Cancel() returns (done: Completion)
      ensures done == Completion(None, false)
    {
      done := Completion(None, false);
    }
  }

  /** A grabbed region is at least 11 pixels each way and lies between the two points of the drag. */
  lemma GrabbedRegion(startX: int, startY: int, endX: int, endY: int)
    requires LargeEnough(Selection(startX, startY, endX, endY))
    ensures var r := Selection(startX, startY, endX, endY);
            r.x2 - r.x1 >= 11 && r.y2 - r.y1 >= 11
            && (startX < endX ==> r.x1 == startX && r.x2 == endX)
            && (endX < startX ==> r.x1 == endX && r.x2 == startX)
  {
  }

  // ----- The editor -----

  /**
   * The undo entry of a pen stroke as written: the topmost canvas item,
   * whichever stroke drew it, or nothing on an empty canvas.
   */
  function PenRecordAsWritten(items: seq<Item>): (r: Option<nat>)
    ensures r.Some? <==> |items| > 0
    ensures r.Some? ==> r.value == items[|items| - 1].id
  {
    if |items| > 0 then Some(items[|items| - 1].id) else None
  }

  /**
   * The undo entry a pen stroke is meant to leave: its last segment, that is
   * the topmost item if this stroke (whose first id is `strokeStart`) drew it,
   * and nothing when the stroke drew no segment.
   */
  function PenRecord(items: seq<Item>, strokeStart: nat): (r: Option<nat>)
    ensures r.Some? ==> r.value >= strokeStart && r == PenRecordAsWritten(items)
    ensures PenRecordAsWritten(items).Some? && PenRecordAsWritten(items).value >= strokeStart ==> r == PenRecordAsWritten(items)
  {
    if |items| > 0 && items[|items| - 1].id >= strokeStart then Some(items[|items| - 1].id) else None
  }

  /**
   * A pen click without motion on a freshly loaded capture: as written the
   * undo stack receives the screenshot's own item (id 1), so the next undo
   * deletes the screenshot; the intended record is nothing.
   */
  lemma PenClickRecordsScreenshot()
    ensures PenRecordAsWritten([Item(1, Picture)]) == Some(1)
    ensures PenRecord([Item(1, Picture)], 2) == None
    ensures !Sound([Item(1, Picture)], [1], 2)
  {
    assert Item(1, Picture) in [Item(1, Picture)];
  }

  class Editor {
    var drawing: bool
    var lastX: Option<int>
    var lastY: Option<int>
    var drawObjects: seq<nat>
    var currentTool: string
    var items: seq<Item>
    var nextId: nat
    /** The first id the current stroke may give (kept only for the corrected `EndDrawCorrected`). */
    var strokeStart: nat

    ghost predicate Valid()
      reads this
    {
      Numbered(items, nextId) && nextId >= 1
      && (drawing ==> lastX.Some? && lastY.Some?)
      && strokeStart <= nextId
    }

    /** The undo stack as intended (see `Sound`). */
    ghost predicate UndoStackSound()
      reads this
    {
      Sound(items, drawObjects, nextId)
    }

    constructor ()
      ensures Valid() && UndoStackSound()
      ensures !drawing && drawObjects == [] && items == [] && currentTool == "pen"
    {
      drawing := false;
      lastX, lastY := None, None;
      drawObjects := [];
      currentTool := "pen";
      items := [];
      nextId := 1;
      strokeStart := 1;
    }

    /** `load_screenshot`, as far as the canvas goes: cleared, then the picture as the bottom item. */
    method LoadScreenshot()
      requires Valid() && UndoStackSound() && drawObjects == []
      modifies this`items, this`nextId
      ensures Valid() && UndoStackSound()
      ensures items == [Item(old(nextId), Picture)] && nextId == old(nextId) + 1
    {
      items := [Item(nextId, Picture)];
      nextId := nextId + 1;
    }

    /** `_add_text`: a non-empty answer from the dialog becomes a text item, recorded for undo. */
    method AddText(x: int, y: int, answer: Option<string>)
      requires Valid()
      modifies this`items, this`nextId, this`drawObjects
      ensures Valid()
      ensures !Truthy(answer) ==> items == old(items) && nextId == old(nextId) && drawObjects == old(drawObjects)
      ensures Truthy(answer) ==>
                items == old(items) + [Item(old(nextId), TextItem(x, y, answer.value))]
                && drawObjects == old(drawObjects) + [old(nextId)] && nextId == old(nextId) + 1
      ensures old(UndoStackSound()) ==> UndoStackSound()
    {
      if Truthy(answer) {
        var id := nextId;
        ghost var before := Ids(items);
        items := items + [Item(id, TextItem(x, y, answer.value))];
        drawObjects := drawObjects + [id];
        nextId := nextId + 1;
        if old(UndoStackSound()) {
          RecordNew(old(items), old(drawObjects), id, Item(id, TextItem(x, y, answer.value)));
        }
      }
    }

    /** `start_draw`: drawing from this point with the selected tool; the text tool asks for its text at once. */
    method StartDraw(x: int, y: int, tool: string, answer: Option<string>)
      requires Valid()
      modifies this
      ensures Valid() && drawing && lastX == Some(x) && lastY == Some(y) && currentTool == tool
      ensures strokeStart == old(nextId)
      ensures tool == "pen" && old(UndoStackSound()) ==> StrokeIsFresh()
      ensures tool != "text" || !Truthy(answer) ==>
                items == old(items) && nextId == old(nextId) && drawObjects == old(drawObjects)
      ensures tool == "text" && Truthy(answer) ==>
                items == old(items) + [Item(old(nextId), TextItem(x, y, answer.value))]
                && drawObjects == old(drawObjects) + [old(nextId)] && nextId == old(nextId) + 1
      ensures old(UndoStackSound()) ==> UndoStackSound()
    {
      drawing := true;
      lastX, lastY := Some(x), Some(y);
      currentTool := tool;
      strokeStart := nextId;
      if tool == "text" {
        AddText(x, y, answer);
      }
    }

    /** `draw`: only while drawing with the pen, one more segment from the last point to here. */
    method Draw(x: int, y: int)
      requires Valid()
      modifies this`items, this`nextId, this`lastX, this`lastY
      ensures Valid()
      ensures !(old(drawing) && currentTool == "pen") ==> unchanged(this)
      ensures old(drawing) && currentTool == "pen" ==>
                items == old(items) + [Item(old(nextId), Line(old(lastX).value, old(lastY).value, x, y))]
                && nextId == old(nextId) + 1 && lastX == Some(x) && lastY == Some(y)
      ensures old(UndoStackSound()) ==> UndoStackSound()
      ensures old(StrokeIsFresh()) ==> StrokeIsFresh()
    {
      if !drawing {
        return;
      }
      if currentTool == "pen" {
        var id := nextId;
        items := items + [Item(id, Line(lastX.value, lastY.value, x, y))];
        nextId := nextId + 1;
        lastX, lastY := Some(x), Some(y);
        if old(UndoStackSound()) {
          AddItem(old(items), drawObjects, id, Item(id, Line(old(lastX).value, old(lastY).value, x, y)));
        }
      }
    }

    /**
     * `end_draw` as written: a rectangle from the stroke's start point to
     * here is drawn and recorded; a pen stroke records the topmost canvas
     * item; drawing stops in every case.
     */
    method EndDraw(x: int, y: int)
      requires Valid()
      modifies this`items, this`nextId, this`drawObjects, this`drawing
      ensures Valid() && !drawing
      ensures !old(drawing) ==> items == old(items) && nextId == old(nextId) && drawObjects == old(drawObjects)
      ensures old(drawing) && currentTool == "rectangle" ==>
                items == old(items) + [Item(old(nextId), Rectangle(lastX.value, lastY.value, x, y))]
                && drawObjects == old(drawObjects) + [old(nextId)] && nextId == old(nextId) + 1
      ensures old(drawing) && currentTool == "pen" ==>
                items == old(items) && nextId == old(nextId)
                && var entry := PenRecordAsWritten(items);
                   drawObjects == old(drawObjects) + (if entry.Some? then [entry.value] else [])
      ensures old(drawing) && currentTool != "rectangle" && currentTool != "pen" ==>
                items == old(items) && nextId == old(nextId) && drawObjects == old(drawObjects)
    {
      if !drawing {
        return;
      }
      if currentTool == "rectangle" {
        var id := nextId;
        items := items + [Item(id, Rectangle(lastX.value, lastY.value, x, y))];
        nextId := nextId + 1;
        drawObjects := drawObjects + [id];
      } else if currentTool == "pen" {
        var all := Ids(items);
        if |all| > 0 {
          drawObjects := drawObjects + [all[|all| - 1]];
        }
      }
      drawing := false;
    }

    /**
     * `end_draw` with the pen stroke recording only a segment it drew
     * itself: the undo stack then stays sound.
     */
    method EndDrawCorrected(x: int, y: int)
      requires Valid()
      modifies this`items, this`nextId, this`drawObjects, this`drawing
      ensures Valid() && !drawing
      ensures !old(drawing) ==> items == old(items) && nextId == old(nextId) && drawObjects == old(drawObjects)
      ensures old(drawing) && currentTool == "pen" ==>
                items == old(items) && nextId == old(nextId)
                && var entry := PenRecord(items, strokeStart);
                   drawObjects == old(drawObjects) + (if entry.Some? then [entry.value] else [])
      ensures old(drawing) && currentTool == "rectangle" ==>
                items == old(items) + [Item(old(nextId), Rectangle(lastX.value, lastY.value, x, y))]
                && drawObjects == old(drawObjects) + [old(nextId)] && nextId == old(nextId) + 1
      ensures old(UndoStackSound()) && (old(drawing) && currentTool == "pen" ==> old(StrokeIsFresh())) ==> UndoStackSound()
    {
      if !drawing {
        return;
      }
      if currentTool == "rectangle" {
        RecordRectangle(x, y);
      } else if currentTool == "pen" {
        RecordStroke();
      }
      drawing := false;
    }

    /** The rectangle from the stroke's start point to here, drawn and recorded. */
    method RecordRectangle(x: int, y: int)
      requires Valid() && drawing
      modifies this`items, this`nextId, this`drawObjects
      ensures Valid()
      ensures items == old(items) + [Item(old(nextId), Rectangle(lastX.value, lastY.value, x, y))]
      ensures drawObjects == old(drawObjects) + [old(nextId)] && nextId == old(nextId) + 1
      ensures old(UndoStackSound()) ==> UndoStackSound()
    {
      var id := nextId;
      var it := Item(id, Rectangle(lastX.value, lastY.value, x, y));
      AppendNumbered(items, nextId, it);
      if UndoStackSound() {
        RecordNew(items, drawObjects, id, it);
      }
      items := items + [it];
      nextId := nextId + 1;
      drawObjects := drawObjects + [id];
    }

    /** The intended record of a pen stroke: its last segment, if it drew one. */
    method RecordStroke()
      requires Valid()
      modifies this`drawObjects
      ensures var entry := PenRecord(items, strokeStart);
              drawObjects == old(drawObjects) + (if entry.Some? then [entry.value] else [])
      ensures old(UndoStackSound()) && old(StrokeIsFresh()) ==> UndoStackSound()
    {
      var entry := PenRecord(items, strokeStart);
      if entry.Some? {
        if UndoStackSound() && StrokeIsFresh() {
          RecordTop(items, drawObjects, nextId, strokeStart);
        }
        drawObjects := drawObjects + [entry.value];
      }
    }

    /** Every item the current stroke drew is a segment, above every recorded entry. */
    ghost predicate StrokeIsFresh()
      reads this
    {
      (forall k :: 0 <= k < |drawObjects| ==> drawObjects[k] < strokeStart)
      && (forall it :: it in items && it.id >= strokeStart ==> !it.shape.Picture?)
    }

    /** `undo`: the most recent entry is popped and its item deleted; nothing on an empty stack. */
    method Undo()
      requires Valid()
      modifies this`drawObjects, this`items
      ensures Valid()
      ensures old(drawObjects) == [] ==> drawObjects == [] && items == old(items)
      ensures old(drawObjects) != [] ==>
                var gone := old(drawObjects)[|old(drawObjects)| - 1];
                drawObjects == old(drawObjects)[..|old(drawObjects)| - 1]
                && items == Without(old(items), gone)
      ensures old(UndoStackSound()) ==> UndoStackSound()
    {
      if |drawObjects| > 0 {
        var id := drawObjects[|drawObjects| - 1];
        WithoutNumbered(items, id, nextId);
        if UndoStackSound() {
          UndoKeepsSound(items, drawObjects, nextId);
        }
        drawObjects := drawObjects[..|drawObjects| - 1];
        items := Without(items, id);
      }
    }

    /** `clear_all`: the canvas and the undo stack both emptied. */
    method ClearAll()
      requires Valid()
      modifies this`drawObjects, this`items
      ensures Valid() && UndoStackSound()
      ensures items == [] && drawObjects == []
    {
      items := [];
      drawObjects := [];
    }
  }

  /**
   * The undo stack as intended: every entry is an item still on the
   * canvas, never the screenshot, each once and in the order drawn.
   */
  ghost predicate Sound(items: seq<Item>, stack: seq<nat>, nextId: nat)
  {
    (forall i, j :: 0 <= i < j < |stack| ==> stack[i] < stack[j])
    && (forall k :: 0 <= k < |stack| ==> stack[k] in Ids(items) && stack[k] < nextId)
    && (forall it :: it in items && it.id in stack ==> !it.shape.Picture?)
  }

  /** A new item, numbered with the next id, goes on top. */
  lemma AppendNumbered(items: seq<Item>, nextId: nat, it: Item)
    requires Numbered(items, nextId) && nextId >= 1 && it.id == nextId
    ensures Numbered(items + [it], nextId + 1)
  {
  }

  lemma IdsAppend(items: seq<Item>, it: Item)
    ensures Ids(items + [it]) == Ids(items) + [it.id]
  {
  }

  /** Drawing a new item that is not recorded keeps the stack sound. */
  lemma AddItem(items: seq<Item>, stack: seq<nat>, nextId: nat, it: Item)
    requires Numbered(items, nextId) && Sound(items, stack, nextId) && it.id == nextId
    ensures Sound(items + [it], stack, nextId + 1)
  {
    IdsAppend(items, it);
  }

  /** Drawing a new item and recording it keeps the stack sound. */
  lemma RecordNew(items: seq<Item>, stack: seq<nat>, nextId: nat, it: Item)
    requires Numbered(items, nextId) && Sound(items, stack, nextId)
    requires it.id == nextId && !it.shape.Picture?
    ensures Sound(items + [it], stack + [it.id], nextId + 1)
  {
    IdsAppend(items, it);
    var stack' := stack + [it.id];
    forall x | x in items + [it] && x.id in stack'
      ensures !x.shape.Picture?
    {
      if x != it {
        assert x in items;
        assert x.id < nextId;
        assert x.id in stack;
      }
    }
  }

  /** Recording the topmost item, drawn by the current stroke, keeps the stack sound. */
  lemma RecordTop(items: seq<Item>, stack: seq<nat>, nextId: nat, strokeStart: nat)
    requires Sound(items, stack, nextId) && Numbered(items, nextId)
    requires |items| > 0 && items[|items| - 1].id >= strokeStart
    requires forall k :: 0 <= k < |stack| ==> stack[k] < strokeStart
    requires forall it :: it in items && it.id >= strokeStart ==> !it.shape.Picture?
    ensures Sound(items, stack + [items[|items| - 1].id], nextId)
  {
    assert Ids(items)[|items| - 1] == items[|items| - 1].id;
  }

  /** Popping the top entry and deleting its item keeps the stack sound. */
  lemma UndoKeepsSound(items: seq<Item>, stack: seq<nat>, nextId: nat)
    requires |stack| > 0 && Sound(items, stack, nextId)
    ensures Sound(Without(items, stack[|stack| - 1]), stack[..|stack| - 1], nextId)
  {
    var gone := stack[|stack| - 1];
    var rest := Without(items, gone);
    WithoutMembers(items, gone);
    var stack' := stack[..|stack| - 1];
    forall k | 0 <= k < |stack'|
      ensures stack'[k] in Ids(rest)
    {
      assert stack[k] in Ids(items);
      var i :| 0 <= i < |items| && Ids(items)[i] == stack[k];
      assert items[i] in rest;
      var j :| 0 <= j < |rest| && rest[j] == items[i];
      assert Ids(rest)[j] == stack'[k];
    }
  }
}
