/** The diagram editor's controller: the list of objects, the selection,
    the cursor and its mode, sticky dragging, and the commands the keys are
    bound to. */
module Editor {
  import opened Wrappers
  import opened Geometry
  import opened Shapes
  import opened Strokes
  import opened Screen
  import opened Drawing
  import opened Records

  // ------------------------------------------------------ sticky dragging

  /** The rectangle around `box` in which a line end sticks to it: the raw
      corners widened by one cell on every side. */
  predicate NearBox(box: Shape, p: Point) {
    p.IsWithin(box.TopLeft().SubSize(Size(1, 1)), box.BottomRight().Add(Size(1, 1)))
  }

  /** A line whose anchor end lies next to `box`. */
  predicate StartConnected(box: Shape, o: Shape) {
    o.Line? && NearBox(box, o.TopLeft())
  }

  /** A line whose far end, but not its anchor end, lies next to `box`. */
  predicate EndConnected(box: Shape, o: Shape) {
    o.Line? && !StartConnected(box, o) && NearBox(box, o.BottomRight())
  }

  /** What dragging `box` by `d` does to another object: a line stuck at
      its start is re-anchored and shortened, a line stuck at its end is
      lengthened, anything else stays. */
  function DragLine(box: Shape, o: Shape, d: Size): Shape {
    if StartConnected(box, o) then o.(position := o.position.Add(d), size := o.size.Add(d.Neg()))
    else if EndConnected(box, o) then o.(size := o.size.Add(d))
    else o
  }

  /** The object list after the selected object at `index` moves by `d`,
      dragging the lines stuck to it when sticky mode is on and it is not
      a line itself. Connection is judged on the list before the move. */
  function Dragged(objects: seq<Shape>, index: int, d: Size, sticky: bool): (r: seq<Shape>)
    requires 0 <= index < |objects|
    ensures |r| == |objects|
  {
    seq(|objects|, i requires 0 <= i < |objects| =>
      if i == index then objects[i].(position := objects[i].position.Add(d))
      else if sticky && !objects[index].Line? then DragLine(objects[index], objects[i], d)
      else objects[i])
  }

  /** Moving a selected object by `d` moves it as a whole, keeps the far
      end of every line stuck at its start and the anchor of every line
      stuck at its end where they were (the stuck end follows the object),
      and leaves everything else alone. Only positions and sizes change. */
  lemma DraggedEndpoints(objects: seq<Shape>, index: int, d: Size, sticky: bool, i: int)
    requires 0 <= index < |objects| && 0 <= i < |objects|
    ensures var r, o, box := Dragged(objects, index, d, sticky), objects[i], objects[index];
      && r[i] == o.(position := r[i].position, size := r[i].size)
      && (i == index ==> r[i].TopLeft() == o.TopLeft().Add(d) && r[i].BottomRight() == o.BottomRight().Add(d))
      && (i != index && sticky && !box.Line? && StartConnected(box, o) ==>
            r[i].TopLeft() == o.TopLeft().Add(d) && r[i].BottomRight() == o.BottomRight())
      && (i != index && sticky && !box.Line? && EndConnected(box, o) ==>
            r[i].TopLeft() == o.TopLeft() && r[i].BottomRight() == o.BottomRight().Add(d))
      && (i != index && !(sticky && !box.Line? && (StartConnected(box, o) || EndConnected(box, o))) ==>
            r[i] == o)
  {
  }

  /** A line end stuck next to a box stays next to it once both have moved
      by the same `d`. */
  lemma {:induction false} DragKeepsContact(box: Shape, o: Shape, d: Size)
    requires StartConnected(box, o) || EndConnected(box, o)
    ensures var moved := box.(position := box.position.Add(d));
      StartConnected(box, o) ==> NearBox(moved, DragLine(box, o, d).TopLeft())
    ensures var moved := box.(position := box.position.Add(d));
      EndConnected(box, o) ==> NearBox(moved, DragLine(box, o, d).BottomRight())
  {
    var moved := box.(position := box.position.Add(d));
    assert moved.TopLeft() == box.TopLeft().Add(d);
    assert moved.BottomRight() == box.BottomRight().Add(d);
  }

  // --------------------------------------------------------------- cursor

  /** The free cursor after a step of (dx, dy): each axis moves only if the
      new coordinate stays on the screen. */
  function CursorStep(c: Point, dx: int, dy: int, width: int, height: int): (r: Point)
    ensures r.x == c.x + dx || r.x == c.x
    ensures r.y == c.y + dy || r.y == c.y
    ensures 0 <= c.x < width ==> 0 <= r.x < width
    ensures 0 <= c.y < height ==> 0 <= r.y < height
    ensures (0 <= c.x + dx < width) ==> r.x == c.x + dx
    ensures (0 <= c.y + dy < height) ==> r.y == c.y + dy
    ensures !(0 <= c.x + dx < width) ==> r.x == c.x
    ensures !(0 <= c.y + dy < height) ==> r.y == c.y
  {
    Point(if 0 <= c.x + dx < width then c.x + dx else c.x,
          if 0 <= c.y + dy < height then c.y + dy else c.y)
  }

  // ------------------------------------------------------------ selection

  /** The selection after Tab: one further on, and none past the end. */
  function NextIndex(index: int, n: int): (r: int)
    ensures -1 <= index < n ==> -1 <= r < n && (r == -1 <==> index == n - 1)
  {
    if index + 1 >= n then -1 else index + 1
  }

  /** The selection after Shift-Tab: one back, from none to the last. */
  function PreviousIndex(index: int, n: int): (r: int)
    ensures -1 <= index < n ==> -1 <= r < n && (r == n - 1 <==> index == -1)
  {
    if index == -1 then n - 1 else index - 1
  }

  /** Cycling forward and backward keep the index in range and undo each
      other: Tab then Shift-Tab, or Shift-Tab then Tab, restores the
      selection. */
  lemma CycleInverse(index: int, n: nat)
    requires -1 <= index < n
    ensures -1 <= NextIndex(index, n) < n && -1 <= PreviousIndex(index, n) < n
    ensures PreviousIndex(NextIndex(index, n), n) == index
    ensures NextIndex(PreviousIndex(index, n), n) == index
    ensures index == n - 1 ==> NextIndex(index, n) == -1
    ensures PreviousIndex(-1, n) == n - 1
  {
  }

  /** Whether the cursor lies on an object, by its raw corners. */
  predicate Covers(o: Shape, p: Point): (r: bool)
    ensures r <==> o.position.x <= p.x <= o.position.x + o.size.w && o.position.y <= p.y <= o.position.y + o.size.h
    ensures o.size.w < 0 || o.size.h < 0 ==> !r
  {
    p.IsWithin(o.TopLeft(), o.BottomRight())
  }

  /** The index of the last object that covers `p`, or -1 if none does. */
  function LastCovering(objects: seq<Shape>, p: Point): (r: int)
    ensures -1 <= r < |objects|
    ensures r >= 0 ==> Covers(objects[r], p)
    ensures forall j :: r < j < |objects| ==> !Covers(objects[j], p)
  {
    if |objects| == 0 then -1
    else if Covers(objects[|objects| - 1], p) then |objects| - 1
    else LastCovering(objects[..|objects| - 1], p)
  }

  // ------------------------------------------------------------ placement

  /** Where a new object goes: beside the selected box (one column right
      of its right edge, half-way down), below the end of a selected
      horizontal line (centred for an object `newWidth` wide), right of the
      end of a selected vertical line (and half its height further down), or at the cursor
      when nothing is selected. The halves are rounded down. */
  function PlacementPoint(selected: Option<Shape>, cursor: Point, newWidth: nat): (r: Point)
    ensures selected.None? ==> r == cursor
    ensures selected.Some? && selected.value.Box? ==>
      && r.x == selected.value.TopRight().x + 1
      && r.y == selected.value.position.y + selected.value.size.h / 2
      && InRect(Point(selected.value.position.x, r.y), selected.value.TopLeft(), selected.value.BottomLeft())
    ensures selected.Some? && selected.value.Line? && selected.value.orientation == Horizontal ==>
      && r.y == selected.value.BottomRight().y + 1
      && r.x + newWidth / 2 == selected.value.BottomRight().x
    ensures selected.Some? && selected.value.Line? && selected.value.orientation != Horizontal ==>
      && r.x == selected.value.BottomRight().x + 1
      && r.y - selected.value.BottomRight().y == selected.value.size.h / 2
  {
    match selected
    case None => cursor
    case Some(o) =>
      if o.Line? then
        if o.orientation == Horizontal then o.BottomRight().Add(Size(-(newWidth / 2), 1))
        else o.BottomRight().Add(Size(1, o.size.h / 2))
      else o.TopRight().Add(Size(1, o.size.h / 2))
  }

  // -------------------------------------------------------------- drawing

  /** The canvas calls drawing every object makes, in list order. */
  function SceneStrokes(objects: seq<Shape>): (r: seq<Stroke>)
    ensures |objects| == 0 ==> r == []
    ensures |objects| == 1 ==> r == ShapeStrokes(objects[0])
  {
    if |objects| == 0 then []
    else
      var init := objects[..|objects| - 1];
      assert |objects| == 1 ==> init == [];
      SceneStrokes(init) + ShapeStrokes(objects[|objects| - 1])
  }

  /** A later object is drawn over the earlier ones: the scene shows, in
      every cell, the last object's drawing over the rest. */
  lemma SceneLayers(objects: seq<Shape>, o: Shape, p: Point, before: char)
    ensures Render(SceneStrokes(objects + [o]), p, before) ==
      Render(ShapeStrokes(o), p, Render(SceneStrokes(objects), p, before))
  {
    assert (objects + [o])[..|objects|] == objects;
    RenderAppend(SceneStrokes(objects), ShapeStrokes(o), p, before);
  }

  // ------------------------------------------------------------- commands

  /** The keys the editor reacts to. Saving and opening files are not part
      of this model. */
  datatype Command =
    | MoveKey(direction: Direction)    // arrows, h j k l
    | ResizeKey(direction: Direction)  // shifted arrows, H J K L
    | Tab | BackTab | Escape | Enter | Space
    | BoxKey | ArrowKey | LineKey | DeleteKey | StickyKey

  /** Everything a key command can change: the objects, the selection, the
      cursor and its mode, and sticky dragging. */
  datatype Editing = Editing(objects: seq<Shape>, selectedIndex: int, cursor: Point, cursorMode: CursorMode, stickyMode: bool)

  function Selected(s: Editing): (r: Option<Shape>)
    ensures r.Some? <==> 0 <= s.selectedIndex < |s.objects|
    ensures r.Some? ==> r.value == s.objects[s.selectedIndex]
  {
    if 0 <= s.selectedIndex < |s.objects| then Some(s.objects[s.selectedIndex]) else None
  }

  /** The state after the command bound to a key, on a screen `width` by
      `height`. */
  function Next(s: Editing, command: Command, width: int, height: int): Editing {
    var n, i := |s.objects|, s.selectedIndex;
    var selected := Selected(s);
    match command
    case MoveKey(d) =>
      if selected.Some? then s.(objects := Dragged(s.objects, i, d.Delta(), s.stickyMode))
      else s.(cursor := CursorStep(s.cursor, d.Delta().w, d.Delta().h, width, height))
    case ResizeKey(d) =>
      if selected.Some? then s.(objects := s.objects[i := selected.value.(size := selected.value.size.Add(d.Delta()))])
      else s
    case Tab =>
      var j := NextIndex(i, n);
      s.(selectedIndex := j, cursorMode := if j == -1 then Hand else Move)
    case BackTab =>
      var j := PreviousIndex(i, n);
      s.(selectedIndex := j, cursorMode := if j == -1 then Hand else Move)
    case Escape => s.(selectedIndex := -1)
    case Enter => if selected.None? then s.(selectedIndex := LastCovering(s.objects, s.cursor)) else s
    case Space => if selected.Some? then s.(objects := s.objects[i := selected.value.Toggle()]) else s
    case BoxKey =>
      s.(objects := s.objects + [NewBox(PlacementPoint(selected, s.cursor, 14), Size(14, 2))], selectedIndex := n)
    case ArrowKey =>
      s.(objects := s.objects + [NewLine(PlacementPoint(selected, s.cursor, 0), true, Size(6, 3))], selectedIndex := n)
    case LineKey =>
      s.(objects := s.objects + [NewLine(PlacementPoint(selected, s.cursor, 0), false, Size(6, 3))], selectedIndex := n)
    case DeleteKey =>
      if selected.Some? then s.(objects := s.objects[..i] + s.objects[i + 1..], selectedIndex := i - 1) else s
    case StickyKey => s.(stickyMode := !s.stickyMode)
  }

  /** Every command keeps the selection either none or an index into the
      list; only Tab and Shift-Tab change the cursor mode, and they leave
      hand mode exactly when something is selected afterwards. */
  lemma NextKeepsSelection(s: Editing, command: Command, width: int, height: int)
    requires -1 <= s.selectedIndex < |s.objects|
    ensures var t := Next(s, command, width, height);
      -1 <= t.selectedIndex < |t.objects|
    ensures var t := Next(s, command, width, height);
      command.Tab? || command.BackTab? ==> (t.cursorMode == Hand <==> t.selectedIndex == -1)
    ensures var t := Next(s, command, width, height);
      !(command.Tab? || command.BackTab?) ==> t.cursorMode == s.cursorMode
  {
  }

  /** Only the move and resize keys change positions and sizes, only the
      move keys move the cursor, and only the add and delete keys change
      how many objects there are. */
  lemma NextFrame(s: Editing, command: Command, width: int, height: int)
    ensures var t := Next(s, command, width, height);
      !command.MoveKey? ==> t.cursor == s.cursor
    ensures var t := Next(s, command, width, height);
      !(command.BoxKey? || command.ArrowKey? || command.LineKey? || command.DeleteKey?) ==> |t.objects| == |s.objects|
    ensures var t := Next(s, command, width, height);
      !command.StickyKey? ==> t.stickyMode == s.stickyMode
    ensures var t := Next(s, command, width, height);
      !(command.MoveKey? || command.ResizeKey? || command.DeleteKey?) ==>
        forall k :: 0 <= k < |s.objects| ==>
          t.objects[k].position == s.objects[k].position && t.objects[k].size == s.objects[k].size
    ensures var t := Next(s, command, width, height);
      command.BoxKey? || command.ArrowKey? || command.LineKey? ==>
        t.objects[..|s.objects|] == s.objects && |t.objects| == |s.objects| + 1 && t.selectedIndex == |s.objects|
  {
  }

  /** Shift-Tab undoes Tab and Tab undoes Shift-Tab, restoring both the
      selection and, from a consistent state, the cursor mode. */
  lemma TabUndone(s: Editing, width: int, height: int)
    requires -1 <= s.selectedIndex < |s.objects|
    ensures Next(Next(s, Tab, width, height), BackTab, width, height).selectedIndex == s.selectedIndex
    ensures Next(Next(s, BackTab, width, height), Tab, width, height).selectedIndex == s.selectedIndex
    ensures (s.cursorMode == Hand <==> s.selectedIndex == -1) ==>
      Next(Next(s, Tab, width, height), BackTab, width, height) == s
  {
    CycleInverse(s.selectedIndex, |s.objects|);
  }

  class Designer {
    const canvas: Canvas
    var objects: seq<Shape>
    var selectedIndex: int
    var cursor: Point
    var cursorMode: CursorMode
    var stickyMode: bool

    /** The selection is either none (-1) or an index into the list. */
    ghost predicate Valid()
      reads this
    {
      canvas.Valid() && -1 <= selectedIndex < |objects|
    }

    /** An empty diagram: nothing selected, cursor at the origin in hand
        mode, sticky dragging on. */
    constructor (canvas: Canvas)
      requires canvas.Valid()
      ensures Valid()
      ensures this.canvas == canvas && objects == [] && selectedIndex == -1
      ensures cursor == Point(0, 0) && cursorMode == Hand && stickyMode
    {
      this.canvas := canvas;
      selectedIndex := -1;
      cursor := Point(0, 0);
      cursorMode := Hand;
      objects := [];
      stickyMode := true;
    }

    /** The selected object, when the index points into the list. */
    function SelectedObject(): (r: Option<Shape>)
      reads this
      ensures r.Some? <==> 0 <= selectedIndex < |objects|
      ensures r.Some? ==> r.value == objects[selectedIndex] && r.value in objects
    {
      if 0 <= selectedIndex < |objects| then Some(objects[selectedIndex]) else None
    }

    /** The indices of the lines stuck to the selected object, at their
        start and (only) at their end, in list order; none when nothing or
        a line is selected. */
    method ConnectedLines() returns (starts: seq<int>, ends: seq<int>)
      requires Valid()
      ensures forall k :: 0 <= k < |starts| ==> 0 <= starts[k] < |objects|
      ensures forall k :: 0 <= k < |ends| ==> 0 <= ends[k] < |objects|
      ensures forall k, k' :: 0 <= k < k' < |starts| ==> starts[k] < starts[k']
      ensures forall k, k' :: 0 <= k < k' < |ends| ==> ends[k] < ends[k']
      ensures SelectedObject().None? || SelectedObject().value.Line? ==> starts == [] && ends == []
      ensures SelectedObject().Some? && !SelectedObject().value.Line? ==>
        forall i :: 0 <= i < |objects| ==>
          && (i in starts <==> StartConnected(objects[selectedIndex], objects[i]))
          && (i in ends <==> EndConnected(objects[selectedIndex], objects[i]))
    {
      starts, ends := [], [];
      if 0 <= selectedIndex < |objects| && !objects[selectedIndex].Line? {
        var box := objects[selectedIndex];
        var i := 0;
        while i < |objects|
          invariant 0 <= i <= |objects|
          invariant forall k :: 0 <= k < |starts| ==> 0 <= starts[k] < i
          invariant forall k :: 0 <= k < |ends| ==> 0 <= ends[k] < i
          invariant forall k, k' :: 0 <= k < k' < |starts| ==> starts[k] < starts[k']
          invariant forall k, k' :: 0 <= k < k' < |ends| ==> ends[k] < ends[k']
          invariant forall j :: 0 <= j < |objects| ==>
            && (j in starts <==> j < i && StartConnected(box, objects[j]))
            && (j in ends <==> j < i && EndConnected(box, objects[j]))
        {
          if StartConnected(box, objects[i]) {
            starts := starts + [i];
          } else if EndConnected(box, objects[i]) {
            ends := ends + [i];
          }
          i := i + 1;
        }
      }
    }

    /** Moves the selected object by (dx, dy), dragging the lines stuck to
        it in sticky mode; with nothing selected, moves the cursor instead,
        axis by axis, as far as the screen allows. */
    method MoveBy(dx: int, dy: int)
      requires Valid()
      modifies this
      ensures Valid()
      ensures old(SelectedObject()).Some? ==>
        objects == Dragged(old(objects), old(selectedIndex), Size(dx, dy), old(stickyMode)) && cursor == old(cursor)
      ensures old(SelectedObject()).None? ==>
        objects == old(objects) && cursor == CursorStep(old(cursor), dx, dy, canvas.width, canvas.height)
      ensures selectedIndex == old(selectedIndex) && cursorMode == old(cursorMode) && stickyMode == old(stickyMode)
    {
      var starts: seq<int> := [];
      var ends: seq<int> := [];
      if stickyMode {
        starts, ends := ConnectedLines();
      }
      if 0 <= selectedIndex < |objects| {
        var d := Size(dx, dy);
        var box := objects[selectedIndex];
        var moved := objects[selectedIndex := box.(position := box.position.Add(d))];
        if stickyMode {
          var k := 0;
          ghost var shifted := moved;
          while k < |starts|
            invariant 0 <= k <= |starts| && |moved| == |objects|
            invariant forall j :: 0 <= j < |moved| ==>
              moved[j] == if j in starts[..k] then DragLine(box, objects[j], d) else shifted[j]
          {
            var j := starts[k];
            assert j !in starts[..k];
            var line := moved[j];
            moved := moved[j := Line(line.position.Add(d), line.size.Add(d.Neg()), line.orientation, line.isArrow)];
            assert starts[..k + 1] == starts[..k] + [j];
            k := k + 1;
          }
          assert starts[..k] == starts;
          ghost var dragged := moved;
          k := 0;
          while k < |ends|
            invariant 0 <= k <= |ends| && |moved| == |objects|
            invariant forall j :: 0 <= j < |moved| ==>
              moved[j] == if j in ends[..k] then DragLine(box, objects[j], d) else dragged[j]
          {
            var j := ends[k];
            assert j !in ends[..k];
            var line := moved[j];
            moved := moved[j := Line(line.position, line.size.Add(d), line.orientation, line.isArrow)];
            assert ends[..k + 1] == ends[..k] + [j];
            k := k + 1;
          }
          assert ends[..k] == ends;
        }
        objects := moved;
      } else {
        cursor := CursorStep(cursor, dx, dy, canvas.width, canvas.height);
      }
    }

    /** Grows or shrinks the selected object by (dx, dy); does nothing when
        nothing is selected. */
    method ResizeBy(dx: int, dy: int)
      requires Valid()
      modifies this
      ensures Valid()
      ensures selectedIndex == old(selectedIndex) && cursor == old(cursor)
      ensures old(SelectedObject()).Some? ==>
        var o := old(objects[selectedIndex]);
        objects == old(objects)[selectedIndex := o.(size := o.size.Add(Size(dx, dy)))]
      ensures old(SelectedObject()).None? ==> objects == old(objects)
      ensures cursorMode == old(cursorMode) && stickyMode == old(stickyMode)
    {
      if 0 <= selectedIndex < |objects| {
        var o := objects[selectedIndex];
        objects := objects[selectedIndex := o.(size := o.size.Add(Size(dx, dy)))];
      }
    }

    /** Selects the next (or, reversed, the previous) object, cycling
        through "nothing selected"; the cursor is in hand mode exactly when
        the cycle lands on nothing. */
    method SwitchObject(reverse: bool)
      requires Valid()
      modifies this
      ensures Valid()
      ensures State() == Next(old(State()), if reverse then BackTab else Tab, canvas.width, canvas.height)
      ensures selectedIndex == if reverse then PreviousIndex(old(selectedIndex), |objects|)
                               else NextIndex(old(selectedIndex), |objects|)
      ensures cursorMode == Hand <==> selectedIndex == -1
      ensures objects == old(objects) && cursor == old(cursor) && stickyMode == old(stickyMode)
    {
      var nextMode := Move;
      if reverse {
        if selectedIndex == -1 {
          selectedIndex := |objects| - 1;
        } else {
          selectedIndex := selectedIndex - 1;
        }
        if selectedIndex < 0 {
          nextMode := Hand;
        }
      } else {
        selectedIndex := selectedIndex + 1;
        if selectedIndex >= |objects| {
          selectedIndex := -1;
          nextMode := Hand;
        }
      }
      cursorMode := nextMode;
    }

    /** Where the next new object goes. */
    function NewObjectPosition(newWidth: nat): Point
      reads this
    {
      PlacementPoint(SelectedObject(), cursor, newWidth)
    }

    /** Appends a new 14-by-2 box beside the selection (or at the cursor)
        and selects it. */
    method AddBox()
      requires Valid()
      modifies this
      ensures Valid()
      ensures State() == Next(old(State()), BoxKey, canvas.width, canvas.height)
      ensures objects == old(objects) + [NewBox(old(NewObjectPosition(14)), Size(14, 2))]
      ensures selectedIndex == |objects| - 1
      ensures cursor == old(cursor) && cursorMode == old(cursorMode) && stickyMode == old(stickyMode)
    {
      var position := NewObjectPosition(14);
      objects := objects + [NewBox(position, Size(14, 2))];
      selectedIndex := |objects| - 1;
    }

    /** Appends a new 6-by-3 arrow and selects it. */
    method AddArrow()
      requires Valid()
      modifies this
      ensures Valid()
      ensures State() == Next(old(State()), ArrowKey, canvas.width, canvas.height)
      ensures objects == old(objects) + [NewLine(old(NewObjectPosition(0)), true, Size(6, 3))]
      ensures selectedIndex == |objects| - 1
      ensures cursor == old(cursor) && cursorMode == old(cursorMode) && stickyMode == old(stickyMode)
    {
      var position := NewObjectPosition(0);
      objects := objects + [NewLine(position, true, Size(6, 3))];
      selectedIndex := |objects| - 1;
    }

    /** Appends a new 6-by-3 plain line and selects it. */
    method AddLine()
      requires Valid()
      modifies this
      ensures Valid()
      ensures State() == Next(old(State()), LineKey, canvas.width, canvas.height)
      ensures objects == old(objects) + [NewLine(old(NewObjectPosition(0)), false, Size(6, 3))]
      ensures selectedIndex == |objects| - 1
      ensures cursor == old(cursor) && cursorMode == old(cursorMode) && stickyMode == old(stickyMode)
    {
      var position := NewObjectPosition(0);
      objects := objects + [NewLine(position, false, Size(6, 3))];
      selectedIndex := |objects| - 1;
    }

    /** Removes the selected object, keeping the order of the others, and
        selects the one before it; does nothing when nothing is selected. */
    method DeleteSelected()
      requires Valid()
      modifies this
      ensures Valid()
      ensures State() == Next(old(State()), DeleteKey, canvas.width, canvas.height)
      ensures old(SelectedObject()).Some? ==>
        && objects == old(objects[..selectedIndex] + objects[selectedIndex + 1..])
        && multiset(objects) + multiset{old(objects[selectedIndex])} == multiset(old(objects))
        && selectedIndex == old(selectedIndex) - 1
      ensures old(SelectedObject()).None? ==> objects == old(objects) && selectedIndex == old(selectedIndex)
      ensures cursor == old(cursor) && cursorMode == old(cursorMode) && stickyMode == old(stickyMode)
    {
      if 0 <= selectedIndex < |objects| {
        var i := selectedIndex;
        assert objects == objects[..i] + [objects[i]] + objects[i + 1..];
        objects := objects[..i] + objects[i + 1..];
        selectedIndex := selectedIndex - 1;
      }
    }

    method Unselect()
      requires Valid()
      modifies this
      ensures Valid() && selectedIndex == -1 && SelectedObject().None?
      ensures State() == Next(old(State()), Escape, canvas.width, canvas.height)
      ensures objects == old(objects) && cursor == old(cursor)
      ensures cursorMode == old(cursorMode) && stickyMode == old(stickyMode)
    {
      selectedIndex := -1;
    }

    /** With nothing selected, selects the last object in list order whose
        raw rectangle holds the cursor (or still nothing). With an object
        selected, the code opens its text editor; that session is not part
        of this model, so the state stays as it is. */
    method SelectOrEdit()
      requires Valid()
      modifies this
      ensures Valid()
      ensures State() == Next(old(State()), Enter, canvas.width, canvas.height)
      ensures old(SelectedObject()).None? ==> selectedIndex == LastCovering(objects, cursor)
      ensures old(SelectedObject()).Some? ==> selectedIndex == old(selectedIndex)
      ensures objects == old(objects) && cursor == old(cursor)
      ensures cursorMode == old(cursorMode) && stickyMode == old(stickyMode)
    {
      if !(0 <= selectedIndex < |objects|) {
        var found := -1;
        var i := 0;
        while i < |objects|
          invariant 0 <= i <= |objects|
          invariant found == LastCovering(objects[..i], cursor)
        {
          assert objects[..i + 1][..i] == objects[..i];
          if Covers(objects[i], cursor) {
            found := i;
          }
          i := i + 1;
        }
        assert objects[..i] == objects;
        selectedIndex := found;
      }
    }

    /** Toggles the selected object's main switch (a box's border, a
        line's first-leg direction). */
    method ToggleSelected()
      requires Valid()
      modifies this
      ensures Valid()
      ensures State() == Next(old(State()), Space, canvas.width, canvas.height)
      ensures old(SelectedObject()).Some? ==> objects == old(objects[selectedIndex := objects[selectedIndex].Toggle()])
      ensures old(SelectedObject()).None? ==> objects == old(objects)
      ensures selectedIndex == old(selectedIndex) && cursor == old(cursor)
      ensures cursorMode == old(cursorMode) && stickyMode == old(stickyMode)
    {
      if 0 <= selectedIndex < |objects| {
        objects := objects[selectedIndex := objects[selectedIndex].Toggle()];
      }
    }

    method ToggleSticky()
      requires Valid()
      modifies this
      ensures Valid() && stickyMode == !old(stickyMode)
      ensures State() == Next(old(State()), StickyKey, canvas.width, canvas.height)
      ensures objects == old(objects) && selectedIndex == old(selectedIndex)
      ensures cursor == old(cursor) && cursorMode == old(cursorMode)
    {
      stickyMode := !stickyMode;
    }

    /** The saved records of the diagram, which load back to the same
        objects. */
    function Serialize(): (items: seq<Json>)
      reads this
      ensures |items| == |objects|
      ensures DecodeAll(items) == Loaded(objects, None)
    {
      DecodeAllSerialize(objects);
      Records.Serialize(objects)
    }

    /** Replaces the diagram by the objects the records decode to. The list
        is emptied first and the records are read in order; the first one
        that fails stops the load, leaving the objects before it, and its
        error is returned. */
    method Deserialize(items: seq<Json>) returns (error: Option<DecodeError>)
      requires Valid()
      modifies this
      ensures Valid() && selectedIndex == -1
      ensures Loaded(objects, error) == DecodeAll(items)
      ensures cursor == old(cursor) && cursorMode == old(cursorMode) && stickyMode == old(stickyMode)
    {
      selectedIndex := -1;
      var loaded := [];
      error := None;
      var i := 0;
      while i < |items|
        invariant 0 <= i <= |items| && |loaded| == i && error.None?
        invariant forall k :: 0 <= k < i ==> Decode(items[k]) == Success(loaded[k])
      {
        var decoded := Decode(items[i]);
        if decoded.Failure? {
          error := Some(decoded.error);
          break;
        }
        loaded := loaded + [decoded.value];
        i := i + 1;
      }
      DecodeAllUnique(items, loaded, error);
      objects := loaded;
    }

    /** Draws every object on the canvas, in list order. */
    method Draw()
      requires Valid()
      modifies canvas.cells
      ensures forall x, y :: 0 <= x < canvas.width && 0 <= y < canvas.height ==>
        canvas.cells[x, y] == Render(SceneStrokes(objects), Point(x, y), old(canvas.cells[x, y]))
    {
      var i := 0;
      while i < |objects|
        invariant 0 <= i <= |objects|
        invariant forall x, y :: 0 <= x < canvas.width && 0 <= y < canvas.height ==>
          canvas.cells[x, y] == Render(SceneStrokes(objects[..i]), Point(x, y), old(canvas.cells[x, y]))
      {
        Drawing.Draw(canvas, objects[i]);
        assert objects[..i + 1] == objects[..i] + [objects[i]];
        forall x, y | 0 <= x < canvas.width && 0 <= y < canvas.height
          ensures canvas.cells[x, y] == Render(SceneStrokes(objects[..i + 1]), Point(x, y), old(canvas.cells[x, y]))
        {
          SceneLayers(objects[..i], objects[i], Point(x, y), old(canvas.cells[x, y]));
        }
        i := i + 1;
      }
      assert objects[..i] == objects;
    }

    /** The editing state. */
    function State(): (s: Editing)
      reads this
      ensures s.objects == objects && s.selectedIndex == selectedIndex && s.cursor == cursor
      ensures s.cursorMode == cursorMode && s.stickyMode == stickyMode
    {
      Editing(objects, selectedIndex, cursor, cursorMode, stickyMode)
    }

    /** Runs the command bound to a key: the new state is `Next` of the old
        one. Every command keeps the selection in range, and only the
        selection-cycling keys change the cursor mode. */
    method Handle(command: Command)
      requires Valid()
      modifies this
      ensures Valid()
      ensures State() == Next(old(State()), command, canvas.width, canvas.height)
      ensures command.Tab? || command.BackTab? ==> (cursorMode == Hand <==> selectedIndex == -1)
      ensures !(command.Tab? || command.BackTab?) ==> cursorMode == old(cursorMode)
    {
      match command
      case MoveKey(d) => MoveBy(d.Delta().w, d.Delta().h);
      case ResizeKey(d) => ResizeBy(d.Delta().w, d.Delta().h);
      case Tab => SwitchObject(false);
      case BackTab => SwitchObject(true);
      case Escape => Unselect();
      case Enter => SelectOrEdit();
      case Space => ToggleSelected();
      case BoxKey => AddBox();
      case ArrowKey => AddArrow();
      case LineKey => AddLine();
      case DeleteKey => DeleteSelected();
      case StickyKey => ToggleSticky();
    }
  }
}
