# term-ascii-diagram in Dafny

A model of the core of `term-ascii-diagram`, a terminal editor for box-and-arrow
diagrams drawn with box-drawing characters. The model covers:

- **Geometry** (`geometry.dfy`). Integer `Point` and `Size` values, with the
  code's reversed sign convention for point differences and its
  non-reordering `is_within` test. It also holds the ten drawing glyphs and
  the cursor modes.
- **The canvas** (`screen.dfy`). A `Canvas` class over a width-by-height
  `array2<char>` stands in for the curses window. `put_ch`, `put_str`,
  `get_ch`, `fill` and `clear` are methods with cell-by-cell postconditions.
  Off-screen writes are dropped, and an off-screen read gives `""`.
- **Objects** (`shapes.dfy`). Boxes and lines are values with a signed size.
  Each has raw and normalized corners and a toggle.
- **Rasterisation** (`strokes.dfy`, `drawing.dfy`).
  - A shape's `draw` is modelled as the exact sequence of canvas calls it
    makes (`Stroke`).
  - `Render` gives what a cell shows after a sequence of calls: the last
    call that touches the cell wins.
  - `Drawing.Draw` performs the calls on a `Canvas` and is proved to leave
    `Render` of them in every cell.
  - Independent cell-by-cell descriptions of a box (`BoxCell`) and a line
    (`LineCell`) are proved equal to what the calls render.
- **Saved form** (`records.dfy`). Objects become tagged JSON records, and
  records decode back to objects. A list of records loads up to its first
  bad record.
- **The editor controller** (`editor.dfy`).
  - A `Designer` class holds the object list, the selection index (-1 for
    none), the cursor, the cursor mode and sticky mode.
  - It has one method per key command.
  - Sticky dragging and placement of new objects are specified by pure
    functions.
  - The selection index stays in range after every command.

Python's `str.split`, `str.strip` and prefix slicing (including negative
bounds) are written out in `text.dfy`. `math.atan2` in the arrowhead choice
is replaced by an exact case split (`AtanDegrees`). It gives 0, 90, 180 or
-90 for the axis-aligned vectors where an arrowhead is drawn.

Where the code behaves in ways a reader may not expect, the model follows the code:

- `Point.is_within` does not reorder its corners. For reversed corners it
  holds for no point (`Geometry.IsWithinBounds`).
- Loading is not transactional. The object list is emptied first, and a
  failing record stops the load with the objects before it kept
  (`Editor.Designer.Deserialize`). In the code the decode error is an
  exception that escapes the event loop.
- Adding an object selects it but leaves the cursor mode as it was. Only
  cycling the selection changes the mode.
- The type tag is resolved against the module's global names. The model
  accepts exactly "Box" and "Line".
- A line's orientation is the integer the code stores (1 horizontal, 2
  vertical). A loaded record may carry any other integer: it draws as
  vertical, and its first toggle makes it vertical again, so it takes two
  toggles to turn horizontal (`Shapes.UnknownOrientationToggle`).

Two consequences of the code as written are stated as lemmas:

- A box narrower than 2 has its side border in the anchor column blanked by
  the interior clear, which runs between the raw corners moved inwards
  (`Drawing.NarrowBoxBlanksSide`).
- Selection under the cursor uses raw corners with `is_within`. A shape
  with a negative size therefore covers no point and cannot be selected
  that way (`Geometry.IsWithinBounds` with `Editor.LastCovering`). The
  sticky region of a box is widened by one cell on every side first, so a
  box of width or height -1 or -2 still holds line ends.

## Model

| member | source | states |
|---|---|---|
| Geometry.AddSubSize | src/term_ascii_diagram/core.py:25-37 | adding a size to a point and subtracting it again (either order) gives the point back |
| Geometry.SubPointConvention | src/term_ascii_diagram/core.py:33-35 | with the reversed convention, `p - (p + s) == s` and `(p + s) - p == -s` |
| Geometry.SubPointReaches | src/term_ascii_diagram/core.py:33-35 | `p - q` is the vector that takes `p` to `q` |
| Geometry.SizeAddCommutative | src/term_ascii_diagram/core.py:16-17 | size addition is commutative |
| Geometry.SizeAddAssociative | src/term_ascii_diagram/core.py:16-17 | size addition is associative |
| Geometry.PointAddCompose | src/term_ascii_diagram/core.py:25-26 | translating by two sizes in turn is translating by their sum |
| Geometry.IsWithinBounds | src/term_ascii_diagram/core.py:45-49 | `is_within` is inclusive on both bounds; it is false for every point once the corners are reversed on either axis; for ordered corners it equals the order-free rectangle |
| Geometry.InRectSymmetric | src/term_ascii_diagram/core.py:128-133 | the swapped-corner rectangle `fill` covers does not depend on which corner comes first |
| Geometry.GlyphCharInjective | src/term_ascii_diagram/core.py:52-62 | the ten glyphs are ten distinct characters |
| Screen.Canvas.constructor | src/term_ascii_diagram/core.py:73-74 | a new canvas has the given dimensions and every cell blank |
| Screen.Canvas.GetCh | src/term_ascii_diagram/core.py:112-122 | one character, the cell's, exactly when the point is on screen; `""` otherwise |
| Screen.Canvas.PutCh | src/term_ascii_diagram/core.py:90-105 | on screen, exactly the one cell changes and reads back as `ch`; off screen, nothing changes and nothing fails |
| Screen.Canvas.PutStr | src/term_ascii_diagram/core.py:107-110 | when the start is on screen, the text lands on its row from the start column, clipped at the right edge; every other cell is unchanged |
| Screen.Canvas.Fill | src/term_ascii_diagram/core.py:124-137 | exactly the on-screen cells of the inclusive rectangle between the corners, in either order, become `ch`; every other cell is unchanged |
| Screen.Canvas.Clear | src/term_ascii_diagram/core.py:146-148 | every cell becomes blank |
| Strokes.RenderAppend | src/term_ascii_diagram/core.py:90-105 | performing two call sequences one after the other is performing their concatenation |
| Strokes.RenderUntouched | src/term_ascii_diagram/core.py:90-105 | a cell no call writes keeps its character |
| Strokes.RenderLastWrite | src/term_ascii_diagram/core.py:90-105 | a cell shows what the last call that writes it wrote |
| Strokes.FillOrderIndependent | src/term_ascii_diagram/core.py:124-137 | `fill(a, b, ch)` and `fill(b, a, ch)` write the same cells |
| Text.Take | src/term_ascii_diagram/diagram.py:143-146 | a Python prefix slice `s[:n]`: a prefix of `s` of length `min(n, len)` for `n >= 0`, and `len + n` (at least 0) for negative `n` |
| Text.JoinSplit | src/term_ascii_diagram/diagram.py:143 | joining the pieces of `split` with the separator gives the text back |
| Text.SplitPiecesHaveNoSeparator | src/term_ascii_diagram/diagram.py:143 | no line produced by `split("\n")` contains a newline |
| Text.TrimStartSuffix | src/term_ascii_diagram/diagram.py:141 | stripping leading whitespace removes a whitespace prefix and nothing more: the rest is a suffix that does not start with whitespace |
| Text.TrimStartBlank | src/term_ascii_diagram/diagram.py:141 | stripping leading whitespace leaves nothing iff the text is all whitespace |
| Text.TrimEndPrefix | src/term_ascii_diagram/diagram.py:141 | stripping trailing whitespace removes a whitespace suffix and nothing more: the rest is a prefix that does not end with whitespace |
| Text.TrimEndBlank | src/term_ascii_diagram/diagram.py:141 | stripping trailing whitespace leaves nothing iff the text is all whitespace |
| Text.StripEmptyIffBlank | src/term_ascii_diagram/diagram.py:141 | `text.strip() == ""` iff every character is whitespace |
| Shapes.NormalizedCornersAreMinMax | src/term_ascii_diagram/diagram.py:27-77 | for any signs of the size, the normalized top-left is the component-wise min of the two raw anchor corners and the normalized bottom-right their max, so they are ordered; the normalized size is non-negative |
| Shapes.NormalizedCornersRelabelRaw | src/term_ascii_diagram/diagram.py:41-77 | the four normalized corners are the four raw corners as a set |
| Shapes.Shape.NormalizedPosition | src/term_ascii_diagram/diagram.py:27-35 | the anchor moved back along each negative size component; `Shapes.NormalizedCornersAreMinMax` proves it the component-wise minimum of the raw corners |
| Shapes.Shape.NormalizedSize | src/term_ascii_diagram/diagram.py:37-39 | the size with both components made non-negative; proved non-negative by `Shapes.NormalizedCornersAreMinMax` |
| Shapes.Shape.TopLeft | src/term_ascii_diagram/diagram.py:41-43 | the raw anchor |
| Shapes.Shape.NormalizedTopLeft | src/term_ascii_diagram/diagram.py:45-47 | the normalized position |
| Shapes.Shape.TopRight | src/term_ascii_diagram/diagram.py:49-51 | the anchor moved by the width |
| Shapes.Shape.NormalizedTopRight | src/term_ascii_diagram/diagram.py:53-58 | the normalized position moved by the normalized width |
| Shapes.Shape.BottomLeft | src/term_ascii_diagram/diagram.py:60-62 | the anchor moved by the height |
| Shapes.Shape.NormalizedBottomLeft | src/term_ascii_diagram/diagram.py:64-69 | the normalized position moved by the normalized height |
| Shapes.Shape.BottomRight | src/term_ascii_diagram/diagram.py:71-73 | the anchor plus the size |
| Shapes.Shape.NormalizedBottomRight | src/term_ascii_diagram/diagram.py:75-77 | the normalized position plus the normalized size; `Shapes.NormalizedCornersRelabelRaw` proves the four normalized corners are the raw ones |
| Shapes.NewBox | src/term_ascii_diagram/diagram.py:107-116 | a new box at the given place and size has empty text and its border shown, the constructor's defaults |
| Shapes.NewLine | src/term_ascii_diagram/diagram.py:213-222 | a new line at the given place and size, arrow or not, has its first leg horizontal (orientation 1), the constructor's default |
| Shapes.Shape.Toggle | src/term_ascii_diagram/diagram.py:118-119 | a box flips its border flag; a line becomes horizontal if it was vertical (2) and vertical otherwise; partner lemmas `Shapes.ToggleInvolution` and `Shapes.UnknownOrientationToggle` |
| Shapes.ToggleInvolution | src/term_ascii_diagram/diagram.py:224-230 | toggling twice restores a box or a line with orientation 1 or 2; a toggle never moves the object, flips a box's border flag, and makes a line horizontal exactly when it was vertical |
| Shapes.UnknownOrientationToggle | src/term_ascii_diagram/diagram.py:224-230 | a line with an orientation other than 1 or 2 becomes vertical on its first toggle and horizontal only on its second, so two toggles do not restore it |
| Drawing.DisplayText | src/term_ascii_diagram/diagram.py:140-142 | the text a box shows: the placeholder `[Text]` for a borderless box whose text strips to nothing, its own text otherwise (`Text.StripEmptyIffBlank` characterises the test) |
| Drawing.BoxLines | src/term_ascii_diagram/diagram.py:143 | the lines of the displayed text, split at newlines |
| Drawing.Clip | src/term_ascii_diagram/diagram.py:143-147 | the first `rowCount` lines, each cut to `columnCount` characters, with Python's slice rule; characterised by `Drawing.ClipCell` |
| Drawing.RowStrokes | src/term_ascii_diagram/diagram.py:143-147 | one `put_str` per row, row `i` starting `i` rows below the origin; characterised by `Drawing.RowsRender` |
| Drawing.BorderStrokes | src/term_ascii_diagram/diagram.py:122-133 | the four edge fills between the raw corners, then the four corner glyphs on the normalized corners; characterised by `Drawing.BorderRender` |
| Drawing.FrameStrokes | src/term_ascii_diagram/diagram.py:121-147 | the calls `Box.draw` makes for given text lines: border when shown, interior clear between the raw corners moved inwards, clipped text rows; characterised by `Drawing.FrameDrawn` |
| Drawing.BoxStrokes | src/term_ascii_diagram/diagram.py:121-147 | the calls `Box.draw` makes, with the box's own lines; characterised by `Drawing.BoxDrawn` |
| Drawing.ShapeStrokes | src/term_ascii_diagram/diagram.py:121 | the calls of the object's own `draw`: `Box.draw`'s for a box, `Line.draw`'s (lines 304-308) for a line, which never fail for a stored line |
| Drawing.ClipCell | src/term_ascii_diagram/diagram.py:143-147 | inside the clip bounds the clipped lines hold exactly the lines' characters; outside them, nothing |
| Drawing.RowsRender | src/term_ascii_diagram/diagram.py:143-147 | row `i` of the text lands on the row `i` below the first interior row, from the first interior column, and nothing is written when that column is off screen to the left |
| Drawing.BorderRender | src/term_ascii_diagram/diagram.py:122-133 | for a box of any size, the border shows corner glyphs on the normalized corners (the one put last where corners coincide), vertical runs on the sides, horizontal runs on the top and bottom edges, and leaves every other cell unchanged |
| Drawing.FramedRender | src/term_ascii_diagram/diagram.py:122-139 | after the border and the interior clear, the cells strictly inside the box are blank and the outline is the border |
| Drawing.InteriorCell | src/term_ascii_diagram/diagram.py:143-147 | within the first `h - 1` rows and `w - 1` columns the text rows show the line's character, or a blank past its end |
| Drawing.ExteriorCell | src/term_ascii_diagram/diagram.py:143-147 | outside the first `h - 1` rows and `w - 1` columns the text rows leave the cell unchanged |
| Drawing.FrameDrawn | src/term_ascii_diagram/diagram.py:121-147 | for any text lines, the border, interior clear and text rows together leave each cell as `FrameCell` describes |
| Drawing.BoxDrawn | src/term_ascii_diagram/diagram.py:121-147 | after `Box.draw`, each cell is what `BoxCell` describes: the text line's character or a blank inside, the border (when shown) on the outline, the old content elsewhere |
| Drawing.BoxCornersShown | src/term_ascii_diagram/diagram.py:127-133 | a bordered box shows ┌ ┐ └ ┘ on its four corners |
| Drawing.BoxTextShown | src/term_ascii_diagram/diagram.py:140-147 | character `j` of line `i` of the text shows at `position + (j + 1, i + 1)` when it fits inside the box |
| Drawing.NarrowBoxBlanksSide | src/term_ascii_diagram/diagram.py:134-147 | with a width below 2 (and a height of at least 2) the interior clear blanks the side border in the anchor column between the top and bottom rows, and no text row writes there |
| Drawing.AtanDegrees | src/term_ascii_diagram/diagram.py:265-267 | the truncated `atan2` degrees exist exactly for a vector with a zero component: 0 straight down (or for the zero vector), 180 up, 90 right, -90 left |
| Drawing.DegreeGlyph | src/term_ascii_diagram/diagram.py:203-208 | the table has an arrowhead for exactly 0, 180, 90 and -90 degrees, and each entry is an arrowhead |
| Drawing.ArrowFor | src/term_ascii_diagram/diagram.py:265-270 | an arrowhead exists exactly for legs on one row or one column; `Drawing.ArrowPointsAlongLeg` gives which |
| Drawing.DrawLeg | src/term_ascii_diagram/diagram.py:253-270 | the calls `_draw_line` makes: an error for a diagonal, nothing for an empty leg, a fill of line glyphs and, for an arrow, the arrowhead; characterised by `Drawing.DrawLegCases` and `Drawing.LegRender` |
| Drawing.CornerFor | src/term_ascii_diagram/diagram.py:232-251 | the bend glyph from the (x forward, y downwards) table of each orientation; characterised by `Drawing.CornerJoinsLegs` |
| Drawing.LineStrokes | src/term_ascii_diagram/diagram.py:272-308 | the calls `Line.draw` makes for each orientation: one leg when the ends share the row (or column), otherwise the first edge, the second leg and the bend glyph; characterised by `Drawing.LineDrawn` |
| Drawing.ArrowPointsAlongLeg | src/term_ascii_diagram/diagram.py:265-270 | on an axis-aligned leg, the angle table gives the arrowhead pointing from start to end: ⏵ iff the end is to the right, ⏴ left, ⏷ below, ⏶ above |
| Drawing.DrawLegCases | src/term_ascii_diagram/diagram.py:259-270 | a diagonal leg is an error, a zero-length leg draws nothing, any other leg draws a run and, for an arrow, one arrowhead |
| Drawing.LegRender | src/term_ascii_diagram/diagram.py:253-270 | a leg shows its run of line glyphs over the cells between its ends and, for an arrow, the arrowhead on its end cell |
| Drawing.CornerJoinsLegs | src/term_ascii_diagram/diagram.py:232-251 | the bend glyph from the (x forward, y downwards) table reaches back along the first leg and on along the second, for both orientations |
| Drawing.LineStrokesSucceed | src/term_ascii_diagram/diagram.py:272-302 | drawing a line never hits the diagonal-leg error, because every leg it asks for is axis-aligned |
| Drawing.LineDrawn | src/term_ascii_diagram/diagram.py:272-308 | after `Line.draw`, each cell is what `LineCell` describes: the first leg, the second leg, the bend glyph, the arrowhead, or the old content |
| Drawing.HorizontalArrowShown | src/term_ascii_diagram/diagram.py:272-274 | a flat horizontal arrow ends in ⏵ with ─ on every cell before it |
| Drawing.EmptyLineDrawsNothing | src/term_ascii_diagram/diagram.py:261-262 | a line of size zero makes no canvas call, so it has no arrowhead either |
| Drawing.Draw | src/term_ascii_diagram/diagram.py:304-308 | drawing a shape on the canvas leaves, in every on-screen cell, what its calls render there |
| Records.Field | src/term_ascii_diagram/diagram.py:96-100 | a key lookup succeeds exactly on a record holding the key, with its value |
| Records.Encode | src/term_ascii_diagram/diagram.py:89-94 | the record an object is saved as: its class name, position, size and the class's own fields (lines 149-152 and 310-314); `Records.DecodeEncode` is its inverse |
| Records.Decode | src/term_ascii_diagram/diagram.py:96-100 | an object read back from a record in the code's key order, with the class's own fields (lines 154-157 and 316-319) and the class chosen by the tag (lines 656-659); characterised by `Records.DecodeReadsFields` and `Records.DecodeEncode` |
| Records.DecodeEncode | src/term_ascii_diagram/diagram.py:89-100 | serialising an object and deserialising the record restores position, size and the class's own fields |
| Records.DecodeReadsFields | src/term_ascii_diagram/diagram.py:154-157 | a record decodes only if it holds every key its class reads, and the object carries the record's values |
| Records.UnknownTypeRejected | src/term_ascii_diagram/diagram.py:656-658 | a record whose type tag is neither "Box" nor "Line" is rejected by its tag |
| Records.DecodeAll | src/term_ascii_diagram/diagram.py:652-660 | loading keeps the decoded objects of the records before the first failing one, in order, and reports that record's error; with no failure, every record is loaded |
| Records.DecodeAllUnique | src/term_ascii_diagram/diagram.py:655-660 | any prefix of decoded records that ends at the end or at a failing record is what loading gives |
| Records.DecodeAllSerialize | src/term_ascii_diagram/diagram.py:646-660 | saving a diagram and loading the records gives the same objects in the same order, with no error |
| Editor.NearBox | src/term_ascii_diagram/diagram.py:380-387 | a point lies in the box's raw rectangle widened by one cell on every side, by `is_within` |
| Editor.StartConnected | src/term_ascii_diagram/diagram.py:380-390 | a line whose anchor is near the box |
| Editor.EndConnected | src/term_ascii_diagram/diagram.py:384-391 | a line whose far end, but not its anchor, is near the box |
| Editor.DragLine | src/term_ascii_diagram/diagram.py:405-415 | a start-connected line is moved by the step and shrunk by it, an end-connected line grown by it, anything else kept |
| Editor.Dragged | src/term_ascii_diagram/diagram.py:393-415 | the list after a sticky move, of the same length; characterised by `Editor.DraggedEndpoints` and `Editor.DragKeepsContact` |
| Editor.DraggedEndpoints | src/term_ascii_diagram/diagram.py:400-415 | a sticky move shifts the selected object by `d`; a line stuck at its start keeps its far end fixed; a line stuck only at its end keeps its anchor fixed; every other object is unchanged; only positions and sizes change |
| Editor.DragKeepsContact | src/term_ascii_diagram/diagram.py:378-415 | a stuck line end is still next to the box after both move |
| Editor.CursorStep | src/term_ascii_diagram/diagram.py:416-420 | each cursor axis moves by its step when the new coordinate is on screen and stays put when it is not, so an on-screen cursor stays on screen |
| Editor.NextIndex | src/term_ascii_diagram/diagram.py:440-444 | the selection after Tab stays in range, and is none exactly after the last object |
| Editor.PreviousIndex | src/term_ascii_diagram/diagram.py:431-437 | the selection after Shift-Tab stays in range, and is the last object exactly from none |
| Editor.CycleInverse | src/term_ascii_diagram/diagram.py:427-446 | cycling forward past the last index gives -1 and backward from -1 gives the last index; both keep the index in range and undo each other |
| Editor.Covers | src/term_ascii_diagram/diagram.py:525 | the cursor is in the inclusive rectangle from the raw anchor to anchor plus size, so an object with a negative width or height covers no point |
| Editor.LastCovering | src/term_ascii_diagram/diagram.py:521-526 | the last object in list order whose raw rectangle holds the point, or -1 when none does |
| Editor.PlacementPoint | src/term_ascii_diagram/diagram.py:454-468 | a new object goes one column right of a selected box, half its height (rounded down) below its anchor, so within its rows; below the end of a horizontal line (centred for its width); right of the end of any other line and half its height further down; or at the cursor |
| Editor.SceneStrokes | src/term_ascii_diagram/diagram.py:470-476 | the calls of drawing each object in list order: none for an empty list, one object's own calls for one object; `Editor.SceneLayers` gives the layering |
| Editor.SceneLayers | src/term_ascii_diagram/diagram.py:470-476 | objects later in the list are drawn over earlier ones |
| Editor.Selected | src/term_ascii_diagram/diagram.py:359-363 | an object exactly when the index is in range, and then the object at the index |
| Editor.Next | src/term_ascii_diagram/diagram.py:561-600 | the state after each key command, written as the command's effect on objects, selection, cursor, mode and sticky flag |
| Editor.NextKeepsSelection | src/term_ascii_diagram/diagram.py:427-533 | every command keeps the selection none or in range; only Tab and Shift-Tab change the cursor mode, leaving hand mode exactly when something is selected |
| Editor.NextFrame | src/term_ascii_diagram/diagram.py:393-536 | only the move, resize and delete keys change the position or size of an object already in the list, only the move keys move the cursor, only the sticky key flips sticky mode, only the add and delete keys change the number of objects, and an add appends one object after the others and selects it |
| Editor.TabUndone | src/term_ascii_diagram/diagram.py:427-446 | Shift-Tab undoes Tab and Tab undoes Shift-Tab; from a state whose mode matches its selection, Tab then Shift-Tab restores the whole state |
| Editor.Designer.constructor | src/term_ascii_diagram/diagram.py:349-357 | nothing selected, cursor at the origin in hand mode, no objects, sticky on |
| Editor.Designer.SelectedObject | src/term_ascii_diagram/diagram.py:359-363 | an object exactly when the index is in range, and then the object at the index |
| Editor.Designer.ConnectedLines | src/term_ascii_diagram/diagram.py:370-391 | with a non-line selected: the lines stuck at their start, and the lines stuck only at their end, in list order; otherwise none |
| Editor.Designer.MoveBy | src/term_ascii_diagram/diagram.py:393-420 | with a selection, the list becomes `Dragged`; without one, only the cursor moves (by `CursorStep`); the index, modes and sticky flag are unchanged |
| Editor.Designer.ResizeBy | src/term_ascii_diagram/diagram.py:422-425 | only the selected object's size changes, by the step |
| Editor.Designer.SwitchObject | src/term_ascii_diagram/diagram.py:427-446 | the index moves to the next or previous one in the cycle, and the mode is hand iff nothing is selected afterwards; the new state is what `Next` gives for its key |
| Editor.Designer.AddBox | src/term_ascii_diagram/diagram.py:501-503 | exactly one 14-by-2 box is appended at the placement point, and it is selected; the new state is what `Next` gives for its key |
| Editor.Designer.AddArrow | src/term_ascii_diagram/diagram.py:505-507 | exactly one 6-by-3 arrow is appended at the placement point, and it is selected; the new state is what `Next` gives for its key |
| Editor.Designer.AddLine | src/term_ascii_diagram/diagram.py:509-511 | exactly one 6-by-3 plain line is appended at the placement point, and it is selected; the new state is what `Next` gives for its key |
| Editor.Designer.DeleteSelected | src/term_ascii_diagram/diagram.py:513-516 | only the selected object is removed, the others keep their order, and the index drops by one; nothing changes without a selection; the new state is what `Next` gives for its key |
| Editor.Designer.Unselect | src/term_ascii_diagram/diagram.py:518-519 | the selection becomes none and nothing else changes; the new state is what `Next` gives for its key |
| Editor.Designer.SelectOrEdit | src/term_ascii_diagram/diagram.py:521-529 | with nothing selected, the selection becomes `LastCovering` of the cursor; the new state is what `Next` gives for its key |
| Editor.Designer.ToggleSelected | src/term_ascii_diagram/diagram.py:531-533 | only the selected object is toggled; the new state is what `Next` gives for its key |
| Editor.Designer.ToggleSticky | src/term_ascii_diagram/diagram.py:535-536 | sticky mode flips and nothing else changes; the new state is what `Next` gives for its key |
| Editor.Designer.Serialize | src/term_ascii_diagram/diagram.py:646-650 | one record per object, and the records load back to the same objects |
| Editor.Designer.Deserialize | src/term_ascii_diagram/diagram.py:652-660 | the selection is reset to none and the list becomes what `DecodeAll` keeps, with its error returned |
| Editor.Designer.Draw | src/term_ascii_diagram/diagram.py:470-476 | every on-screen cell shows what the objects' calls, in list order, render there |
| Editor.Designer.Handle | src/term_ascii_diagram/diagram.py:561-600 | running a key's command leaves exactly the state `Next` gives for the old state and that command, and keeps the selection index in `[-1, len)` |

## Left out

- `Box.edit` (the curses text editing session) is terminal I/O. `Editor.Designer.SelectOrEdit` leaves the state unchanged when an object is selected.
- The event loop, the key-code table (replaced by the `Command` datatype), colour pairs, the selection highlight, the status bar and quit confirmation are all terminal UI.
- The cursor highlight in `Designer.draw` rewrites a cell with its own character and changes only its colour, so it is left out. When the cursor is off screen, the code hands `""` to `addch`, which raises. That can only happen after a terminal resize, which is not modelled.
- `save` and `open` are file and JSON I/O. Only the record form is modelled. The `Json` datatype holds just the value kinds a saved diagram uses.
- The canvas calls that only talk to curses (`getmaxxy`, `set_color`, `reset_color`, `read_keyboard_ch`, `refresh`, `resize`) are left out. The canvas dimensions are the `Canvas` constants.
- Screen.Canvas.PutStr: curses wraps a long string onto the next rows. The model clips it at the right edge instead. `addstr` also raises `curses.error` when the string reaches the window's lower-right cell or runs past the last row, and `put_str` does not catch it, so the program stops where the model writes.
- `Size.set` and `Point.set` are left out, because points and sizes are values here: copying one is assignment, and nothing can share it.
- Records.Decode: the code stores whatever JSON value it finds under a key. The model rejects a value of the wrong kind (`WrongType`) at load time.
- Records.UnknownTypeRejected: the code looks the tag up among the module's global names, so "DiagramObject" would load as an object that cannot be drawn, and other names fail in different ways. The model rejects every tag except "Box" and "Line".
- Drawing.BoxDrawn: the cell-by-cell description covers boxes at least 2 by 2. Smaller and negative sizes are drawn by the same calls (`BoxStrokes`), but the interior clear then reaches into the border; only `Drawing.BorderRender` (any size) and `Drawing.NarrowBoxBlanksSide` describe their cells.
- Drawing.FramedRender: proved for boxes at least 2 by 2 only, for the reason given for `Drawing.BoxDrawn`.
- Drawing.FrameDrawn: proved for boxes at least 2 by 2 only, for the reason given for `Drawing.BoxDrawn`.
- Drawing.BoxCornersShown: proved for boxes at least 2 by 2 only. With a zero width or height two corner glyphs share a cell, and with a small or negative size the interior clear can blank a corner.
- Drawing.BoxTextShown: needs the character to fit inside the box, which already makes the box at least 2 by 2; boxes starting left of column -1 write no text at all.
- Text.IsSpace: the Unicode whitespace set of `str.strip` is written out. Surrogates and other encodings are not modelled.
- `Point.__sub__` with an argument that is neither a point nor a size builds a `ValueError` without raising it, and returns nothing. The typed model has no such call.
- `status_bar.py` and `main.py` (curses widgets and start-up wiring) are not part of this model.
