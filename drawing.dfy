/** Rasterisation of boxes and lines: the canvas calls each shape's draw
    makes, in order, and what the drawn cells then show. */
module Drawing {
  import opened Wrappers
  import opened Geometry
  import opened Text
  import opened Strokes
  import opened Shapes
  import opened Screen

  /** Shown by a borderless box whose text is blank, so that it stays
      visible. */
  const Placeholder: string := "[Text]"

  // ---------------------------------------------------------------- boxes

  function DisplayText(b: Shape): string
    requires b.Box?
  {
    if !b.showBorder && Strip(b.text) == "" then Placeholder else b.text
  }

  /** Prefix slices of a list of lines: the first `rowCount` lines, each
      cut to its first `columnCount` characters (both with the slice rule
      for negative bounds). */
  function Clip(lines: seq<string>, rowCount: int, columnCount: int): seq<string> {
    var kept := Take(lines, rowCount);
    seq(|kept|, i requires 0 <= i < |kept| => Take(kept[i], columnCount))
  }

  /** The lines of the text a box shows. */
  function BoxLines(b: Shape): seq<string>
    requires b.Box?
  {
    Split(DisplayText(b), '\n')
  }

  /** Character `j` of line `i`, or a blank past the end of the text. */
  function TextCell(lines: seq<string>, i: int, j: int): char {
    if 0 <= i < |lines| && 0 <= j < |lines[i]| then lines[i][j] else ' '
  }

  /** One `put_str` per row, row `i` starting `i` cells below `origin`. */
  function RowStrokes(origin: Point, rows: seq<string>): (s: seq<Stroke>)
    ensures |s| == |rows|
  {
    seq(|rows|, i requires 0 <= i < |rows| => PutStr(origin.Add(Size(0, i)), rows[i]))
  }

  /** The four edges, then the four corner glyphs on the normalized
      corners. */
  function BorderStrokes(b: Shape): seq<Stroke> {
    [ Fill(b.TopLeft(), b.TopRight(), HLine.Char()),
      Fill(b.BottomLeft(), b.BottomRight(), HLine.Char()),
      Fill(b.TopRight(), b.BottomRight(), VLine.Char()),
      Fill(b.TopLeft(), b.BottomLeft(), VLine.Char()),
      PutCh(b.NormalizedTopLeft(), TLCorner.Char()),
      PutCh(b.NormalizedTopRight(), TRCorner.Char()),
      PutCh(b.NormalizedBottomLeft(), BLCorner.Char()),
      PutCh(b.NormalizedBottomRight(), BRCorner.Char()) ]
  }

  /** The calls `Box.draw` makes for a box showing `lines`: the border
      when shown, the cleared interior (between the raw corners moved one
      cell inwards), then the lines clipped to `size.h - 1` rows of
      `size.w - 1` characters. */
  function FrameStrokes(b: Shape, lines: seq<string>): seq<Stroke>
    requires b.Box?
  {
    (if b.showBorder then BorderStrokes(b) else [])
    + [Fill(b.TopLeft().Add(Size(1, 1)), b.BottomRight().SubSize(Size(1, 1)), ' ')]
    + RowStrokes(b.TopLeft().Add(Size(1, 1)), Clip(lines, b.size.h - 1, b.size.w - 1))
  }

  /** The calls `Box.draw` makes. */
  function BoxStrokes(b: Shape): seq<Stroke>
    requires b.Box?
  {
    FrameStrokes(b, BoxLines(b))
  }

  /** What a box with a non-degenerate positive size showing `lines` looks
      like, cell by cell, written without reference to the calls that draw
      it. */
  function FrameCell(b: Shape, lines: seq<string>, p: Point, before: char): char
    requires b.Box?
  {
    var x0, y0 := b.position.x, b.position.y;
    var x1, y1 := x0 + b.size.w, y0 + b.size.h;
    if x0 < p.x < x1 && y0 < p.y < y1 then
      if 0 <= x0 + 1 then TextCell(lines, p.y - y0 - 1, p.x - x0 - 1) else ' '
    else if !b.showBorder then before
    else if p == Point(x0, y0) then TLCorner.Char()
    else if p == Point(x1, y0) then TRCorner.Char()
    else if p == Point(x0, y1) then BLCorner.Char()
    else if p == Point(x1, y1) then BRCorner.Char()
    else if (p.y == y0 || p.y == y1) && x0 <= p.x <= x1 then HLine.Char()
    else if (p.x == x0 || p.x == x1) && y0 <= p.y <= y1 then VLine.Char()
    else before
  }

  /** What a box looks like, cell by cell. */
  function BoxCell(b: Shape, p: Point, before: char): char
    requires b.Box?
  {
    FrameCell(b, BoxLines(b), p, before)
  }

  // ---------------------------------------------------------------- lines

  datatype DrawError =
    | Diagonal      // a straight stroke asked for between points differing on both axes
    | NoArrowGlyph  // the arrow angle has no entry in the degree table

  /** `math.atan2(w, h)` in degrees, truncated to an int, for a vector with
      a zero component; it is exactly 0, 90, 180 or -90 there (atan2(0, 0)
      is 0). Other vectors are not needed: no arrowhead is asked for on a
      diagonal. */
  function AtanDegrees(w: int, h: int): (r: Option<int>)
    ensures r.Some? <==> w == 0 || h == 0
    ensures r.Some? ==> (r.value == 0 <==> w == 0 && h >= 0) && (r.value == 180 <==> w == 0 && h < 0)
    ensures r.Some? ==> (r.value == 90 <==> w > 0) && (r.value == -90 <==> w < 0)
  {
    if w == 0 then Some(if h >= 0 then 0 else 180)
    else if h == 0 then Some(if w > 0 then 90 else -90)
    else None
  }

  /** The degree-to-arrowhead table of `Line`. */
  function DegreeGlyph(degree: int): (r: Option<Glyph>)
    ensures r.Some? <==> degree == 0 || degree == 180 || degree == 90 || degree == -90
    ensures r.Some? ==> r.value.ArrowDown? || r.value.ArrowUp? || r.value.ArrowRight? || r.value.ArrowLeft?
  {
    if degree == 0 then Some(ArrowDown)
    else if degree == 180 then Some(ArrowUp)
    else if degree == 90 then Some(ArrowRight)
    else if degree == -90 then Some(ArrowLeft)
    else None
  }

  /** The arrowhead at `end` of a leg from `start`, from the angle of
      `start - end` (which, by the code's sign convention, is the vector
      from `start` to `end`). */
  function ArrowFor(start: Point, end: Point): (r: Option<Glyph>)
    ensures r.Some? <==> start.x == end.x || start.y == end.y
  {
    var delta := start.SubPoint(end);
    match AtanDegrees(delta.w, delta.h)
    case None => None
    case Some(degree) => DegreeGlyph(degree)
  }

  /** One straight leg (`_draw_line`): a diagonal is an error, an empty leg
      draws nothing, otherwise a run of line glyphs and, for an arrow, the
      arrowhead on its end cell. */
  function DrawLeg(start: Point, end: Point, isArrow: bool): Result<seq<Stroke>, DrawError> {
    if start.x != end.x && start.y != end.y then Failure(Diagonal)
    else if start == end then Success([])
    else
      var stroke := Fill(start, end, (if start.x == end.x then VLine else HLine).Char());
      if !isArrow then Success([stroke])
      else
        match ArrowFor(start, end)
        case None => Failure(NoArrowGlyph)
        case Some(g) => Success([stroke, PutCh(end, g.Char())])
  }

  /** The bend glyph of a two-leg line, keyed by whether x goes forward
      and y goes downwards from `start` to `end`. */
  function CornerFor(orientation: Orientation, start: Point, end: Point): Glyph {
    var xForward := start.x <= end.x;
    var yDownwards := start.y <= end.y;
    if orientation == Horizontal then
      if xForward then (if yDownwards then TRCorner else BRCorner)
      else (if yDownwards then TLCorner else BLCorner)
    else
      if xForward then (if yDownwards then BLCorner else TLCorner)
      else (if yDownwards then BRCorner else TRCorner)
  }

  /** The calls `Line.draw` makes. With the first leg horizontal: a single
      leg when both ends share a row; otherwise the top edge, the vertical
      leg down (or up) to the far corner, and the bend glyph when the legs
      are not on one column. With the first leg vertical, the mirror. */
  function LineStrokes(l: Shape): Result<seq<Stroke>, DrawError>
    requires l.Line?
  {
    var tl, tr, bl, br := l.TopLeft(), l.TopRight(), l.BottomLeft(), l.BottomRight();
    if l.orientation == Horizontal then
      if tl.y == br.y then DrawLeg(tl, tr, l.isArrow)
      else
        var leg :- DrawLeg(tr, br, l.isArrow);
        Success([Fill(tl, tr, HLine.Char())] + leg
                + (if tl.x != br.x then [PutCh(tr, CornerFor(l.orientation, tl, br).Char())] else []))
    else
      if tl.x == br.x then DrawLeg(tl, bl, l.isArrow)
      else
        var leg :- DrawLeg(bl, br, l.isArrow);
        Success([Fill(tl, bl, VLine.Char())] + leg
                + (if tl.y != br.y then [PutCh(bl, CornerFor(l.orientation, tl, br).Char())] else []))
  }

  /** The arrowhead pointing from `start` toward `end`, for two distinct
      points on one row or one column. */
  function Heading(start: Point, end: Point): Glyph {
    if end.x > start.x then ArrowRight
    else if end.x < start.x then ArrowLeft
    else if end.y > start.y then ArrowDown
    else ArrowUp
  }

  /** What a line looks like, cell by cell: its first leg runs from the
      anchor to the bend (top-right corner when the first leg is
      horizontal, bottom-left when vertical), its last leg from the bend to
      the far corner; an empty first leg leaves a single leg. */
  function LineCell(l: Shape, p: Point, before: char): char
    requires l.Line?
  {
    var tl, br := l.TopLeft(), l.BottomRight();
    var horizontal := l.orientation == Horizontal;
    var bend := if horizontal then l.TopRight() else l.BottomLeft();
    var firstGlyph := if horizontal then HLine else VLine;
    var lastGlyph := if horizontal then VLine else HLine;
    if bend == br then
      if tl == bend then before
      else if l.isArrow && p == bend then Heading(tl, bend).Char()
      else if InRect(p, tl, bend) then firstGlyph.Char()
      else before
    else
      if l.isArrow && p == br then Heading(bend, br).Char()
      else if p == bend && tl != bend then CornerFor(l.orientation, tl, br).Char()
      else if InRect(p, bend, br) then lastGlyph.Char()
      else if InRect(p, tl, bend) then firstGlyph.Char()
      else before
  }

  // --------------------------------------------------------------- shapes

  /** The calls an object's own `draw` makes: a box's, or a line's, which
      for a stored line never fail. */
  function ShapeStrokes(o: Shape): (r: seq<Stroke>)
    ensures o.Box? ==> r == BoxStrokes(o)
    ensures o.Line? ==> LineStrokes(o) == Success(r)
  {
    match o
    case Box(_, _, _, _) => BoxStrokes(o)
    case Line(_, _, _, _) => LineStrokesSucceed(o); LineStrokes(o).value
  }

  // --------------------------------------------------------------- lemmas

  /** The arrowhead of a leg points from its start to its end: the angle
      buckets of the code agree with the direction of travel. */
  lemma ArrowPointsAlongLeg(start: Point, end: Point)
    requires start != end && (start.x == end.x || start.y == end.y)
    ensures ArrowFor(start, end) == Some(Heading(start, end))
    ensures Heading(start, end) == ArrowRight <==> end.x > start.x
    ensures Heading(start, end) == ArrowLeft <==> end.x < start.x
    ensures Heading(start, end) == ArrowDown <==> end.y > start.y
    ensures Heading(start, end) == ArrowUp <==> end.y < start.y
    ensures Arms(Heading(start, end)) == {if end.x > start.x then Right else if end.x < start.x then Left else if end.y > start.y then Down else Up}
  {
  }

  /** A straight stroke between points that differ on both axes is
      rejected; a zero-length leg draws nothing; any other leg draws. */
  lemma DrawLegCases(start: Point, end: Point, isArrow: bool)
    ensures start.x != end.x && start.y != end.y ==> DrawLeg(start, end, isArrow) == Failure(Diagonal)
    ensures start == end ==> DrawLeg(start, end, isArrow) == Success([])
    ensures (start.x == end.x || start.y == end.y) && start != end ==>
      DrawLeg(start, end, isArrow).Success? && |DrawLeg(start, end, isArrow).value| == if isArrow then 2 else 1
  {
  }

  /** The bend glyph joins the two legs: its arms reach back along the
      first leg and on along the second. */
  lemma CornerJoinsLegs(l: Shape)
    requires l.Line? && l.size.w != 0 && l.size.h != 0
    ensures l.orientation == Horizontal ==>
      Arms(CornerFor(l.orientation, l.TopLeft(), l.BottomRight()))
        == {if l.size.w > 0 then Left else Right, if l.size.h > 0 then Down else Up}
    ensures l.orientation != Horizontal ==>
      Arms(CornerFor(l.orientation, l.TopLeft(), l.BottomRight()))
        == {if l.size.h > 0 then Up else Down, if l.size.w > 0 then Right else Left}
  {
  }

  /** Drawing a line never meets a diagonal leg: every leg it asks for is
      axis-aligned. */
  lemma LineStrokesSucceed(l: Shape)
    requires l.Line?
    ensures LineStrokes(l).Success?
  {
    var tl, tr, bl, br := l.TopLeft(), l.TopRight(), l.BottomLeft(), l.BottomRight();
    DrawLegCases(tl, tr, l.isArrow);
    DrawLegCases(tr, br, l.isArrow);
    DrawLegCases(tl, bl, l.isArrow);
    DrawLegCases(bl, br, l.isArrow);
  }

  lemma RenderSingle(s: Stroke, p: Point, before: char)
    ensures Render([s], p, before) == Apply(s, p, before)
  {
    assert [s][..0] == [];
  }

  lemma RenderPair(s: Stroke, t: Stroke, p: Point, before: char)
    ensures Render([s, t], p, before) == Apply(t, p, Apply(s, p, before))
  {
    assert [s, t][..1] == [s];
    RenderSingle(s, p, before);
  }

  /** A leg renders as its run of glyphs, with the arrowhead on its end. */
  lemma {:induction false} LegRender(start: Point, end: Point, isArrow: bool, p: Point, before: char)
    requires start != end && (start.x == end.x || start.y == end.y)
    ensures DrawLeg(start, end, isArrow).Success?
    ensures Render(DrawLeg(start, end, isArrow).value, p, before) ==
      if isArrow && p == end then Heading(start, end).Char()
      else if InRect(p, start, end) then (if start.x == end.x then VLine else HLine).Char()
      else before
  {
    ArrowPointsAlongLeg(start, end);
    var stroke := Fill(start, end, (if start.x == end.x then VLine else HLine).Char());
    if isArrow {
      RenderPair(stroke, PutCh(end, Heading(start, end).Char()), p, before);
    } else {
      RenderSingle(stroke, p, before);
    }
  }

  /** Every on-screen cell shows, after a line is drawn, what `LineCell`
      describes. */
  lemma {:induction false} LineDrawn(l: Shape, p: Point, before: char)
    requires l.Line?
    ensures LineStrokes(l).Success?
    ensures Render(LineStrokes(l).value, p, before) == LineCell(l, p, before)
  {
    LineStrokesSucceed(l);
    var tl, tr, bl, br := l.TopLeft(), l.TopRight(), l.BottomLeft(), l.BottomRight();
    var horizontal := l.orientation == Horizontal;
    var bend := if horizontal then tr else bl;
    var firstGlyph := if horizontal then HLine else VLine;
    if bend == br {
      if tl != bend {
        LegRender(tl, bend, l.isArrow, p, before);
      }
    } else {
      var first := Fill(tl, bend, firstGlyph.Char());
      var leg := DrawLeg(bend, br, l.isArrow).value;
      var corner := if tl != bend then [PutCh(bend, CornerFor(l.orientation, tl, br).Char())] else [];
      assert LineStrokes(l).value == [first] + leg + corner;
      RenderAppend([first] + leg, corner, p, before);
      RenderAppend([first], leg, p, before);
      RenderSingle(first, p, before);
      LegRender(bend, br, l.isArrow, p, Apply(first, p, before));
      if tl != bend {
        RenderSingle(corner[0], p, Render([first] + leg, p, before));
      }
    }
  }

  /** The text rows land on consecutive rows below `origin`, each from
      column `origin.x`, and nowhere else; none is written when `origin`
      lies left of the screen. */
  lemma RowsRender(origin: Point, rows: seq<string>, p: Point, before: char)
    ensures Render(RowStrokes(origin, rows), p, before) ==
      if 0 <= origin.x && 0 <= p.y - origin.y < |rows| && 0 <= p.x - origin.x < |rows[p.y - origin.y]|
      then rows[p.y - origin.y][p.x - origin.x] else before
  {
    var s := RowStrokes(origin, rows);
    var i := p.y - origin.y;
    if 0 <= origin.x && 0 <= i < |rows| && 0 <= p.x - origin.x < |rows[i]| {
      RenderLastWrite(s, i, p, before);
    } else {
      RenderUntouched(s, p, before);
    }
  }

  /** A border drawn around a box of any size, in terms of its normalized
      corners: the corner glyphs on the corners, vertical runs along the
      sides, horizontal runs along the top and bottom edges, and the old
      content elsewhere. When corners coincide (a zero width or height) the
      glyph put last wins: bottom-right, bottom-left, top-right, top-left. */
  lemma BorderRender(b: Shape, p: Point, before: char)
    ensures Render(BorderStrokes(b), p, before) ==
      var tl, br := b.NormalizedTopLeft(), b.NormalizedBottomRight();
      if p == br then BRCorner.Char()
      else if p == Point(tl.x, br.y) then BLCorner.Char()
      else if p == Point(br.x, tl.y) then TRCorner.Char()
      else if p == tl then TLCorner.Char()
      else if (p.x == tl.x || p.x == br.x) && tl.y <= p.y <= br.y then VLine.Char()
      else if (p.y == tl.y || p.y == br.y) && tl.x <= p.x <= br.x then HLine.Char()
      else before
  {
    var s := BorderStrokes(b);
    var tl, br := b.NormalizedTopLeft(), b.NormalizedBottomRight();
    NormalizedCornersAreMinMax(b);
    var x0, y0 := b.position.x, b.position.y;
    var x1, y1 := x0 + b.size.w, y0 + b.size.h;
    var k :=
      if p == br then 7
      else if p == Point(tl.x, br.y) then 6
      else if p == Point(br.x, tl.y) then 5
      else if p == tl then 4
      else if p.x == x0 && tl.y <= p.y <= br.y then 3
      else if p.x == x1 && tl.y <= p.y <= br.y then 2
      else if p.y == y1 && tl.x <= p.x <= br.x then 1
      else if p.y == y0 && tl.x <= p.x <= br.x then 0
      else -1;
    if k >= 0 {
      forall k' | k < k' < |s| ensures Effect(s[k'], p).None? {
      }
      RenderLastWrite(s, k, p, before);
    } else {
      RenderUntouched(s, p, before);
    }
  }

  /** Inside the clip bounds, the clipped lines hold exactly the
      characters of the lines; outside them, nothing. */
  lemma ClipCell(lines: seq<string>, rowCount: int, columnCount: int, i: int, j: int)
    requires 0 <= rowCount && 0 <= columnCount && 0 <= i && 0 <= j
    ensures var rows := Clip(lines, rowCount, columnCount);
      (i < |rows| && j < |rows[i]|) <==>
        (i < |lines| && j < |lines[i]| && i < rowCount && j < columnCount)
    ensures var rows := Clip(lines, rowCount, columnCount);
      i < |rows| && j < |rows[i]| ==> rows[i][j] == lines[i][j]
  {
    var kept := Take(lines, rowCount);
    if i < |kept| {
      assert kept[i] == lines[i];
    }
  }

  /** The border (when shown) and the cleared interior, before the text:
      blanks strictly inside the box, the border on its outline. */
  lemma {:induction false} FramedRender(b: Shape, lines: seq<string>, p: Point, before: char)
    requires b.Box? && b.size.w >= 2 && b.size.h >= 2
    ensures var clear := Fill(b.TopLeft().Add(Size(1, 1)), b.BottomRight().SubSize(Size(1, 1)), ' ');
      Render((if b.showBorder then BorderStrokes(b) else []) + [clear], p, before) ==
        if b.position.x < p.x < b.position.x + b.size.w && b.position.y < p.y < b.position.y + b.size.h then ' '
        else FrameCell(b, lines, p, before)
  {
    var border := if b.showBorder then BorderStrokes(b) else [];
    var clear := Fill(b.TopLeft().Add(Size(1, 1)), b.BottomRight().SubSize(Size(1, 1)), ' ');
    RenderAppend(border, [clear], p, before);
    RenderSingle(clear, p, Render(border, p, before));
    if b.showBorder {
      BorderRender(b, p, before);
    }
  }

  /** Inside the clip bounds, rows written from `origin` show the
      character of the line, or a blank past its end; nothing is written
      when `origin` is left of column 0. */
  lemma {:induction false} InteriorCell(origin: Point, lines: seq<string>, rowCount: int, columnCount: int, p: Point)
    requires 0 <= p.y - origin.y < rowCount && 0 <= p.x - origin.x < columnCount
    ensures Render(RowStrokes(origin, Clip(lines, rowCount, columnCount)), p, ' ') ==
      if 0 <= origin.x then TextCell(lines, p.y - origin.y, p.x - origin.x) else ' '
  {
    RowsRender(origin, Clip(lines, rowCount, columnCount), p, ' ');
    ClipCell(lines, rowCount, columnCount, p.y - origin.y, p.x - origin.x);
  }

  /** Outside the clip bounds, the clipped rows write nothing. */
  lemma {:induction false} ExteriorCell(origin: Point, lines: seq<string>, rowCount: int, columnCount: int, p: Point, mid: char)
    requires 0 <= rowCount && 0 <= columnCount
    requires !(0 <= p.y - origin.y < rowCount && 0 <= p.x - origin.x < columnCount)
    ensures Render(RowStrokes(origin, Clip(lines, rowCount, columnCount)), p, mid) == mid
  {
    RowsRender(origin, Clip(lines, rowCount, columnCount), p, mid);
    var i, j := p.y - origin.y, p.x - origin.x;
    if 0 <= i && 0 <= j {
      ClipCell(lines, rowCount, columnCount, i, j);
    }
  }

  /** Drawing a box as its frame followed by its text rows. */
  lemma FrameStrokesSplit(b: Shape, lines: seq<string>, p: Point, before: char)
    requires b.Box?
    ensures var clear := Fill(b.TopLeft().Add(Size(1, 1)), b.BottomRight().SubSize(Size(1, 1)), ' ');
      var framed := (if b.showBorder then BorderStrokes(b) else []) + [clear];
      Render(FrameStrokes(b, lines), p, before) ==
        Render(RowStrokes(b.TopLeft().Add(Size(1, 1)), Clip(lines, b.size.h - 1, b.size.w - 1)), p, Render(framed, p, before))
  {
    var clear := Fill(b.TopLeft().Add(Size(1, 1)), b.BottomRight().SubSize(Size(1, 1)), ' ');
    var framed := (if b.showBorder then BorderStrokes(b) else []) + [clear];
    var rows := RowStrokes(b.TopLeft().Add(Size(1, 1)), Clip(lines, b.size.h - 1, b.size.w - 1));
    assert FrameStrokes(b, lines) == framed + rows;
    RenderAppend(framed, rows, p, before);
  }

  /** Inside the box, the text rows over the frame show what `FrameCell`
      describes there. */
  lemma {:induction false} RowsOverInterior(b: Shape, lines: seq<string>, p: Point, mid: char)
    requires b.Box? && b.size.w >= 2 && b.size.h >= 2
    requires b.position.x < p.x < b.position.x + b.size.w && b.position.y < p.y < b.position.y + b.size.h
    requires mid == ' '
    ensures Render(RowStrokes(b.TopLeft().Add(Size(1, 1)), Clip(lines, b.size.h - 1, b.size.w - 1)), p, mid) ==
      FrameCell(b, lines, p, mid)
  {
    InteriorCell(b.TopLeft().Add(Size(1, 1)), lines, b.size.h - 1, b.size.w - 1, p);
  }

  /** The text rows drawn over the frame leave every cell as `FrameCell`
      describes it. */
  lemma {:induction false} RowsOverFrame(b: Shape, lines: seq<string>, p: Point, before: char)
    requires b.Box? && b.size.w >= 2 && b.size.h >= 2
    ensures var clear := Fill(b.TopLeft().Add(Size(1, 1)), b.BottomRight().SubSize(Size(1, 1)), ' ');
      var framed := (if b.showBorder then BorderStrokes(b) else []) + [clear];
      Render(RowStrokes(b.TopLeft().Add(Size(1, 1)), Clip(lines, b.size.h - 1, b.size.w - 1)), p, Render(framed, p, before)) ==
        FrameCell(b, lines, p, before)
  {
    var clear := Fill(b.TopLeft().Add(Size(1, 1)), b.BottomRight().SubSize(Size(1, 1)), ' ');
    var framed := (if b.showBorder then BorderStrokes(b) else []) + [clear];
    var mid := Render(framed, p, before);
    FramedRender(b, lines, p, before);
    if b.position.x < p.x < b.position.x + b.size.w && b.position.y < p.y < b.position.y + b.size.h {
      RowsOverInterior(b, lines, p, mid);
      assert FrameCell(b, lines, p, mid) == FrameCell(b, lines, p, before);
    } else {
      ExteriorCell(b.TopLeft().Add(Size(1, 1)), lines, b.size.h - 1, b.size.w - 1, p, mid);
    }
  }

  /** Every cell shows, after a box of size at least 2 by 2 showing
      `lines` is drawn, what `FrameCell` describes. */
  lemma {:induction false} FrameDrawn(b: Shape, lines: seq<string>, p: Point, before: char)
    requires b.Box? && b.size.w >= 2 && b.size.h >= 2
    ensures Render(FrameStrokes(b, lines), p, before) == FrameCell(b, lines, p, before)
  {
    FrameStrokesSplit(b, lines, p, before);
    RowsOverFrame(b, lines, p, before);
  }

  /** Every cell shows, after a box of size at least 2 by 2 is drawn, what
      `BoxCell` describes: border glyphs (when shown) on the outline, the
      text lines (or blanks) inside, and the old contents elsewhere. */
  lemma BoxDrawn(b: Shape, p: Point, before: char)
    requires b.Box? && b.size.w >= 2 && b.size.h >= 2
    ensures Render(BoxStrokes(b), p, before) == BoxCell(b, p, before)
  {
    FrameDrawn(b, BoxLines(b), p, before);
  }

  /** A bordered box with a positive size shows the four corner glyphs on
      its corners. */
  lemma BoxCornersShown(b: Shape, before: char)
    requires b.Box? && b.showBorder && b.size.w >= 2 && b.size.h >= 2
    ensures Render(BoxStrokes(b), b.TopLeft(), before) == '┌'
    ensures Render(BoxStrokes(b), b.TopRight(), before) == '┐'
    ensures Render(BoxStrokes(b), b.BottomLeft(), before) == '└'
    ensures Render(BoxStrokes(b), b.BottomRight(), before) == '┘'
  {
    BoxDrawn(b, b.TopLeft(), before);
    BoxDrawn(b, b.TopRight(), before);
    BoxDrawn(b, b.BottomLeft(), before);
    BoxDrawn(b, b.BottomRight(), before);
  }

  /** Character `j` of text line `i` appears `i + 1` rows below and
      `j + 1` columns right of the anchor, as long as it fits inside the
      box (which makes the box at least 2 by 2) and the box does not start
      left of the screen. */
  lemma BoxTextShown(b: Shape, i: nat, j: nat, before: char)
    requires b.Box? && b.position.x >= -1
    requires i < |BoxLines(b)| && j < |BoxLines(b)[i]|
    requires i < b.size.h - 1 && j < b.size.w - 1
    ensures Render(BoxStrokes(b), b.position.Add(Size(j + 1, i + 1)), before) == BoxLines(b)[i][j]
  {
    FrameTextShown(b, BoxLines(b), i, j, before);
  }

  /** A line character within the clip bounds shows at its cell. */
  lemma {:induction false} FrameTextShown(b: Shape, lines: seq<string>, i: nat, j: nat, before: char)
    requires b.Box? && b.position.x >= -1
    requires i < |lines| && j < |lines[i]|
    requires i < b.size.h - 1 && j < b.size.w - 1
    ensures Render(FrameStrokes(b, lines), b.position.Add(Size(j + 1, i + 1)), before) == lines[i][j]
  {
    var q := b.position.Add(Size(j + 1, i + 1));
    FrameDrawn(b, lines, q, before);
    assert FrameCell(b, lines, q, before) == lines[i][j];
  }

  /** The interior is cleared between the raw corners moved one cell
      inwards. With a width below 2 those two points are swapped (or meet),
      so the cleared rectangle reaches the anchor column: the side border
      drawn there is blanked again, and no text row reaches it. */
  lemma {:induction false} NarrowBoxBlanksSide(b: Shape, y: int, before: char)
    requires b.Box? && b.showBorder && b.size.w <= 1 && b.size.h >= 2
    requires b.position.y < y < b.position.y + b.size.h
    ensures Render(BoxStrokes(b), Point(b.position.x, y), before) == ' '
  {
    var p := Point(b.position.x, y);
    var clear := Fill(b.TopLeft().Add(Size(1, 1)), b.BottomRight().SubSize(Size(1, 1)), ' ');
    var origin := b.TopLeft().Add(Size(1, 1));
    var text := Clip(BoxLines(b), b.size.h - 1, b.size.w - 1);
    var rows := RowStrokes(origin, text);
    var strokes := BoxStrokes(b);
    assert strokes == (BorderStrokes(b) + [clear]) + rows;
    RenderAppend(BorderStrokes(b) + [clear], rows, p, before);
    RowsRender(origin, text, p, Render(BorderStrokes(b) + [clear], p, before));
    RenderAppend(BorderStrokes(b), [clear], p, before);
    RenderSingle(clear, p, Render(BorderStrokes(b), p, before));
  }

  /** A horizontal arrow of positive length ends in a right-pointing
      arrowhead, with horizontal glyphs on every cell before it. */
  lemma HorizontalArrowShown(l: Shape, x: int, before: char)
    requires l.Line? && l.orientation == Horizontal && l.isArrow
    requires l.size.h == 0 && l.size.w > 0
    requires l.position.x <= x < l.position.x + l.size.w
    ensures LineStrokes(l).Success?
    ensures Render(LineStrokes(l).value, l.BottomRight(), before) == '⏵'
    ensures Render(LineStrokes(l).value, Point(x, l.position.y), before) == '─'
  {
    LineDrawn(l, l.BottomRight(), before);
    LineDrawn(l, Point(x, l.position.y), before);
  }

  /** A line of size zero draws nothing, in either orientation. */
  lemma EmptyLineDrawsNothing(l: Shape)
    requires l.Line? && l.size == Size(0, 0)
    ensures LineStrokes(l) == Success([])
  {
  }

  // -------------------------------------------------------------- drawing

  /** Performs one canvas call. */
  method Perform(canvas: Canvas, s: Stroke)
    requires canvas.Valid()
    modifies canvas.cells
    ensures forall x, y :: 0 <= x < canvas.width && 0 <= y < canvas.height ==>
      canvas.cells[x, y] == Apply(s, Point(x, y), old(canvas.cells[x, y]))
  {
    match s
    case Fill(a, b, ch) => canvas.Fill(a, b, ch);
    case PutCh(q, ch) => canvas.PutCh(q, ch);
    case PutStr(q, t) => canvas.PutStr(q, t);
  }

  /** Performs a sequence of canvas calls, in order. */
  method PerformAll(canvas: Canvas, strokes: seq<Stroke>)
    requires canvas.Valid()
    modifies canvas.cells
    ensures forall x, y :: 0 <= x < canvas.width && 0 <= y < canvas.height ==>
      canvas.cells[x, y] == Render(strokes, Point(x, y), old(canvas.cells[x, y]))
  {
    var i := 0;
    while i < |strokes|
      invariant 0 <= i <= |strokes|
      invariant forall x, y :: 0 <= x < canvas.width && 0 <= y < canvas.height ==>
        canvas.cells[x, y] == Render(strokes[..i], Point(x, y), old(canvas.cells[x, y]))
    {
      Perform(canvas, strokes[i]);
      assert strokes[..i + 1][..i] == strokes[..i];
      i := i + 1;
    }
    assert strokes[..i] == strokes;
  }

  /** Draws a box or a line on the canvas. */
  method Draw(canvas: Canvas, o: Shape)
    requires canvas.Valid()
    modifies canvas.cells
    ensures forall x, y :: 0 <= x < canvas.width && 0 <= y < canvas.height ==>
      canvas.cells[x, y] == Render(ShapeStrokes(o), Point(x, y), old(canvas.cells[x, y]))
  {
    PerformAll(canvas, ShapeStrokes(o));
  }
}
