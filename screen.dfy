/** The character grid the editor draws on: a width-by-height screen of
    cells. Writes outside the screen are silently dropped, and reads
    outside it give the empty string. */
module Screen {
  import opened Geometry

  class Canvas {
    const width: nat
    const height: nat
    const cells: array2<char>

    ghost predicate Valid() {
      cells.Length0 == width && cells.Length1 == height
    }

    predicate InBounds(p: Point) {
      0 <= p.x < width && 0 <= p.y < height
    }

    /** A blank screen of the given dimensions. */
    constructor (width: nat, height: nat)
      ensures Valid() && fresh(cells)
      ensures this.width == width && this.height == height
      ensures forall x, y :: 0 <= x < width && 0 <= y < height ==> cells[x, y] == ' '
    {
      this.width := width;
      this.height := height;
      cells := new char[width, height]((x, y) => ' ');
    }

    /** The character in cell `p`, or "" off screen. */
    function GetCh(p: Point): (r: string)
      requires Valid()
      reads cells
      ensures |r| <= 1
      ensures |r| == 1 <==> InBounds(p)
      ensures InBounds(p) ==> r[0] == cells[p.x, p.y]
    {
      if InBounds(p) then [cells[p.x, p.y]] else ""
    }

    /** Writes `ch` into cell `p`; off screen it does nothing and raises
        nothing. */
    method PutCh(p: Point, ch: char)
      requires Valid()
      modifies cells
      ensures forall x, y :: 0 <= x < width && 0 <= y < height ==>
        cells[x, y] == if Point(x, y) == p then ch else old(cells[x, y])
      ensures InBounds(p) ==> GetCh(p) == [ch]
      ensures !InBounds(p) ==> unchanged(cells) && GetCh(p) == ""
    {
      if InBounds(p) {
        cells[p.x, p.y] := ch;
      }
    }

    /** Writes `text` along row `p.y` from column `p.x`, provided the start
        cell is on screen; the text is clipped at the right edge. */
    method PutStr(p: Point, text: string)
      requires Valid()
      modifies cells
      ensures forall x, y :: 0 <= x < width && 0 <= y < height ==>
        cells[x, y] == if InBounds(p) && y == p.y && p.x <= x < p.x + |text| then text[x - p.x] else old(cells[x, y])
    {
      if InBounds(p) {
        var i := 0;
        while i < |text| && p.x + i < width
          invariant 0 <= i <= |text| && p.x + i <= width
          invariant forall x, y :: 0 <= x < width && 0 <= y < height ==>
            cells[x, y] == if y == p.y && p.x <= x < p.x + i then text[x - p.x] else old(cells[x, y])
        {
          cells[p.x + i, p.y] := text[i];
          i := i + 1;
        }
      }
    }

    /** Writes `ch` into every on-screen cell of the inclusive rectangle
        spanned by `start` and `end`, taken in either order, row by row. */
    method Fill(start: Point, end: Point, ch: char)
      requires Valid()
      modifies cells
      ensures forall x, y :: 0 <= x < width && 0 <= y < height ==>
        cells[x, y] == if InRect(Point(x, y), start, end) then ch else old(cells[x, y])
    {
      var sx, sy := start.x, start.y;
      var ex, ey := end.x, end.y;
      if sx > ex {
        sx, ex := ex, sx;
      }
      if sy > ey {
        sy, ey := ey, sy;
      }
      var y := sy;
      while y <= ey
        invariant sy <= y <= ey + 1
        invariant forall x', y' :: 0 <= x' < width && 0 <= y' < height ==>
          cells[x', y'] == if sx <= x' <= ex && sy <= y' < y then ch else old(cells[x', y'])
      {
        var x := sx;
        while x <= ex
          invariant sx <= x <= ex + 1
          invariant forall x', y' :: 0 <= x' < width && 0 <= y' < height ==>
            cells[x', y'] == if sx <= x' <= ex && (sy <= y' < y || (y' == y && x' < x)) then ch else old(cells[x', y'])
        {
          PutCh(Point(x, y), ch);
          x := x + 1;
        }
        y := y + 1;
      }
    }

    /** Blanks every cell. */
    method Clear()
      requires Valid()
      modifies cells
      ensures forall x, y :: 0 <= x < width && 0 <= y < height ==> cells[x, y] == ' '
    {
      forall x, y | 0 <= x < width && 0 <= y < height {
        cells[x, y] := ' ';
      }
    }
  }
}
