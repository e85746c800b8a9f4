/** Grid geometry of the diagram editor: integer points, signed sizes, the
    box-drawing glyphs and the cursor modes. */
module Geometry {

  function Min(a: int, b: int): int { if a <= b then a else b }

  function Max(a: int, b: int): int { if a <= b then b else a }

  /** A signed extent. A negative component means the shape grows toward
      negative x (or y) from its anchor. */
  datatype Size = Size(w: int, h: int) {

    /** Component-wise sum. */
    function Add(other: Size): Size {
      Size(w + other.w, h + other.h)
    }

    function Neg(): Size {
      Size(-w, -h)
    }
  }

  /** A cell coordinate: x grows to the right, y grows downwards. */
  datatype Point = Point(x: int, y: int) {

    /** Translation by a size. */
    function Add(s: Size): Point {
      Point(x + s.w, y + s.h)
    }

    /** Translation by the opposite of a size. */
    function SubSize(s: Size): Point {
      Point(x - s.w, y - s.h)
    }

    /** `this - other` for two points. The code takes the components as
        `other - this`, so the result is the vector from this point to
        `other`, the opposite of the usual reading of a difference. */
    function SubPoint(other: Point): Size {
      Size(other.x - x, other.y - y)
    }

    /** Inclusive rectangle test. The corners are used as given: they are
        never swapped. */
    predicate IsWithin(topLeft: Point, bottomRight: Point) {
      topLeft.x <= x <= bottomRight.x && topLeft.y <= y <= bottomRight.y
    }
  }

  /** Membership in the inclusive rectangle spanned by two corners given in
      any order. */
  predicate InRect(p: Point, a: Point, b: Point) {
    Min(a.x, b.x) <= p.x <= Max(a.x, b.x) && Min(a.y, b.y) <= p.y <= Max(a.y, b.y)
  }

  /** The glyphs the drawing code writes. */
  datatype Glyph =
    | HLine | VLine
    | TLCorner | TRCorner | BLCorner | BRCorner
    | ArrowRight | ArrowLeft | ArrowUp | ArrowDown
  {
    function Char(): char {
      match this
      case HLine => '─'
      case VLine => '│'
      case TLCorner => '┌'
      case TRCorner => '┐'
      case BLCorner => '└'
      case BRCorner => '┘'
      case ArrowRight => '⏵'
      case ArrowLeft => '⏴'
      case ArrowUp => '⏶'
      case ArrowDown => '⏷'
    }
  }

  /** The four directions of the grid; up is toward smaller y. */
  datatype Direction = Up | Down | Left | Right {

    /** The one-cell step in this direction. */
    function Delta(): Size {
      match this
      case Up => Size(0, -1)
      case Down => Size(0, 1)
      case Left => Size(-1, 0)
      case Right => Size(1, 0)
    }
  }

  /** The sides of its cell that a glyph's strokes reach; for an arrowhead,
      the one direction it points. */
  function Arms(g: Glyph): set<Direction> {
    match g
    case HLine => {Left, Right}
    case VLine => {Up, Down}
    case TLCorner => {Right, Down}
    case TRCorner => {Left, Down}
    case BLCorner => {Right, Up}
    case BRCorner => {Left, Up}
    case ArrowRight => {Right}
    case ArrowLeft => {Left}
    case ArrowUp => {Up}
    case ArrowDown => {Down}
  }

  datatype CursorMode = Hand | Move

  /** Adding a size and then subtracting it gives the point back, and the
      other way round. */
  lemma AddSubSize(p: Point, s: Size)
    ensures p.Add(s).SubSize(s) == p
    ensures p.SubSize(s).Add(s) == p
  {
  }

  /** With the code's sign convention, the difference of `p` and `p + s`
      is `s` one way and `-s` the other way. */
  lemma SubPointConvention(p: Point, s: Size)
    ensures p.SubPoint(p.Add(s)) == s
    ensures p.Add(s).SubPoint(p) == s.Neg()
  {
  }

  /** Adding the difference to the first point reaches the second. */
  lemma SubPointReaches(p: Point, q: Point)
    ensures p.Add(p.SubPoint(q)) == q
  {
  }

  lemma SizeAddCommutative(a: Size, b: Size)
    ensures a.Add(b) == b.Add(a)
  {
  }

  lemma SizeAddAssociative(a: Size, b: Size, c: Size)
    ensures a.Add(b).Add(c) == a.Add(b.Add(c))
  {
  }

  /** Translating by two sizes in turn is translating by their sum. */
  lemma PointAddCompose(p: Point, a: Size, b: Size)
    ensures p.Add(a).Add(b) == p.Add(a.Add(b))
  {
  }

  /** `IsWithin` is inclusive on both bounds, and, because it never swaps
      its corners, it holds for no point at all once the corners are given
      out of order on either axis. For ordered corners it agrees with the
      order-independent rectangle. */
  lemma IsWithinBounds(p: Point, topLeft: Point, bottomRight: Point)
    ensures topLeft.x <= bottomRight.x && topLeft.y <= bottomRight.y ==>
      topLeft.IsWithin(topLeft, bottomRight) && bottomRight.IsWithin(topLeft, bottomRight)
    ensures topLeft.x > bottomRight.x || topLeft.y > bottomRight.y ==> !p.IsWithin(topLeft, bottomRight)
    ensures topLeft.x <= bottomRight.x && topLeft.y <= bottomRight.y ==>
      (p.IsWithin(topLeft, bottomRight) <==> InRect(p, topLeft, bottomRight))
  {
  }

  /** The order-independent rectangle does not care which corner comes
      first. */
  lemma InRectSymmetric(p: Point, a: Point, b: Point)
    ensures InRect(p, a, b) <==> InRect(p, b, a)
  {
  }

  /** The ten glyphs are ten distinct characters. */
  lemma GlyphCharInjective(g: Glyph, g': Glyph)
    ensures g.Char() == g'.Char() <==> g == g'
  {
  }
}
