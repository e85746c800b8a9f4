/** The diagram objects: boxes and lines, each anchored at a `position`
    with a signed `size`, and the corner points derived from the two. */
module Shapes {
  import opened Geometry

  /** The direction of a line's first leg is stored as the integer value
      of the code's enum: 1 for horizontal, 2 for vertical. A loaded record
      may carry any other integer; every test of the code then takes it
      for "not horizontal". */
  type Orientation = int

  const Horizontal: Orientation := 1
  const Vertical: Orientation := 2

  /** A diagram object. `position` is the anchor the user placed; `size`
      may be negative on either axis. A box carries its text and whether
      its border is shown; a line carries the direction of its first leg
      and whether it ends in an arrowhead. */
  datatype Shape =
    | Box(position: Point, size: Size, text: string, showBorder: bool)
    | Line(position: Point, size: Size, orientation: Orientation, isArrow: bool)
  {
    /** The anchor moved back along every negative size component, so that
        it becomes the geometric top-left corner. */
    function NormalizedPosition(): Point {
      Point(if size.w < 0 then position.x + size.w else position.x,
            if size.h < 0 then position.y + size.h else position.y)
    }

    function NormalizedSize(): Size {
      Size(if size.w < 0 then -size.w else size.w, if size.h < 0 then -size.h else size.h)
    }

    function TopLeft(): Point {
      position
    }

    function TopRight(): Point {
      Point(position.x + size.w, position.y)
    }

    function BottomLeft(): Point {
      Point(position.x, position.y + size.h)
    }

    function BottomRight(): Point {
      position.Add(size)
    }

    function NormalizedTopLeft(): Point {
      NormalizedPosition()
    }

    function NormalizedTopRight(): Point {
      Point(NormalizedPosition().x + NormalizedSize().w, NormalizedPosition().y)
    }

    function NormalizedBottomLeft(): Point {
      Point(NormalizedPosition().x, NormalizedPosition().y + NormalizedSize().h)
    }

    function NormalizedBottomRight(): Point {
      NormalizedPosition().Add(NormalizedSize())
    }

    /** The object's main switch: a box shows or hides its border, a line
        swaps the direction of its first leg. */
    function Toggle(): Shape {
      match this
      case Box(_, _, _, border) => this.(showBorder := !border)
      case Line(_, _, orientation, _) =>
        this.(orientation := if orientation == Vertical then Horizontal else Vertical)
    }
  }

  /** A new box as the editor creates it: empty text, border shown. */
  function NewBox(position: Point, size: Size): (r: Shape)
    ensures r.Box? && r.position == position && r.size == size
    ensures r.text == "" && r.showBorder
  {
    Box(position, size, "", true)
  }

  /** A new line or arrow as the editor creates it: first leg horizontal. */
  function NewLine(position: Point, isArrow: bool, size: Size): (r: Shape)
    ensures r.Line? && r.position == position && r.size == size
    ensures r.orientation == Horizontal && r.isArrow == isArrow
  {
    Line(position, size, Horizontal, isArrow)
  }

  /** Whatever the signs of `size`, the normalized top-left corner is the
      component-wise minimum of the two raw anchor corners and the
      normalized bottom-right corner their maximum, so the normalized
      corners are always ordered. */
  lemma NormalizedCornersAreMinMax(o: Shape)
    ensures o.NormalizedTopLeft() == Point(Min(o.position.x, o.BottomRight().x), Min(o.position.y, o.BottomRight().y))
    ensures o.NormalizedBottomRight() == Point(Max(o.position.x, o.BottomRight().x), Max(o.position.y, o.BottomRight().y))
    ensures o.NormalizedTopLeft().x <= o.NormalizedBottomRight().x
    ensures o.NormalizedTopLeft().y <= o.NormalizedBottomRight().y
    ensures o.NormalizedSize().w >= 0 && o.NormalizedSize().h >= 0
  {
  }

  /** The four normalized corners are the four raw corners relabelled:
      the same set of points. */
  lemma NormalizedCornersRelabelRaw(o: Shape)
    ensures {o.NormalizedTopLeft(), o.NormalizedTopRight(), o.NormalizedBottomLeft(), o.NormalizedBottomRight()}
         == {o.TopLeft(), o.TopRight(), o.BottomLeft(), o.BottomRight()}
  {
  }

  /** Toggling twice restores an object the editor made (a box, or a line
      whose orientation is one of the two enum values), and toggling never
      moves it. A toggled line is horizontal exactly when it was vertical. */
  lemma ToggleInvolution(o: Shape)
    ensures (o.Line? ==> o.orientation == Horizontal || o.orientation == Vertical) ==> o.Toggle().Toggle() == o
    ensures o.Toggle().position == o.position && o.Toggle().size == o.size
    ensures o.Toggle().Box? == o.Box?
    ensures o.Box? ==> o.Toggle().showBorder != o.showBorder && o.Toggle().text == o.text
    ensures o.Line? ==> o.Toggle().isArrow == o.isArrow
    ensures o.Line? ==> (o.Toggle().orientation == Horizontal <==> o.orientation == Vertical)
    ensures o.Line? ==> (o.Toggle().orientation == Vertical <==> o.orientation != Vertical)
  {
  }

  /** A line loaded with an orientation other than the two enum values is
      drawn as vertical, and its first toggle makes it vertical again: it
      takes two toggles to turn horizontal. */
  lemma UnknownOrientationToggle(o: Shape)
    requires o.Line? && o.orientation != Horizontal && o.orientation != Vertical
    ensures o.Toggle().orientation == Vertical
    ensures o.Toggle().Toggle().orientation == Horizontal
    ensures o.Toggle().Toggle() != o
  {
  }
}
