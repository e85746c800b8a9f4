/** What a sequence of canvas calls leaves in one cell. Drawing a shape is a
    fixed sequence of `fill`, `put_ch` and `put_str` calls; a `Stroke` is
    one such call, and `Render` gives the character a cell shows after the
    calls, later calls overwriting earlier ones. The meaning of each call
    is stated for a cell inside the screen. */
module Strokes {
  import opened Wrappers
  import opened Geometry

  datatype Stroke =
    | Fill(start: Point, end: Point, ch: char)
    | PutCh(at: Point, ch: char)
    | PutStr(at: Point, text: string)

  /** The character one call writes into the on-screen cell `p`, if any.
      `Fill` covers the inclusive rectangle of its two corners in either
      order. `PutStr` writes nothing at all unless its start is on screen,
      so for an on-screen cell it needs `0 <= at.x`; the rest of its bound
      follows from `p` being on screen. */
  function Effect(s: Stroke, p: Point): Option<char> {
    match s
    case Fill(a, b, ch) => if InRect(p, a, b) then Some(ch) else None
    case PutCh(q, ch) => if q == p then Some(ch) else None
    case PutStr(q, t) =>
      if p.y == q.y && 0 <= q.x <= p.x < q.x + |t| then Some(t[p.x - q.x]) else None
  }

  /** The cell after one call, given the cell before it. */
  function Apply(s: Stroke, p: Point, before: char): char {
    match Effect(s, p)
    case Some(c) => c
    case None => before
  }

  /** The cell after all the calls, in order, given the cell before them. */
  function Render(strokes: seq<Stroke>, p: Point, before: char): char {
    if |strokes| == 0 then before
    else Apply(strokes[|strokes| - 1], p, Render(strokes[..|strokes| - 1], p, before))
  }

  /** Drawing two call sequences one after the other is drawing their
      concatenation. */
  lemma {:induction false} RenderAppend(a: seq<Stroke>, b: seq<Stroke>, p: Point, before: char)
    ensures Render(a + b, p, before) == Render(b, p, Render(a, p, before))
    decreases |b|
  {
    if |b| == 0 {
      assert a + b == a;
    } else {
      var b' := b[..|b| - 1];
      assert (a + b)[..|a + b| - 1] == a + b';
      RenderAppend(a, b', p, before);
    }
  }

  /** A cell that no call touches keeps its character. */
  lemma {:induction false} RenderUntouched(strokes: seq<Stroke>, p: Point, before: char)
    requires forall k :: 0 <= k < |strokes| ==> Effect(strokes[k], p).None?
    ensures Render(strokes, p, before) == before
    decreases |strokes|
  {
    if |strokes| > 0 {
      var init := strokes[..|strokes| - 1];
      assert forall k :: 0 <= k < |init| ==> init[k] == strokes[k];
      RenderUntouched(init, p, before);
    }
  }

  /** The last call that touches a cell decides its character. */
  lemma {:induction false} RenderLastWrite(strokes: seq<Stroke>, k: int, p: Point, before: char)
    requires 0 <= k < |strokes| && Effect(strokes[k], p).Some?
    requires forall k' :: k < k' < |strokes| ==> Effect(strokes[k'], p).None?
    ensures Render(strokes, p, before) == Effect(strokes[k], p).value
    decreases |strokes|
  {
    if k < |strokes| - 1 {
      var init := strokes[..|strokes| - 1];
      assert forall k' :: k < k' < |init| ==> init[k'] == strokes[k'];
      RenderLastWrite(init, k, p, before);
    }
  }

  /** `fill(a, b, ch)` and `fill(b, a, ch)` write the same cells. */
  lemma FillOrderIndependent(a: Point, b: Point, ch: char, p: Point)
    ensures Effect(Fill(a, b, ch), p) == Effect(Fill(b, a, ch), p)
  {
    InRectSymmetric(p, a, b);
  }
}
