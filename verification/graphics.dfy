/** Drawing primitives of the 2D scene library, reduced to what the menu
    scene uses: filled rectangles, stroked line segments, and a "pen" that
    carries the current fill colour the way a Graphics object does between
    `beginFill` and `drawRect` calls. */
module Graphics {

  /** A 24-bit RGB colour written as an integer, as in `0xFFA500`. */
  type Color = nat

  const Black: Color := 0x000000
  const White: Color := 0xFFFFFF
  const Pink: Color := 0xFFC0CB
  const Orange: Color := 0xFFA500

  /** An axis-aligned filled rectangle in the local frame of its owner. */
  datatype Rect = Rect(x: int, y: int, w: int, h: int, color: Color)

  /** What a Graphics object holds after drawing: filled boxes and
      one-pixel stroked segments (the cat's whiskers). */
  datatype Shape =
    | Box(rect: Rect)
    | Segment(x0: int, y0: int, x1: int, y1: int, stroke: Color)

  /** A Graphics object under construction: the current fill colour and the
      shapes drawn so far, in drawing order. */
  datatype Pen = Pen(fill: Color, shapes: seq<Shape>)

  function BeginFill(p: Pen, c: Color): Pen
  {
    p.(fill := c)
  }

  /** `drawRect` paints with whatever fill is current. */
  function DrawRect(p: Pen, x: int, y: int, w: int, h: int): Pen
  {
    p.(shapes := p.shapes + [Box(Rect(x, y, w, h, p.fill))])
  }

  predicate AllBoxes(shapes: seq<Shape>)
  {
    forall k :: 0 <= k < |shapes| ==> shapes[k].Box?
  }
}
