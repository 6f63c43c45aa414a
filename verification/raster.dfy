/** The pixel-pattern rasteriser behind the tree leaves, the cat's body and
    the cat's tail: a matrix of small integers becomes one square per drawn
    cell, emitted row by row, left to right. */
module Raster {
  import opened Graphics

  type Pattern = seq<seq<int>>

  /** How a cell value chooses its colour. The leaves index a palette with
      `value - 1` and draw only values above zero; the body and tail test the
      value for truthiness and draw in the single colour set beforehand. */
  datatype Brush = Palette(colors: seq<Color>) | Solid(color: Color)

  predicate Paints(b: Brush, v: int)
  {
    if b.Palette? then v > 0 else v != 0
  }

  /** Every painted value names an entry of the palette. */
  predicate Fits(b: Brush, v: int)
  {
    b.Palette? && Paints(b, v) ==> v - 1 < |b.colors|
  }

  predicate RowFits(b: Brush, row: seq<int>)
  {
    forall j :: 0 <= j < |row| ==> Fits(b, row[j])
  }

  predicate PatternFits(b: Brush, p: Pattern)
  {
    forall i :: 0 <= i < |p| ==> RowFits(b, p[i])
  }

  function Ink(b: Brush, v: int): Color
    requires Paints(b, v) && Fits(b, v)
  {
    if b.Palette? then b.colors[v - 1] else b.color
  }

  /** The square drawn for value `v` at row `i`, column `j`. */
  function CellRect(b: Brush, v: int, i: int, j: int, size: int): Rect
    requires Paints(b, v) && Fits(b, v)
  {
    Rect(j * size, i * size, size, size, Ink(b, v))
  }

  /** Row-major order on the top-left corners of two squares. */
  predicate Before(a: Rect, c: Rect)
  {
    a.y < c.y || (a.y == c.y && a.x < c.x)
  }

  predicate StrictlyOrdered(rs: seq<Rect>)
  {
    forall k, l :: 0 <= k < l < |rs| ==> Before(rs[k], rs[l])
  }

  /** The squares of row `i` for its cells from column `j` on: the inner
      `forEach` over a row, left to right. */
  function RowRects(row: seq<int>, i: int, j: nat, b: Brush, size: int): seq<Rect>
    requires RowFits(b, row)
    decreases |row| - j
  {
    if j >= |row| then []
    else
      (if Paints(b, row[j]) then [CellRect(b, row[j], i, j, size)] else [])
        + RowRects(row, i, j + 1, b, size)
  }

  /** The squares of the rows of `p` from row `i` on: the outer `forEach`. */
  function RasteriseFrom(p: Pattern, i: nat, b: Brush, size: int): seq<Rect>
    requires PatternFits(b, p)
    decreases |p| - i
  {
    if i >= |p| then []
    else RowRects(p[i], i, 0, b, size) + RasteriseFrom(p, i + 1, b, size)
  }

  /** The squares of a whole pattern, first row first, each row left to
      right. */
  function Rasterise(p: Pattern, b: Brush, size: int): (rs: seq<Rect>)
    requires PatternFits(b, p)
    ensures |rs| == Drawn(b, p, 0)
    ensures forall k :: 0 <= k < |rs| ==> FromCell(p, 0, b, size, rs[k])
    ensures forall i, j :: 0 <= i < |p| && 0 <= j < |p[i]| && Paints(b, p[i][j]) ==>
      CellRect(b, p[i][j], i, j, size) in rs
    ensures size > 0 ==> StrictlyOrdered(rs)
  {
    RasteriseCount(p, 0, b, size);
    RasteriseSound(p, 0, b, size);
    RasteriseComplete(p, 0, b, size);
    if size > 0 then
      RasteriseOrdered(p, 0, b, size);
      RasteriseFrom(p, 0, b, size)
    else
      RasteriseFrom(p, 0, b, size)
  }

  /** A sprite as the scene builders describe it: a pattern, how its values
      are coloured, and the side of one cell. */
  datatype Sprite = Sprite(pattern: Pattern, brush: Brush, size: int)

  predicate SpriteFits(s: Sprite)
  {
    PatternFits(s.brush, s.pattern)
  }

  /** The squares a sprite draws. */
  function Squares(s: Sprite): seq<Rect>
    requires SpriteFits(s)
  {
    Rasterise(s.pattern, s.brush, s.size)
  }

  /** The number of drawn cells of a row from column `j` on, and of a
      pattern from row `i` on. */
  function RowDrawn(b: Brush, row: seq<int>, j: nat): nat
    decreases |row| - j
  {
    if j >= |row| then 0 else (if Paints(b, row[j]) then 1 else 0) + RowDrawn(b, row, j + 1)
  }

  function Drawn(b: Brush, p: Pattern, i: nat): nat
    decreases |p| - i
  {
    if i >= |p| then 0 else RowDrawn(b, p[i], 0) + Drawn(b, p, i + 1)
  }

  // ---------------------------------------------------------------------
  // One row

  /** `r` is the square of some drawn cell of `row` at or after column `j0`. */
  ghost predicate FromRowCell(row: seq<int>, i: int, j0: nat, b: Brush, size: int, r: Rect)
    requires RowFits(b, row)
  {
    exists j :: j0 <= j < |row| && Paints(b, row[j]) && r == CellRect(b, row[j], i, j, size)
  }

  lemma {:induction false} RowSound(row: seq<int>, i: int, j0: nat, b: Brush, size: int)
    requires RowFits(b, row)
    ensures forall k :: 0 <= k < |RowRects(row, i, j0, b, size)| ==>
      FromRowCell(row, i, j0, b, size, RowRects(row, i, j0, b, size)[k])
    decreases |row| - j0
  {
    if j0 < |row| {
      RowSound(row, i, j0 + 1, b, size);
      var rs := RowRects(row, i, j0, b, size);
      var head := if Paints(b, row[j0]) then [CellRect(b, row[j0], i, j0, size)] else [];
      var ts := RowRects(row, i, j0 + 1, b, size);
      assert rs == head + ts;
      forall k | 0 <= k < |rs|
        ensures FromRowCell(row, i, j0, b, size, rs[k])
      {
        if k >= |head| {
          assert rs[k] == ts[k - |head|];
          assert FromRowCell(row, i, j0 + 1, b, size, ts[k - |head|]);
        }
      }
    }
  }

  lemma {:induction false} RowComplete(row: seq<int>, i: int, j0: nat, b: Brush, size: int)
    requires RowFits(b, row)
    ensures forall j :: j0 <= j < |row| && Paints(b, row[j]) ==>
      CellRect(b, row[j], i, j, size) in RowRects(row, i, j0, b, size)
    decreases |row| - j0
  {
    if j0 < |row| {
      RowComplete(row, i, j0 + 1, b, size);
    }
  }

  /** As many squares as drawn cells. */
  lemma {:induction false} RowCount(row: seq<int>, i: int, j0: nat, b: Brush, size: int)
    requires RowFits(b, row)
    ensures |RowRects(row, i, j0, b, size)| == RowDrawn(b, row, j0)
    decreases |row| - j0
  {
    if j0 < |row| {
      RowCount(row, i, j0 + 1, b, size);
    }
  }

  /** Every square of a row lies on that row, within its columns. */
  lemma {:induction false} RowPlacement(row: seq<int>, i: int, j0: nat, b: Brush, size: int)
    requires RowFits(b, row) && size > 0
    ensures forall k :: 0 <= k < |RowRects(row, i, j0, b, size)| ==>
      RowRects(row, i, j0, b, size)[k].y == i * size
      && j0 * size <= RowRects(row, i, j0, b, size)[k].x < |row| * size
  {
    RowSound(row, i, j0, b, size);
    var rs := RowRects(row, i, j0, b, size);
    forall k | 0 <= k < |rs|
      ensures rs[k].y == i * size && j0 * size <= rs[k].x < |row| * size
    {
      assert FromRowCell(row, i, j0, b, size, rs[k]);
      var j :| j0 <= j < |row| && Paints(b, row[j]) && rs[k] == CellRect(b, row[j], i, j, size);
      MulMonotone(j0, j, size);
      MulStrict(j, |row|, size);
    }
  }

  lemma {:induction false} RowOrdered(row: seq<int>, i: int, j0: nat, b: Brush, size: int)
    requires RowFits(b, row) && size > 0
    ensures StrictlyOrdered(RowRects(row, i, j0, b, size))
    decreases |row| - j0
  {
    if j0 < |row| {
      RowOrdered(row, i, j0 + 1, b, size);
      RowPlacement(row, i, j0 + 1, b, size);
      MulStrict(j0, j0 + 1, size);
    }
  }

  // ---------------------------------------------------------------------
  // The whole pattern

  /** `r` is the square of some drawn cell of the pattern at or below row
      `i0`. */
  ghost predicate FromCell(p: Pattern, i0: nat, b: Brush, size: int, r: Rect)
    requires PatternFits(b, p)
  {
    exists i, j :: i0 <= i < |p| && 0 <= j < |p[i]| && Paints(b, p[i][j])
      && r == CellRect(b, p[i][j], i, j, size)
  }

  /** Every square comes from a drawn cell: the square of that cell's value
      at `(j * size, i * size)`. */
  lemma {:induction false} RasteriseSound(p: Pattern, i0: nat, b: Brush, size: int)
    requires PatternFits(b, p)
    ensures forall k :: 0 <= k < |RasteriseFrom(p, i0, b, size)| ==>
      FromCell(p, i0, b, size, RasteriseFrom(p, i0, b, size)[k])
    decreases |p| - i0
  {
    if i0 < |p| {
      RasteriseSound(p, i0 + 1, b, size);
      RowSound(p[i0], i0, 0, b, size);
      var rs := RasteriseFrom(p, i0, b, size);
      var hs := RowRects(p[i0], i0, 0, b, size);
      var ts := RasteriseFrom(p, i0 + 1, b, size);
      assert rs == hs + ts;
      forall k | 0 <= k < |rs|
        ensures FromCell(p, i0, b, size, rs[k])
      {
        if k < |hs| {
          assert rs[k] == hs[k];
          assert FromRowCell(p[i0], i0, 0, b, size, hs[k]);
          var j :| 0 <= j < |p[i0]| && Paints(b, p[i0][j]) && hs[k] == CellRect(b, p[i0][j], i0, j, size);
        } else {
          assert rs[k] == ts[k - |hs|];
          assert FromCell(p, i0 + 1, b, size, ts[k - |hs|]);
        }
      }
    }
  }

  /** Every drawn cell has its square in the output. */
  lemma {:induction false} RasteriseComplete(p: Pattern, i0: nat, b: Brush, size: int)
    requires PatternFits(b, p)
    ensures forall i, j :: i0 <= i < |p| && 0 <= j < |p[i]| && Paints(b, p[i][j]) ==>
      CellRect(b, p[i][j], i, j, size) in RasteriseFrom(p, i0, b, size)
    decreases |p| - i0
  {
    if i0 < |p| {
      RasteriseComplete(p, i0 + 1, b, size);
      RowComplete(p[i0], i0, 0, b, size);
    }
  }

  /** As many squares as drawn cells. */
  lemma {:induction false} RasteriseCount(p: Pattern, i0: nat, b: Brush, size: int)
    requires PatternFits(b, p)
    ensures |RasteriseFrom(p, i0, b, size)| == Drawn(b, p, i0)
    decreases |p| - i0
  {
    if i0 < |p| {
      RasteriseCount(p, i0 + 1, b, size);
      RowCount(p[i0], i0, 0, b, size);
    }
  }

  /** Every square lies on one of the pattern's rows. */
  lemma {:induction false} RasteriseRows(p: Pattern, i0: nat, b: Brush, size: int)
    requires PatternFits(b, p) && size > 0
    ensures forall k :: 0 <= k < |RasteriseFrom(p, i0, b, size)| ==>
      i0 * size <= RasteriseFrom(p, i0, b, size)[k].y < |p| * size
  {
    RasteriseSound(p, i0, b, size);
    var rs := RasteriseFrom(p, i0, b, size);
    forall k | 0 <= k < |rs|
      ensures i0 * size <= rs[k].y < |p| * size
    {
      assert FromCell(p, i0, b, size, rs[k]);
      var i, j :| i0 <= i < |p| && 0 <= j < |p[i]| && Paints(b, p[i][j])
        && rs[k] == CellRect(b, p[i][j], i, j, size);
      MulMonotone(i0, i, size);
      MulStrict(i, |p|, size);
    }
  }

  /** The squares come out in strict row-major order of their corners. */
  lemma {:induction false} RasteriseOrdered(p: Pattern, i0: nat, b: Brush, size: int)
    requires PatternFits(b, p) && size > 0
    ensures StrictlyOrdered(RasteriseFrom(p, i0, b, size))
    decreases |p| - i0
  {
    if i0 < |p| {
      RasteriseOrdered(p, i0 + 1, b, size);
      RasteriseRows(p, i0 + 1, b, size);
      RowOrdered(p[i0], i0, 0, b, size);
      RowPlacement(p[i0], i0, 0, b, size);
      MulStrict(i0, i0 + 1, size);
    }
  }

  /** Together: one square per drawn cell, `size` by `size` at
      `(j * size, i * size)` in that cell's colour, appearing once, and
      nothing at the corner of a cell that is not drawn. */
  lemma ExactlyOnePerCell(p: Pattern, b: Brush, size: int, i: int, j: int)
    requires PatternFits(b, p) && size > 0
    requires 0 <= i < |p| && 0 <= j < |p[i]|
    ensures Paints(b, p[i][j]) ==>
      exists k :: 0 <= k < |Rasterise(p, b, size)|
        && Rasterise(p, b, size)[k] == CellRect(b, p[i][j], i, j, size)
        && forall l :: 0 <= l < |Rasterise(p, b, size)| && l != k ==>
             Rasterise(p, b, size)[l] != Rasterise(p, b, size)[k]
    ensures !Paints(b, p[i][j]) ==>
      forall k :: 0 <= k < |Rasterise(p, b, size)| ==>
        Rasterise(p, b, size)[k].x != j * size || Rasterise(p, b, size)[k].y != i * size
  {
    var rs := Rasterise(p, b, size);
    RasteriseComplete(p, 0, b, size);
    RasteriseOrdered(p, 0, b, size);
    RasteriseSound(p, 0, b, size);
    if Paints(b, p[i][j]) {
      assert CellRect(b, p[i][j], i, j, size) in rs;
      var k :| 0 <= k < |rs| && rs[k] == CellRect(b, p[i][j], i, j, size);
      forall l | 0 <= l < |rs| && l != k
        ensures rs[l] != rs[k]
      {
        if l < k { assert Before(rs[l], rs[k]); } else { assert Before(rs[k], rs[l]); }
      }
    } else {
      forall k | 0 <= k < |rs|
        ensures rs[k].x != j * size || rs[k].y != i * size
      {
        assert FromCell(p, 0, b, size, rs[k]);
        var i', j' :| 0 <= i' < |p| && 0 <= j' < |p[i']| && Paints(b, p[i'][j'])
          && rs[k] == CellRect(b, p[i'][j'], i', j', size);
        if rs[k].x == j * size && rs[k].y == i * size {
          CancelFactor(i', i, size);
          CancelFactor(j', j, size);
          assert false;
        }
      }
    }
  }

  lemma CancelFactor(a: int, c: int, size: int)
    requires size > 0 && a * size == c * size
    ensures a == c
  {
  }

  lemma MulMonotone(a: int, c: int, size: int)
    requires size > 0 && a <= c
    ensures a * size <= c * size
  {
    assert (c - a) * size >= 0;
  }

  lemma MulStrict(a: int, c: int, size: int)
    requires size > 0 && a < c
    ensures a * size < c * size
  {
    assert (c - a) * size > 0;
  }

  // ---------------------------------------------------------------------
  // Colours

  /** When no value of a palette pattern exceeds `m`, every square is
      cell-sized and coloured from the first `m` palette entries. */
  lemma {:induction false} PaletteSquares(p: Pattern, i0: nat, colors: seq<Color>, size: int, m: nat)
    requires m <= |colors|
    requires forall i, j :: 0 <= i < |p| && 0 <= j < |p[i]| ==> p[i][j] <= m
    ensures PatternFits(Palette(colors), p)
    ensures forall k :: 0 <= k < |RasteriseFrom(p, i0, Palette(colors), size)| ==>
      RasteriseFrom(p, i0, Palette(colors), size)[k].w == size
      && RasteriseFrom(p, i0, Palette(colors), size)[k].h == size
      && RasteriseFrom(p, i0, Palette(colors), size)[k].color in colors[..m]
  {
    var b := Palette(colors);
    assert PatternFits(b, p) by {
      forall i | 0 <= i < |p| ensures RowFits(b, p[i]) {
        forall j | 0 <= j < |p[i]| ensures Fits(b, p[i][j]) {
        }
      }
    }
    RasteriseSound(p, i0, b, size);
    var rs := RasteriseFrom(p, i0, b, size);
    forall k | 0 <= k < |rs|
      ensures rs[k].w == size && rs[k].h == size && rs[k].color in colors[..m]
    {
      assert FromCell(p, i0, b, size, rs[k]);
      var i, j :| i0 <= i < |p| && 0 <= j < |p[i]| && Paints(b, p[i][j])
        && rs[k] == CellRect(b, p[i][j], i, j, size);
      assert rs[k].color == colors[..m][p[i][j] - 1];
    }
  }

  /** A solid pattern paints every square, cell-sized, in its one colour. */
  lemma SolidSquares(p: Pattern, i0: nat, c: Color, size: int)
    ensures PatternFits(Solid(c), p)
    ensures forall k :: 0 <= k < |RasteriseFrom(p, i0, Solid(c), size)| ==>
      RasteriseFrom(p, i0, Solid(c), size)[k] == Rect(RasteriseFrom(p, i0, Solid(c), size)[k].x,
        RasteriseFrom(p, i0, Solid(c), size)[k].y, size, size, c)
  {
    var b := Solid(c);
    assert PatternFits(b, p);
    RasteriseSound(p, i0, b, size);
    var rs := RasteriseFrom(p, i0, b, size);
    forall k | 0 <= k < |rs|
      ensures rs[k] == Rect(rs[k].x, rs[k].y, size, size, c)
    {
      assert FromCell(p, i0, b, size, rs[k]);
    }
  }
}
