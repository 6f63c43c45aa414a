/** The static part of the menu scene at its 800 by 600 design size: the menu
    buttons, the trees and the row of fences. Everything here is built once
    and only its transforms change afterwards. */
module Scene {
  import opened Graphics
  import opened Raster

  const DesignWidth := 800
  const DesignHeight := 600

  /** Side of one art pixel, in design pixels. */
  const PixelSize := 4

  // ---------------------------------------------------------------------
  // Buttons

  const ButtonWidth := 250
  const ButtonHeight := 40
  const ButtonFill: Color := 0x4169E1

  /** A menu button: its container position, its background, the shine
      overlay and the anchor point of its centred label, the last three in
      the container's own frame. */
  datatype Button = Button(caption: string, x: int, y: int, background: Rect, shine: Rect,
                           labelX: int, labelY: int)

  /** The horizontal centre of a container `width` wide placed at `x`. */
  predicate CentredAt(x: int, width: int, centre: int)
  {
    2 * x + width == 2 * centre
  }

  function CreateButton(caption: string, y: int): (b: Button)
    ensures b.caption == caption && b.y == y
    ensures CentredAt(b.x, ButtonWidth, DesignWidth / 2)
    ensures b.background == Rect(0, 0, ButtonWidth, ButtonHeight, ButtonFill)
    ensures b.shine.x == b.background.x && b.shine.y == b.background.y
    ensures b.shine.w == b.background.w && 2 * b.shine.h == b.background.h
    ensures b.shine.color == White
    ensures 2 * b.labelX == b.background.w && 2 * b.labelY == b.background.h
  {
    Button(caption, DesignWidth / 2 - ButtonWidth / 2, y,
           Rect(0, 0, ButtonWidth, ButtonHeight, ButtonFill),
           Rect(0, 0, ButtonWidth, ButtonHeight / 2, White),
           ButtonWidth / 2, ButtonHeight / 2)
  }

  const MenuLabels: seq<string> := ["START GAME", "MPTIONS", "OPTIONS", "EXIT"]

  /** The four menu buttons, top to bottom. */
  function MenuButtons(): (bs: seq<Button>)
    ensures |bs| == |MenuLabels| == 4
    ensures forall k :: 0 <= k < |bs| ==>
      bs[k] == CreateButton(MenuLabels[k], 300 + 60 * k)
    ensures forall k :: 0 <= k < |bs| ==> bs[k].x == 275
    ensures forall k :: 0 < k < |bs| ==> bs[k].y - bs[k - 1].y == 60
  {
    [CreateButton(MenuLabels[0], 300), CreateButton(MenuLabels[1], 360),
     CreateButton(MenuLabels[2], 420), CreateButton(MenuLabels[3], 480)]
  }

  // ---------------------------------------------------------------------
  // Trees

  const LeafColors: seq<Color> := [0x2E8B57, 0x228B22, 0x006400]
  const TrunkColor: Color := 0x8B4513
  const TrunkShade: Color := 0x654321

  const LeafPattern: Pattern := [
    [0,0,0,1,1,0,0,0],
    [0,0,1,2,2,1,0,0],
    [0,1,2,2,2,2,1,0],
    [1,2,2,2,2,2,2,1],
    [0,0,1,2,2,1,0,0],
    [0,1,2,2,2,2,1,0],
    [1,2,2,2,2,2,2,1]
  ]

  /** Every leaf value is 0, 1 or 2, so `value - 1` always indexes the
      three-colour palette. */
  lemma LeafValues()
    ensures forall i, j :: 0 <= i < |LeafPattern| && 0 <= j < |LeafPattern[i]| ==>
      0 <= LeafPattern[i][j] <= 2
  {
  }

  lemma LeafDrawn()
    ensures Drawn(Palette(LeafColors), LeafPattern, 0) == 38
  {
    var b := Palette(LeafColors);
    assert Drawn(b, LeafPattern, 4) == 18;
  }

  const LeafSprite := Sprite(LeafPattern, Palette(LeafColors), PixelSize)

  /** The leaf sprite draws 38 squares, one per drawn cell. */
  lemma LeafCount()
    ensures SpriteFits(LeafSprite) && |Squares(LeafSprite)| == 38
  {
    LeafValues();
    PaletteSquares(LeafPattern, 0, LeafColors, PixelSize, 2);
    RasteriseCount(LeafPattern, 0, Palette(LeafColors), PixelSize);
    LeafDrawn();
  }

  /** Each leaf square is one cell on a side and takes one of the first
      two palette colours, whatever the cell size: the third colour is never
      used. */
  lemma LeafColorsUsed(s: Sprite)
    requires s.pattern == LeafPattern && s.brush == Palette(LeafColors)
    ensures SpriteFits(s)
    ensures forall k :: 0 <= k < |Squares(s)| ==>
      Squares(s)[k].w == s.size && Squares(s)[k].h == s.size
      && Squares(s)[k].color in LeafColors[..2]
  {
    LeafValues();
    PaletteSquares(s.pattern, 0, LeafColors, s.size, 2);
  }

  datatype Tree = Tree(x: int, y: int, trunk: seq<Rect>, leaves: Sprite)

  /** A tree: the leaf sprite over a two-tone trunk that spans columns 3
      and 4 of the leaf grid, starting below its seventh row. */
  function CreateTree(x: int, y: int): (t: Tree)
    ensures t.x == x && t.y == y && t.leaves == LeafSprite
    ensures |t.trunk| == 2
    ensures forall k :: 0 <= k < 2 ==>
      t.trunk[k].y == |LeafPattern| * PixelSize && 3 * PixelSize <= t.trunk[k].x
      && t.trunk[k].x + t.trunk[k].w <= 5 * PixelSize
  {
    var trunk := [Rect(3 * PixelSize, 7 * PixelSize, 2 * PixelSize, 4 * PixelSize, TrunkColor),
                  Rect(4 * PixelSize, 7 * PixelSize, PixelSize, 4 * PixelSize, TrunkShade)];
    Tree(x, y, trunk, LeafSprite)
  }

  /** The four trees, each placed relative to the bottom of the scene. */
  function Trees(): (ts: seq<Tree>)
    ensures |ts| == 4
    ensures ts[0].x == 150 && ts[0].y == 420
    ensures ts[1].x == 400 && ts[1].y == 400
    ensures ts[2].x == 600 && ts[2].y == 410
    ensures ts[3].x == 750 && ts[3].y == 415
    ensures forall k :: 0 <= k < |ts| ==> ts[k] == CreateTree(ts[k].x, ts[k].y)
  {
    [CreateTree(150, DesignHeight - 180), CreateTree(400, DesignHeight - 200),
     CreateTree(600, DesignHeight - 190), CreateTree(750, DesignHeight - 185)]
  }

  // ---------------------------------------------------------------------
  // Fences

  const FenceMain: Color := 0xDEB887
  const FenceShade: Color := 0xD2B48C

  /** Width of one post section: six art pixels. */
  const PostWidth := 6 * PixelSize

  /** The six rectangles of post `i` as the drawing loop evidently means
      them: the post in the main colour with a shading strip beside it, then
      the top and the bottom plank, each in the main colour with a shading
      strip along its lower half. */
  function PostRects(i: int): (rs: seq<Rect>)
    ensures |rs| == 6
    ensures forall k :: 0 <= k < 6 ==>
      rs[k].color == (if k % 2 == 0 then FenceMain else FenceShade)
    ensures forall k :: 0 <= k < 6 ==>
      PostWidth * i <= rs[k].x && rs[k].x + rs[k].w <= PostWidth * (i + 1)
      && 0 <= rs[k].y && rs[k].y + rs[k].h <= PostWidth
  {
    var s := PixelSize;
    var x := i * 6 * s;
    [Rect(x, 0, s, 6 * s, FenceMain), Rect(x + s, 0, s / 2, 6 * s, FenceShade),
     Rect(x, s, 6 * s, s, FenceMain), Rect(x, s + s / 2, 6 * s, s / 2, FenceShade),
     Rect(x, 4 * s, 6 * s, s, FenceMain), Rect(x, 4 * s + s / 2, 6 * s, s / 2, FenceShade)]
  }

  /** The rectangles of the first `n` posts, post by post: rectangle `j`
      of post `i` sits at index `6 * i + j`. */
  function FenceRects(n: nat): (rs: seq<Rect>)
    ensures |rs| == 6 * n
    ensures forall i, j :: 0 <= i < n && 0 <= j < 6 ==> rs[6 * i + j] == PostRects(i)[j]
    ensures forall k :: 0 <= k < |rs| ==>
      0 <= rs[k].x && rs[k].x + rs[k].w <= PostWidth * n
      && 0 <= rs[k].y && rs[k].y + rs[k].h <= PostWidth
  {
    if n == 0 then []
    else
      var front := FenceRects(n - 1);
      var post := PostRects(n - 1);
      assert forall k :: 0 <= k < 6 ==> (front + post)[6 * (n - 1) + k] == post[k];
      front + post
  }

  const PostsPerFence := 4

  datatype Fence = Fence(x: int, y: int, rects: seq<Rect>)

  /** One fence: four posts of six rectangles each, all inside a 96 by 24
      box at the fence's origin. */
  function CreateFence(x: int, y: int): (f: Fence)
    ensures f.x == x && f.y == y
    ensures |f.rects| == 24
    ensures forall i, j :: 0 <= i < PostsPerFence && 0 <= j < 6 ==>
      f.rects[6 * i + j] == PostRects(i)[j]
    ensures forall k :: 0 <= k < |f.rects| ==>
      0 <= f.rects[k].x && f.rects[k].x + f.rects[k].w <= PostsPerFence * PostWidth
      && 0 <= f.rects[k].y && f.rects[k].y + f.rects[k].h <= PostWidth
  {
    Fence(x, y, FenceRects(PostsPerFence))
  }

  /** One pass of the post loop exactly as written: the first rectangle of
      the pass is drawn in whatever fill the previous pass left current. */
  function PostAsWritten(pen: Pen, i: int): Pen
  {
    var s := PixelSize;
    var x := i * 6 * s;
    var p := DrawRect(pen, x, 0, s, 6 * s);
    var p := DrawRect(BeginFill(p, FenceShade), x + s, 0, s / 2, 6 * s);
    var p := DrawRect(BeginFill(p, FenceMain), x, s, 6 * s, s);
    var p := DrawRect(BeginFill(p, FenceShade), x, s + s / 2, 6 * s, s / 2);
    var p := DrawRect(BeginFill(p, FenceMain), x, 4 * s, 6 * s, s);
    DrawRect(BeginFill(p, FenceShade), x, 4 * s + s / 2, 6 * s, s / 2)
  }

  /** The fence Graphics after `n` passes, starting from the main fill:
      six shapes per pass, and the shading fill left current by every pass. */
  function PostsAsWritten(n: nat): (pen: Pen)
    ensures |pen.shapes| == 6 * n
    ensures pen.fill == (if n == 0 then FenceMain else FenceShade)
  {
    if n == 0 then Pen(FenceMain, []) else PostAsWritten(PostsAsWritten(n - 1), n - 1)
  }

  /** The colour the as-written loop gives rectangle `j` of post `i`: the
      intended one, except that the post of every pass after the first
      inherits the shading fill. */
  function AsWrittenColor(i: int, j: int): Color
  {
    if i > 0 && j == 0 then FenceShade else if j % 2 == 0 then FenceMain else FenceShade
  }

  /** One pass appends the six intended rectangles, except that the first
      takes the fill the pen came in with; the pen leaves on the shading. */
  lemma PostAsWrittenEffect(pen: Pen, i: int)
    ensures PostAsWritten(pen, i).fill == FenceShade
    ensures |PostAsWritten(pen, i).shapes| == |pen.shapes| + 6
    ensures PostAsWritten(pen, i).shapes[..|pen.shapes|] == pen.shapes
    ensures PostAsWritten(pen, i).shapes[|pen.shapes|] == Box(PostRects(i)[0].(color := pen.fill))
    ensures forall j :: 1 <= j < 6 ==> PostAsWritten(pen, i).shapes[|pen.shapes| + j] == Box(PostRects(i)[j])
  {
  }

  /** The shapes after `n` passes are those after `n - 1` passes followed
      by the `n`-th pass's rectangles, so the colour pattern extends by one
      post. */
  lemma ExtendPosts(before: Pen, after: Pen, m: nat)
    requires |before.shapes| == 6 * m
    requires before.fill == (if m == 0 then FenceMain else FenceShade)
    requires forall i, j :: 0 <= i < m && 0 <= j < 6 ==>
      before.shapes[6 * i + j] == Box(PostRects(i)[j].(color := AsWrittenColor(i, j)))
    requires |after.shapes| == |before.shapes| + 6
    requires after.shapes[..|before.shapes|] == before.shapes
    requires after.shapes[6 * m] == Box(PostRects(m)[0].(color := before.fill))
    requires forall j :: 1 <= j < 6 ==> after.shapes[6 * m + j] == Box(PostRects(m)[j])
    ensures forall i, j :: 0 <= i < m + 1 && 0 <= j < 6 ==>
      after.shapes[6 * i + j] == Box(PostRects(i)[j].(color := AsWrittenColor(i, j)))
  {
    forall i, j | 0 <= i < m + 1 && 0 <= j < 6
      ensures after.shapes[6 * i + j] == Box(PostRects(i)[j].(color := AsWrittenColor(i, j)))
    {
      if i < m {
        assert after.shapes[6 * i + j] == after.shapes[..|before.shapes|][6 * i + j];
      }
    }
  }

  /** The loop as written draws the intended geometry, but posts 1, 2 and 3
      come out in the shading colour: each pass ends on the shading fill and
      the next pass draws its post before setting any fill. */
  lemma {:induction false} PostsAsWrittenColors(n: nat)
    ensures PostsAsWritten(n).fill == (if n == 0 then FenceMain else FenceShade)
    ensures |PostsAsWritten(n).shapes| == 6 * n
    ensures forall i, j :: 0 <= i < n && 0 <= j < 6 ==>
      PostsAsWritten(n).shapes[6 * i + j] == Box(PostRects(i)[j].(color := AsWrittenColor(i, j)))
  {
    if n > 0 {
      var before := PostsAsWritten(n - 1);
      var after := PostAsWritten(before, n - 1);
      assert PostsAsWritten(n) == after;
      PostsAsWrittenColors(n - 1);
      PostAsWrittenEffect(before, n - 1);
      ExtendPosts(before, after, n - 1);
    }
  }

  /** The discrepancy on the second post: as written it is shading-coloured. */
  lemma SecondPostAsWritten()
    ensures PostsAsWritten(PostsPerFence).shapes[6] == Box(Rect(24, 0, 4, 24, FenceShade))
    ensures CreateFence(0, 0).rects[6] == Rect(24, 0, 4, 24, FenceMain)
  {
    PostsAsWrittenColors(PostsPerFence);
    assert 6 == 6 * 1 + 0;
  }

  /** The height at which the fence row stands: 80 pixels above the bottom
      of the scene. */
  const FenceY := DesignHeight - 80

  /** The fence row: one fence every 100 pixels from the left edge while the
      position is still inside the scene, all at height `FenceY`. */
  method PlaceFences(width: int) returns (fs: seq<Fence>)
    ensures forall k :: 0 <= k < |fs| ==> fs[k] == CreateFence(100 * k, FenceY)
    ensures forall k :: 0 <= k < |fs| ==> 100 * k < width && fs[k].y == 520
    ensures 100 * |fs| >= width
    ensures width == DesignWidth ==> |fs| == 8
  {
    fs := [];
    var x := 0;
    while x < width
      invariant x == 100 * |fs|
      invariant forall k :: 0 <= k < |fs| ==> fs[k] == CreateFence(100 * k, FenceY)
      invariant forall k :: 0 <= k < |fs| ==> 100 * k < width
    {
      fs := fs + [CreateFence(x, FenceY)];
      x := x + 100;
    }
    assert |fs| > 0 ==> 100 * (|fs| - 1) < width;
  }
}
