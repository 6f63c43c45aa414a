/** The pixel-art cat: its construction from the body and tail patterns and
    fixed face, ear and chest shapes, and the per-frame redraw of its face
    driven by the blink timer. */
module Cat {
  import opened Graphics
  import opened Raster
  import opened Blink
  import Scene

  const BodyPattern: Pattern := [
    [0,0,1,1,1,1,0,0],
    [0,1,1,1,1,1,1,0],
    [1,1,1,1,1,1,1,1],
    [1,1,1,1,1,1,1,1],
    [1,1,1,1,1,1,1,1],
    [0,1,1,1,1,1,1,0],
    [0,0,1,1,1,1,0,0]
  ]

  const TailPattern: Pattern := [
    [1,1],
    [1,1],
    [1,1],
    [1,1],
    [1,0]
  ]

  const BodySprite := Sprite(BodyPattern, Solid(Orange), Scene.PixelSize)
  const TailSprite := Sprite(TailPattern, Solid(Orange), Scene.PixelSize)

  /** The white chest patch drawn over the body. */
  const ChestPatch := Rect(8, 12, 16, 12, White)

  /** The face drawn at construction: two white eyes, two black pupils, a
      pink nose and three white whiskers on each side. */
  const NormalFace: seq<Shape> := [
    Box(Rect(4, 4, 8, 8, White)), Box(Rect(20, 4, 8, 8, White)),
    Box(Rect(8, 8, 4, 4, Black)), Box(Rect(24, 8, 4, 4, Black)),
    Box(Rect(14, 12, 4, 4, Pink)),
    Segment(8, 14, 0, 12, White), Segment(8, 14, 0, 14, White), Segment(8, 14, 0, 16, White),
    Segment(24, 14, 32, 12, White), Segment(24, 14, 32, 14, White), Segment(24, 14, 32, 16, White)
  ]

  /** The face while blinking: two one-pixel black lines for closed eyes. */
  const ClosedEyesFace: seq<Shape> := [
    Box(Rect(4, 8, 8, 1, Black)), Box(Rect(20, 8, 8, 1, Black))
  ]

  /** The face the reopening branch actually draws: eyes and pupils only. */
  const OpenFaceAsWritten: seq<Shape> := [
    Box(Rect(4, 4, 8, 8, White)), Box(Rect(20, 4, 8, 8, White)),
    Box(Rect(8, 8, 4, 4, Black)), Box(Rect(24, 8, 4, 4, Black))
  ]

  const Ears: seq<Rect> := [
    Rect(4, 0, 8, 4, Orange), Rect(0, -4, 8, 4, Orange),
    Rect(20, 0, 8, 4, Orange), Rect(24, -4, 8, 4, Orange),
    Rect(4, -2, 4, 4, Pink), Rect(24, -2, 4, 4, Pink)
  ]

  lemma BodyDrawn()
    ensures Drawn(Solid(Orange), BodyPattern, 0) == 44
  {
  }

  lemma TailDrawn()
    ensures Drawn(Solid(Orange), TailPattern, 0) == 9
  {
  }

  /** The body sprite draws 44 squares and the tail sprite 9. */
  lemma BodyCount()
    ensures SpriteFits(BodySprite) && |Squares(BodySprite)| == 44
  {
    RasteriseCount(BodyPattern, 0, Solid(Orange), Scene.PixelSize);
    BodyDrawn();
  }

  lemma TailCount()
    ensures SpriteFits(TailSprite) && |Squares(TailSprite)| == 9
  {
    RasteriseCount(TailPattern, 0, Solid(Orange), Scene.PixelSize);
    TailDrawn();
  }

  /** The cat as built: container position, the four child drawings in
      their order (body with chest patch, face, ears, tail), the tail angle
      and the blink state. */
  datatype CatSprite = CatSprite(x: int, y: int, body: Sprite, chest: Rect, face: seq<Shape>,
                                 ears: seq<Rect>, tail: Sprite, tailAngle: real, blink: BlinkState)

  function CreateCat(): (c: CatSprite)
    ensures c.x == Scene.DesignWidth - 150 && c.y == Scene.DesignHeight - 120
    ensures c.body == BodySprite && c.tail == TailSprite
    ensures c.face == NormalFace && c.blink == Initial && c.tailAngle == 0.0
    ensures Valid(c.blink) && !c.blink.isBlinking
  {
    CatSprite(Scene.DesignWidth - 150, Scene.DesignHeight - 120, BodySprite, ChestPatch,
              NormalFace, Ears, TailSprite, 0.0, Initial)
  }

  // ---------------------------------------------------------------------
  // Face redraw

  /** What the blink machine animates: its state and the face drawing. */
  datatype CatState = CatState(blink: BlinkState, face: seq<Shape>)

  const Start := CatState(Initial, NormalFace)

  /** The face after a frame's redraw, given the face the reopening branch
      draws. */
  function Redrawn(face: seq<Shape>, rd: Redraw, openFace: seq<Shape>): seq<Shape>
  {
    match rd
    case Keep => face
    case CloseEyes => ClosedEyesFace
    case OpenEyes => openFace
  }

  function FrameWith(c: CatState, delta: real, openFace: seq<Shape>): CatState
  {
    var f := Step(c.blink, delta);
    CatState(f.state, Redrawn(c.face, f.redraw, openFace))
  }

  /** One frame as the code evidently means it: reopening draws the face
      the cat was built with. */
  function Frame(c: CatState, delta: real): (r: CatState)
    ensures r.blink == Step(c.blink, delta).state
    ensures Step(c.blink, delta).redraw == Keep ==> r.face == c.face
    ensures Step(c.blink, delta).redraw == CloseEyes ==> r.face == ClosedEyesFace
    ensures Step(c.blink, delta).redraw == OpenEyes ==> r.face == NormalFace
  {
    FrameWith(c, delta, NormalFace)
  }

  /** One frame as written: reopening draws eyes and pupils only. */
  function FrameAsWritten(c: CatState, delta: real): (r: CatState)
    ensures r.blink == Step(c.blink, delta).state
    ensures Step(c.blink, delta).redraw == Keep ==> r.face == c.face
    ensures Step(c.blink, delta).redraw == CloseEyes ==> r.face == ClosedEyesFace
    ensures Step(c.blink, delta).redraw == OpenEyes ==> r.face == OpenFaceAsWritten
  {
    FrameWith(c, delta, OpenFaceAsWritten)
  }

  /** The face on screen agrees with the blink flag. */
  predicate InSync(c: CatState)
  {
    Valid(c.blink) && c.face == (if c.blink.isBlinking then ClosedEyesFace else NormalFace)
  }

  /** With the face redraw as intended, every frame of non-negative `delta`
      keeps the face in step with the flag: closed eyes exactly while
      blinking, the full face otherwise. */
  lemma FrameKeepsInSync(c: CatState, delta: real)
    requires InSync(c) && delta >= 0.0
    ensures InSync(Frame(c, delta))
  {
    StepKeepsValid(c.blink, delta);
  }

  function RunWith(c: CatState, delta: real, n: nat, openFace: seq<Shape>): CatState
    decreases n
  {
    if n == 0 then c else RunWith(FrameWith(c, delta, openFace), delta, n - 1, openFace)
  }

  lemma {:induction false} RunWithLast(c: CatState, delta: real, n: nat, openFace: seq<Shape>)
    requires n > 0
    ensures RunWith(c, delta, n, openFace) == FrameWith(RunWith(c, delta, n - 1, openFace), delta, openFace)
    decreases n
  {
    if n > 1 {
      RunWithLast(FrameWith(c, delta, openFace), delta, n - 1, openFace);
    }
  }

  lemma {:induction false} RunWithAdd(c: CatState, delta: real, a: nat, b: nat, openFace: seq<Shape>)
    ensures RunWith(c, delta, a + b, openFace) == RunWith(RunWith(c, delta, a, openFace), delta, b, openFace)
    decreases a
  {
    if a > 0 {
      RunWithAdd(FrameWith(c, delta, openFace), delta, a - 1, b, openFace);
    }
  }

  /** The face over one blink cycle at one unit per frame: the construction
      face through frame 120, closed eyes from frame 121 through 126, and on
      frame 127 whatever the reopening branch draws. */
  lemma {:induction false} FaceTimeline(n: nat, openFace: seq<Shape>)
    requires n <= 127
    ensures n <= 120 ==> RunWith(Start, 1.0, n, openFace) == CatState(BlinkState(n as real, false), NormalFace)
    ensures 121 <= n <= 126 ==>
      RunWith(Start, 1.0, n, openFace) == CatState(BlinkState(n as real, true), ClosedEyesFace)
    ensures n == 127 ==> RunWith(Start, 1.0, n, openFace) == CatState(Initial, openFace)
  {
    if n > 0 {
      FaceTimeline(n - 1, openFace);
      RunWithLast(Start, 1.0, n, openFace);
    }
  }

  /** With the intended redraw, one full blink cycle returns the cat exactly
      to its construction state. */
  lemma BlinkCycleRestores()
    ensures RunWith(Start, 1.0, 127, NormalFace) == Start
  {
    FaceTimeline(127, NormalFace);
  }

  /** As written, the cycle ends on a face of four boxes, two white 8 by 8
      eyes and two black 4 by 4 pupils; the nose and whiskers drawn at
      construction are gone and no later frame draws them again. */
  lemma BlinkCycleAsWritten()
    ensures RunWith(Start, 1.0, 127, OpenFaceAsWritten).face == OpenFaceAsWritten
    ensures |OpenFaceAsWritten| == 4 && AllBoxes(OpenFaceAsWritten)
    ensures forall k :: 0 <= k < 2 ==>
      OpenFaceAsWritten[k].rect.w == 8 && OpenFaceAsWritten[k].rect.h == 8
      && OpenFaceAsWritten[k].rect.color == White
    ensures forall k :: 2 <= k < 4 ==>
      OpenFaceAsWritten[k].rect.w == 4 && OpenFaceAsWritten[k].rect.h == 4
      && OpenFaceAsWritten[k].rect.color == Black
    ensures OpenFaceAsWritten != NormalFace
    ensures Box(Rect(14, 12, 4, 4, Pink)) in NormalFace && Box(Rect(14, 12, 4, 4, Pink)) !in OpenFaceAsWritten
  {
    FaceTimeline(127, OpenFaceAsWritten);
  }

  /** As written, a face that has lost its nose stays without it: from the
      closed-eyes face or the reopened one, every later frame, whatever the
      timing, shows one of those two again. */
  lemma {:induction false} NoseStaysLost(c: CatState, delta: real, n: nat)
    requires c.face == ClosedEyesFace || c.face == OpenFaceAsWritten
    ensures RunWith(c, delta, n, OpenFaceAsWritten).face == ClosedEyesFace
      || RunWith(c, delta, n, OpenFaceAsWritten).face == OpenFaceAsWritten
    ensures RunWith(c, delta, n, OpenFaceAsWritten).face != NormalFace
    decreases n
  {
    if n > 0 {
      NoseStaysLost(FrameWith(c, delta, OpenFaceAsWritten), delta, n - 1);
    }
  }

  /** Hence, at one unit per frame, the construction face never returns
      after the first blink: frames 127 and later all lack the nose. */
  lemma NeverRestoredAsWritten(n: nat)
    ensures RunWith(Start, 1.0, 127 + n, OpenFaceAsWritten).face != NormalFace
  {
    RunWithAdd(Start, 1.0, 127, n, OpenFaceAsWritten);
    FaceTimeline(127, OpenFaceAsWritten);
    NoseStaysLost(RunWith(Start, 1.0, 127, OpenFaceAsWritten), 1.0, n);
  }

  /** With the redraw as written the face falls out of step with the flag:
      the frame that reopens the eyes leaves a face that is neither the
      closed eyes nor the construction face. */
  lemma AsWrittenBreaksSync()
    ensures InSync(CatState(BlinkState(126.0, true), ClosedEyesFace))
    ensures !InSync(FrameAsWritten(CatState(BlinkState(126.0, true), ClosedEyesFace), 1.0))
  {
    assert OpenFaceAsWritten != NormalFace by {
      assert |OpenFaceAsWritten| != |NormalFace|;
    }
  }
}
