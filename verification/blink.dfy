/** The cat's blink timer: a two-phase state machine advanced once per frame
    by the ticker's `delta`. The eyes stay open until the timer passes 120,
    close, and reopen with the timer reset once it passes 126. */
module Blink {

  const CloseAfter: real := 120.0
  const OpenAfter: real := 126.0

  datatype BlinkState = BlinkState(timer: real, isBlinking: bool)

  /** What a frame does to the face: nothing, draw the closed eyes, or draw
      the open face again. */
  datatype Redraw = Keep | CloseEyes | OpenEyes

  datatype BlinkFrame = BlinkFrame(state: BlinkState, redraw: Redraw)

  /** The state the cat is built with. */
  const Initial := BlinkState(0.0, false)

  /** One frame: the timer grows by `delta`; the first branch closes the eyes
      of an open cat, the second reopens them and resets the timer. */
  function Step(s: BlinkState, delta: real): (r: BlinkFrame)
    ensures r.redraw == CloseEyes <==> !s.isBlinking && s.timer + delta > CloseAfter
    ensures r.redraw == OpenEyes <==> s.isBlinking && s.timer + delta > OpenAfter
    ensures r.state.isBlinking <==> (s.isBlinking && r.redraw == Keep) || r.redraw == CloseEyes
    ensures r.state.timer == (if r.redraw == OpenEyes then 0.0 else s.timer + delta)
  {
    var t := s.timer + delta;
    if t > CloseAfter && !s.isBlinking then BlinkFrame(BlinkState(t, true), CloseEyes)
    else if t > OpenAfter then BlinkFrame(BlinkState(0.0, false), OpenEyes)
    else BlinkFrame(BlinkState(t, s.isBlinking), Keep)
  }

  /** The reset branch fires only for a cat that is already blinking: any
      timer above 126 is above 120, so an open cat takes the first branch. */
  lemma ResetOnlyWhileBlinking(s: BlinkState, delta: real)
    ensures Step(s, delta).redraw == OpenEyes ==> s.isBlinking
    ensures !s.isBlinking && s.timer + delta > OpenAfter ==> Step(s, delta).redraw == CloseEyes
  {
  }

  /** Reachable states: an open cat's timer lies in [0, 120], a blinking
      cat's above 120. */
  predicate Valid(s: BlinkState)
  {
    if s.isBlinking then s.timer > CloseAfter else 0.0 <= s.timer <= CloseAfter
  }

  /** With a non-negative `delta` every frame keeps the state valid; in
      particular the timer never goes negative. */
  lemma StepKeepsValid(s: BlinkState, delta: real)
    requires Valid(s) && delta >= 0.0
    ensures Valid(Step(s, delta).state)
    ensures Step(s, delta).state.timer >= 0.0
  {
  }

  /** `n` frames of the same `delta`. */
  function Run(s: BlinkState, delta: real, n: nat): BlinkState
    decreases n
  {
    if n == 0 then s else Run(Step(s, delta).state, delta, n - 1)
  }

  lemma {:induction false} RunLast(s: BlinkState, delta: real, n: nat)
    requires n > 0
    ensures Run(s, delta, n) == Step(Run(s, delta, n - 1), delta).state
    decreases n
  {
    if n > 1 {
      RunLast(Step(s, delta).state, delta, n - 1);
    }
  }

  lemma {:induction false} RunAdd(s: BlinkState, delta: real, a: nat, b: nat)
    ensures Run(s, delta, a + b) == Run(Run(s, delta, a), delta, b)
    decreases a
  {
    if a > 0 {
      RunAdd(Step(s, delta).state, delta, a - 1, b);
    }
  }

  /** At one unit per frame from the initial state: open through frame 120,
      closed from frame 121 through frame 126, and open with the timer back
      at 0 on frame 127. */
  lemma {:induction false} Timeline(n: nat)
    requires n <= 127
    ensures n <= 120 ==> Run(Initial, 1.0, n) == BlinkState(n as real, false)
    ensures 121 <= n <= 126 ==> Run(Initial, 1.0, n) == BlinkState(n as real, true)
    ensures n == 127 ==> Run(Initial, 1.0, n) == Initial
  {
    if n > 0 {
      Timeline(n - 1);
      RunLast(Initial, 1.0, n);
    }
  }

  /** The blink repeats every 127 frames. */
  lemma Periodic(n: nat)
    ensures Run(Initial, 1.0, n + 127) == Run(Initial, 1.0, n)
  {
    RunAdd(Initial, 1.0, 127, n);
    Timeline(127);
  }
}
