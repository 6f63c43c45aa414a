/** The floating particles of the menu background: fifty small white squares,
    each with a random opacity, position and upward speed, that drift up one
    `velocity` per frame and reappear at the bottom edge, at a fresh random
    column, once they pass the top. Random draws are parameters: each is a
    number in [0, 1) as `Math.random` returns. */
module Particles {

  const Count: nat := 50
  const Width: real := 800.0
  const Height: real := 600.0

  datatype Particle = Particle(x: real, y: real, alpha: real, velocity: real)

  /** A value `Math.random` can return. */
  predicate Unit(u: real)
  {
    0.0 <= u < 1.0
  }

  /** The four draws one particle is made from, in the order the code makes
      them: opacity, column, row, speed. */
  datatype Draws = Draws(alpha: real, x: real, y: real, velocity: real)

  predicate UnitDraws(d: Draws)
  {
    Unit(d.alpha) && Unit(d.x) && Unit(d.y) && Unit(d.velocity)
  }

  /** Where a particle may be: on the canvas (the bottom edge included),
      rising at a positive speed, and at most half opaque. */
  predicate InBounds(p: Particle)
  {
    0.0 <= p.x < Width && 0.0 <= p.y <= Height
    && 0.1 <= p.velocity < 0.6 && 0.0 <= p.alpha < 0.5
  }

  /** One particle from its four draws. */
  function Spawn(d: Draws): (p: Particle)
    requires UnitDraws(d)
    ensures InBounds(p) && p.y < Height
  {
    Particle(d.x * Width, d.y * Height, d.alpha * 0.5, d.velocity * 0.5 + 0.1)
  }

  /** The particle field: one particle per draw, in creation order. */
  method CreateParticles(draws: seq<Draws>) returns (ps: seq<Particle>)
    requires |draws| == Count
    requires forall k :: 0 <= k < |draws| ==> UnitDraws(draws[k])
    ensures |ps| == Count
    ensures forall k :: 0 <= k < Count ==> ps[k] == Spawn(draws[k])
    ensures AllInBounds(ps)
  {
    ps := [];
    var i := 0;
    while i < Count
      invariant 0 <= i <= Count
      invariant |ps| == i
      invariant forall k :: 0 <= k < i ==> ps[k] == Spawn(draws[k])
      invariant AllInBounds(ps)
    {
      ps := ps + [Spawn(draws[i])];
      i := i + 1;
    }
  }

  predicate AllInBounds(ps: seq<Particle>)
  {
    forall k :: 0 <= k < |ps| ==> InBounds(ps[k])
  }

  /** One frame for one particle: it rises by its speed; once above the top
      edge it goes back to the bottom edge at column `u * Width`. */
  function Step(p: Particle, u: real): (r: Particle)
    ensures r.velocity == p.velocity && r.alpha == p.alpha
    ensures p.y - p.velocity < 0.0 ==> r.y == Height && r.x == u * Width
    ensures p.y - p.velocity >= 0.0 ==> r.y == p.y - p.velocity && r.x == p.x
  {
    var y := p.y - p.velocity;
    if y < 0.0 then p.(y := Height, x := u * Width) else p.(y := y)
  }

  /** A particle on the canvas stays on it: it never ends a frame above the
      top edge nor below the bottom one. */
  lemma StepKeepsInBounds(p: Particle, u: real)
    requires InBounds(p) && Unit(u)
    ensures InBounds(Step(p, u))
  {
  }

  /** A particle only ever moves up, except when it wraps to the bottom. */
  lemma StepRisesOrWraps(p: Particle, u: real)
    requires InBounds(p)
    ensures Step(p, u).y < p.y || Step(p, u).y == Height
  {
  }

  /** One frame for the whole field; particle `k` uses draw `us[k]` if it
      wraps. */
  function StepAll(ps: seq<Particle>, us: seq<real>): (rs: seq<Particle>)
    requires |us| == |ps|
    ensures |rs| == |ps|
    ensures forall k :: 0 <= k < |ps| ==> rs[k] == Step(ps[k], us[k])
  {
    seq(|ps|, k requires 0 <= k < |ps| => Step(ps[k], us[k]))
  }

  /** The field keeps its size and every particle stays in bounds. */
  lemma StepAllKeepsInBounds(ps: seq<Particle>, us: seq<real>)
    requires |us| == |ps| && AllInBounds(ps)
    requires forall k :: 0 <= k < |us| ==> Unit(us[k])
    ensures AllInBounds(StepAll(ps, us))
  {
    var rs := StepAll(ps, us);
    forall k | 0 <= k < |rs|
      ensures InBounds(rs[k])
    {
      StepKeepsInBounds(ps[k], us[k]);
    }
  }

  /** `n` frames of one particle with the wrap columns `us`, one per frame. */
  function Drift(p: Particle, us: seq<real>): Particle
    decreases |us|
  {
    if |us| == 0 then p else Drift(Step(p, us[0]), us[1..])
  }

  /** Until it wraps a particle climbs exactly one speed per frame: after
      `n` frames that all stay on the canvas its row is `y - n * velocity`. */
  lemma {:induction false} DriftClimbs(p: Particle, us: seq<real>)
    requires p.y - (|us| as real) * p.velocity >= 0.0 && p.velocity > 0.0
    ensures Drift(p, us) == p.(y := p.y - (|us| as real) * p.velocity)
    decreases |us|
  {
    if |us| > 0 {
      var q := Step(p, us[0]);
      assert q == p.(y := p.y - p.velocity);
      DriftClimbs(q, us[1..]);
    }
  }

  /** Any number of frames keeps a particle in bounds. */
  lemma {:induction false} DriftKeepsInBounds(p: Particle, us: seq<real>)
    requires InBounds(p)
    requires forall k :: 0 <= k < |us| ==> Unit(us[k])
    ensures InBounds(Drift(p, us))
    decreases |us|
  {
    if |us| > 0 {
      StepKeepsInBounds(p, us[0]);
      DriftKeepsInBounds(Step(p, us[0]), us[1..]);
    }
  }
}
