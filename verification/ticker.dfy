/** The per-frame ticker callback, restricted to its discrete parts: every
    particle steps, then the cat's blink timer advances and its face is
    redrawn. The sine-driven title glow, tree sway, cat bob, tail wag and
    hover pulse are not modelled. */
module Ticker {
  import Particles
  import Cat
  import Blink

  datatype World = World(particles: seq<Particles.Particle>, cat: Cat.CatState)

  /** The world as the menu scene starts it. */
  method Start(draws: seq<Particles.Draws>) returns (w: World)
    requires |draws| == Particles.Count
    requires forall k :: 0 <= k < |draws| ==> Particles.UnitDraws(draws[k])
    ensures Invariant(w) && |w.particles| == Particles.Count
    ensures w.cat == Cat.Start
  {
    var ps := Particles.CreateParticles(draws);
    w := World(ps, Cat.Start);
  }

  /** What every frame keeps: all particles on the canvas and the cat's
      face in step with its blink flag. */
  predicate Invariant(w: World)
  {
    Particles.AllInBounds(w.particles) && Cat.InSync(w.cat)
  }

  /** One frame, given the ticker's `delta` and one column draw per
      particle for the particles that wrap. The face is redrawn as the code
      evidently intends, with the full face on reopening. */
  function Tick(w: World, delta: real, us: seq<real>): (r: World)
    requires |us| == |w.particles|
    ensures |r.particles| == |w.particles|
    ensures forall k :: 0 <= k < |w.particles| ==>
      r.particles[k] == Particles.Step(w.particles[k], us[k])
    ensures forall k :: 0 <= k < |w.particles| ==>
      r.particles[k].velocity == w.particles[k].velocity && r.particles[k].alpha == w.particles[k].alpha
    ensures r.cat.blink == Blink.Step(w.cat.blink, delta).state
    ensures r.cat.face == Cat.Redrawn(w.cat.face, Blink.Step(w.cat.blink, delta).redraw, Cat.NormalFace)
  {
    World(Particles.StepAll(w.particles, us), Cat.Frame(w.cat, delta))
  }

  /** Every frame with a non-negative `delta` and proper draws keeps the
      invariant. */
  lemma TickKeepsInvariant(w: World, delta: real, us: seq<real>)
    requires Invariant(w) && delta >= 0.0
    requires |us| == |w.particles|
    requires forall k :: 0 <= k < |us| ==> Particles.Unit(us[k])
    ensures Invariant(Tick(w, delta, us))
  {
    Particles.StepAllKeepsInBounds(w.particles, us);
    Cat.FrameKeepsInSync(w.cat, delta);
  }
}
