/**
 * The solver of `src/physics/solver.rs`: one step per `update`, the naive
 * broad phase, new particles appended as given.
 */
module RootEngine {
  import opened Pairs
  import opened Particles
  import opened NaiveBroadPhase
  import opened NarrowPhase
  import opened Substeps

  class Solver {
    var verlets: seq<Body>
    const gravity: Vec2
    const constraintCenter: Vec2
    const constraintRadius: real

    /** `new`: the particles are copied in, in order. */
    constructor (verlets: seq<Body>, gravity: Vec2, constraintCenter: Vec2, constraintRadius: real)
      ensures this.verlets == verlets && this.gravity == gravity
      ensures this.constraintCenter == constraintCenter && this.constraintRadius == constraintRadius
    {
      this.verlets := verlets;
      this.gravity := gravity;
      this.constraintCenter := constraintCenter;
      this.constraintRadius := constraintRadius;
    }

    /**
     * `update(dt)`: gravity, the constraint, the naive pairs of the
     * result, the narrow phase over them and integration, once.
     */
    method Update(dt: real, stages: Stages)
      modifies this
      ensures verlets == Substepped(old(verlets), gravity, Naive, stages, dt)
    {
      verlets := ApplyGravity(verlets, gravity);
      verlets := ApplyWalls(verlets, stages.walls, dt);
      var collisions := FindCollisionsLoop(verlets);
      verlets := SolveCollisions(verlets, collisions, stages.response, dt);
      verlets := UpdatePositions(verlets, stages.integrate, dt);
    }

    /** `add_position`: the particle is pushed as given. */
    method AddPosition(verlet: Body)
      modifies this
      ensures verlets == old(verlets) + [verlet]
    {
      verlets := verlets + [verlet];
    }

    /** `add_positions`: the particles are appended as given, in order. */
    method AddPositions(added: seq<Body>)
      modifies this
      ensures verlets == old(verlets) + added
    {
      verlets := verlets + added;
    }
  }
}
