/**
 * The solver of `simple-engine/src/physics/solver.rs`: one step per
 * `update` with the naive broad phase; `solve_collisions` first sorts the
 * pairs by first index, then by second.
 */
module SimplePhysicsEngine {
  import opened Pairs
  import opened Particles
  import opened NaiveBroadPhase
  import opened NarrowPhase
  import opened Substeps

  /**
   * On the naive loop's output the pre-sort of `solve_collisions` changes
   * nothing: the loop already emits the pairs in that order.
   */
  lemma SortingNaivePairsIsIdentity(bodies: seq<Body>, sorted: seq<Pair>)
    requires LexSorted(sorted) && multiset(sorted) == multiset(NaivePairs(bodies))
    ensures sorted == NaivePairs(bodies)
  {
    var pairs := NaivePairs(bodies);
    NaivePairsExact(bodies);
    assert LexSorted(pairs) by {
      forall a, b | 0 <= a < b < |pairs| ensures LexLeq(pairs[a], pairs[b]) {
        assert LexLess(pairs[a], pairs[b]);
      }
    }
    SortedSortIsIdentity(pairs, sorted);
  }

  class Solver {
    var verlets: seq<Body>
    const gravity: Vec2
    const constraintRadius: real

    /** `new`: the particles are copied in, in order. */
    constructor (verlets: seq<Body>, gravity: Vec2, constraintRadius: real)
      ensures this.verlets == verlets && this.gravity == gravity && this.constraintRadius == constraintRadius
    {
      this.verlets := verlets;
      this.gravity := gravity;
      this.constraintRadius := constraintRadius;
    }

    /**
     * `solve_collisions`: `collisions.sort_by` on (first, second), then the
     * pairs in that order. The pairs must be `i < j < len` for the split.
     */
    method SolveCollisions(collisions: seq<Pair>, dt: real, response: Response)
      requires AllIndexable(collisions, |verlets|)
      modifies this
      ensures exists sorted ::
        && LexSorted(sorted) && multiset(sorted) == multiset(collisions)
        && AllIndexable(sorted, |old(verlets)|) && verlets == Resolved(old(verlets), sorted, response, dt)
    {
      var sorted := SortPairs(collisions);
      PermutedIndexable(sorted, collisions, |verlets|);
      verlets := NarrowPhase.SolveCollisions(verlets, sorted, response, dt);
    }

    /**
     * `update(dt)`: gravity, the walls, the naive pairs of the result, the
     * sorted narrow phase and integration, once; the same step as with no
     * sort at all.
     */
    method Update(dt: real, stages: Stages)
      modifies this
      ensures verlets == Substepped(old(verlets), gravity, Naive, stages, dt)
    {
      verlets := ApplyGravity(verlets, gravity);
      verlets := ApplyWalls(verlets, stages.walls, dt);
      var collisions := FindCollisionsLoop(verlets);
      ghost var prepared := verlets;
      SolveCollisions(collisions, dt, stages.response);
      ghost var sorted :|
        && LexSorted(sorted) && multiset(sorted) == multiset(collisions)
        && AllIndexable(sorted, |prepared|) && verlets == Resolved(prepared, sorted, stages.response, dt);
      SortingNaivePairsIsIdentity(prepared, sorted);
      verlets := UpdatePositions(verlets, stages.integrate, dt);
    }

    /** `add_position`: the particle is pushed as given. */
    method AddPosition(verlet: Body)
      modifies this
      ensures verlets == old(verlets) + [verlet]
    {
      verlets := verlets + [verlet];
    }

    /** `add_positions`: the particles are appended as given, in order. */
    method AddPositions(added: seq<Body>)
      modifies this
      ensures verlets == old(verlets) + added
    {
      verlets := verlets + added;
    }
  }
}
