/**
 * The solver of `main-engine/src/physics/solver.rs`: `subdivision`
 * substeps per `update`, each with the tiled parallel grid broad phase;
 * the naive loop, sort-and-sweep over a persistent event list and the
 * sequential grid are kept beside it, and particles are recoloured from
 * the recorded colour frames as they are added.
 */
module MainEngine {
  import opened Pairs
  import opened Particles
  import opened SweepEvents
  import opened InsertionSort
  import opened StableSort
  import opened SweepAndPrune
  import opened UniformGrid
  import opened Tiling
  import opened NarrowPhase
  import opened ColorFrames
  import opened Substeps

  class Solver {
    var verlets: seq<Body>
    const gravity: Vec2
    const constraintRadius: real
    var events: seq<Event>
    var colorFrames: seq<Color>
    var currentFrame: nat
    const subdivision: nat
    const cellSize: real
    const gridSize: nat
    const grid: array<seq<nat>>
    const regionSplit: (nat, nat)

    /**
     * The event list describes the first `events.len() / 2` particles, the
     * frame counter never passes the end of the frames, and the grid has a
     * cell for every column and row of a positive cell size.
     */
    ghost predicate Valid()
      reads this
    {
      && WellFormed(events, |events| / 2) && |events| / 2 <= |verlets|
      && currentFrame <= |colorFrames|
      && grid.Length == gridSize * gridSize && cellSize > 0.0
    }

    /** The broad phase `update` runs. */
    function Broad(): BroadPhase
      reads this
    {
      SpacePartitioningParallel(constraintRadius, cellSize, gridSize, regionSplit.0, regionSplit.1)
    }

    /**
     * `new`: the stably sorted events of every particle, `grid_size` from the
     * constraint and cell size, and a grid of empty cells.
     */
    constructor (verlets: seq<Body>, gravity: Vec2, constraintRadius: real, subdivision: nat, cellSize: real, regionSplit: (nat, nat))
      requires cellSize > 0.0
      ensures Valid() && fresh(grid)
      ensures this.verlets == verlets && this.gravity == gravity && this.constraintRadius == constraintRadius
      ensures this.subdivision == subdivision && this.cellSize == cellSize && this.regionSplit == regionSplit
      ensures multiset(events) == multiset(NewEvents(verlets, 0, |verlets|))
      ensures WellFormed(events, |verlets|) && KeysMatch(events, verlets) && Sorted(events, 0, |events|)
      ensures StablySorted(events)
      ensures forall p, q :: 0 <= p < q < |events| && events[p].key == events[q].key ==> PushRank(events[p]) < PushRank(events[q])
      ensures colorFrames == [] && currentFrame == 0
      ensures gridSize == GridSize(constraintRadius, cellSize)
      ensures forall c :: 0 <= c < grid.Length ==> grid[c] == []
    {
      var sorted := InitialEvents(verlets);
      assert |sorted| / 2 == |verlets|;
      var gs := GridSize(constraintRadius, cellSize);
      this.verlets := verlets;
      this.gravity := gravity;
      this.constraintRadius := constraintRadius;
      this.events := sorted;
      this.colorFrames := [];
      this.currentFrame := 0;
      this.subdivision := subdivision;
      this.cellSize := cellSize;
      this.gridSize := gs;
      this.grid := new seq<nat>[gs * gs](_ => []);
      this.regionSplit := regionSplit;
    }

    /** `find_collisions_sort_sweep`, as in the ball engine. */
    method FindCollisionsSortSweep() returns (collisions: seq<Pair>)
      requires Valid()
      modifies this
      ensures Valid() && |events| == 2 * |verlets|
      ensures verlets == old(verlets) && colorFrames == old(colorFrames) && currentFrame == old(currentFrame)
      ensures events == SortedFrom(Refreshed(old(events), verlets) + NewEvents(verlets, |old(events)| / 2, |verlets|), 1)
      ensures KeysMatch(events, verlets) && Sorted(events, 1, |events|)
      ensures |old(events)| > 0 ==> SameTag(events[0], old(events)[0])
      ensures SweptPairs(collisions, verlets)
      ensures forall a, b :: 0 <= a < b < |verlets| ==> ((a, b) in collisions <==> MetBefore(events, a, b, |events|))
    {
      events, collisions := SortSweep(events, verlets);
      assert |events| / 2 == |verlets|;
    }

    /**
     * `find_collisions_space_partitioning`: `self.grid` is cleared and
     * refilled, then scanned row by row against the four forward neighbours.
     */
    method FindCollisionsSpacePartitioning() returns (collisions: seq<Pair>)
      requires Valid()
      modifies grid
      ensures grid[..] == BucketedGrid(verlets, constraintRadius, cellSize, gridSize)
      ensures collisions == CandidatePairs(SpacePartitioning(constraintRadius, cellSize, gridSize), verlets)
    {
      Fill(grid, gridSize, Cells(verlets, constraintRadius, cellSize));
      collisions := ScanRegion(grid[..], gridSize, 0, gridSize, 0, gridSize);
    }

    /**
     * `find_collisions_space_partitioning_parallel`: a new grid of the same
     * size is filled (`self.grid` is left alone), then every tile of the
     * region split is scanned and the results joined in region order.
     */
    method FindCollisionsSpacePartitioningParallel() returns (collisions: seq<Pair>)
      requires Valid()
      ensures collisions == CandidatePairs(Broad(), verlets)
    {
      var newGrid := new seq<nat>[grid.Length](_ => []);
      Fill(newGrid, gridSize, Cells(verlets, constraintRadius, cellSize));
      collisions := ScanParallel(newGrid[..], gridSize, regionSplit.0, regionSplit.1);
    }

    /** One pass of the `update` loop, with step `dt`. */
    method Substep(dt: real, stages: Stages)
      requires Valid()
      modifies this
      ensures Valid() && events == old(events) && colorFrames == old(colorFrames) && currentFrame == old(currentFrame)
      ensures verlets == Substepped(old(verlets), gravity, Broad(), stages, dt)
    {
      verlets := ApplyGravity(verlets, gravity);
      verlets := ApplyWalls(verlets, stages.walls, dt);
      var collisions := FindCollisionsSpacePartitioningParallel();
      verlets := SolveCollisions(verlets, collisions, stages.response, dt);
      verlets := UpdatePositions(verlets, stages.integrate, dt);
    }

    /** `update(dt)`: `subdivision` substeps of `dt / subdivision` each. */
    method Update(dt: real, stages: Stages)
      requires Valid()
      modifies this
      ensures Valid() && events == old(events) && colorFrames == old(colorFrames) && currentFrame == old(currentFrame)
      ensures verlets == Run(subdivision, old(verlets), gravity, Broad(), stages, SubDt(dt, subdivision))
    {
      var subDt := SubDt(dt, subdivision);
      var s := 0;
      while s < subdivision
        invariant s <= subdivision
        invariant Valid() && events == old(events) && colorFrames == old(colorFrames) && currentFrame == old(currentFrame)
        invariant verlets == Run(s, old(verlets), gravity, Broad(), stages, subDt)
      {
        var next := s + 1;
        RunStep(s, next, old(verlets), gravity, Broad(), stages, subDt);
        Substep(subDt, stages);
        s := next;
      }
    }

    /** `add_position`: the particle takes the next colour frame, if any, and is pushed. */
    method AddPosition(verlet: Body)
      requires Valid()
      modifies this
      ensures Valid() && events == old(events) && colorFrames == old(colorFrames)
      ensures verlets == old(verlets) + [StampOne(verlet, colorFrames, old(currentFrame))]
      ensures currentFrame == Advance(colorFrames, old(currentFrame))
    {
      var stamped := verlet;
      if |colorFrames| > 0 && currentFrame < |colorFrames| {
        stamped := stamped.(color := colorFrames[currentFrame]);
        currentFrame := currentFrame + 1;
      }
      verlets := verlets + [stamped];
    }

    /**
     * `add_positions`: the caller's particles are recoloured in place from
     * the next frames, returned, and appended in order.
     */
    method AddPositions(added: seq<Body>) returns (stamped: seq<Body>)
      requires Valid()
      modifies this
      ensures Valid() && events == old(events) && colorFrames == old(colorFrames)
      ensures stamped == Stamped(added, colorFrames, old(currentFrame))
      ensures verlets == old(verlets) + stamped
      ensures currentFrame == FrameAfter(|added|, colorFrames, old(currentFrame))
    {
      FrameAfterBound(|added|, colorFrames, currentFrame);
      stamped, currentFrame := StampAll(added, colorFrames, currentFrame);
      verlets := verlets + stamped;
    }

    /**
     * `load_colors` once the frames are read: the counter restarts at 0
     * and particle `k` takes frame `k` while there are frames.
     */
    method LoadColors(frames: seq<Color>)
      requires Valid()
      modifies this
      ensures Valid() && events == old(events) && colorFrames == frames
      ensures verlets == Stamped(old(verlets), frames, 0) && |verlets| == |old(verlets)|
      ensures currentFrame == Min(|verlets|, |frames|)
      ensures forall k :: 0 <= k < |verlets| ==>
        verlets[k] == if k < |frames| then old(verlets)[k].(color := frames[k]) else old(verlets)[k]
    {
      colorFrames := frames;
      currentFrame := 0;
      verlets, currentFrame := StampFromStart(verlets, frames);
    }
  }
}
