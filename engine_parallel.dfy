/**
 * The solver of `parallel-engine/src/solver.rs`: `subdivision` substeps
 * per `update`, each refilling `self.grid` and running the tiled parallel
 * grid broad phase over it; the flat-offset grid scan is kept beside it,
 * and particles are recoloured from the recorded colour frames as they are
 * added.
 */
module ParallelEngine {
  import opened Pairs
  import opened Particles
  import opened Wrappers
  import opened UniformGrid
  import opened Tiling
  import opened FlatGrid
  import opened NarrowPhase
  import opened ColorFrames
  import opened Substeps

  class Solver {
    var verlets: seq<Body>
    const gravity: Vec2
    const constraintRadius: real
    const subdivision: nat
    const cellSize: real
    const gridSize: nat
    const grid: array<seq<nat>>
    var colorFrames: seq<Color>
    var currentFrame: nat
    const regionSplit: (nat, nat)

    /**
     * The grid has a cell for every column and row of a positive cell
     * size, and the frame counter never passes the end of the frames.
     */
    ghost predicate Valid()
      reads this
    {
      grid.Length == gridSize * gridSize && cellSize > 0.0 && currentFrame <= |colorFrames|
    }

    /** The broad phase `update` runs. */
    function Broad(): BroadPhase
      reads this
    {
      SpacePartitioningParallel(constraintRadius, cellSize, gridSize, regionSplit.0, regionSplit.1)
    }

    /**
     * `new`: `grid_size` is `(constraint_radius * 2.0 / cell_size) as usize`,
     * fixed from then on, and the grid starts with that many rows and
     * columns of empty cells.
     */
    constructor (verlets: seq<Body>, gravity: Vec2, constraintRadius: real, subdivision: nat, cellSize: real, regionSplit: (nat, nat))
      requires cellSize > 0.0
      ensures Valid() && fresh(grid)
      ensures this.verlets == verlets && this.gravity == gravity && this.constraintRadius == constraintRadius
      ensures this.subdivision == subdivision && this.cellSize == cellSize && this.regionSplit == regionSplit
      ensures gridSize == GridSize(constraintRadius, cellSize)
      ensures forall c :: 0 <= c < grid.Length ==> grid[c] == []
      ensures colorFrames == [] && currentFrame == 0
    {
      var gs := GridSize(constraintRadius, cellSize);
      this.verlets := verlets;
      this.gravity := gravity;
      this.constraintRadius := constraintRadius;
      this.subdivision := subdivision;
      this.cellSize := cellSize;
      this.gridSize := gs;
      this.grid := new seq<nat>[gs * gs](_ => []);
      this.colorFrames := [];
      this.currentFrame := 0;
      this.regionSplit := regionSplit;
    }

    /**
     * `find_collisions_space_partitioning`: `self.grid` is cleared and
     * refilled, then scanned cell by cell against the neighbours at the
     * flat offsets `1, grid_size - 1, grid_size, grid_size + 1`; with
     * `grid_size == 0` the offsets cannot be formed.
     */
    method FindCollisionsSpacePartitioning() returns (r: Result<seq<Pair>, ScanError>)
      requires Valid()
      modifies grid
      ensures grid[..] == BucketedGrid(verlets, constraintRadius, cellSize, gridSize)
      ensures r.Err? <==> gridSize == 0
      ensures r.Ok? ==> r.value == FlatPairs(grid[..], gridSize, ByValue)
    {
      Fill(grid, gridSize, Cells(verlets, constraintRadius, cellSize));
      r := ScanFlat(grid[..], gridSize);
    }

    /**
     * `find_collisions_space_partitioning_parallel`: `self.grid` is cleared
     * and refilled, so no index of an earlier substep survives, then every
     * tile of the region split is scanned and the results joined in region
     * order.
     */
    method FindCollisionsSpacePartitioningParallel() returns (collisions: seq<Pair>)
      requires Valid()
      modifies grid
      ensures grid[..] == BucketedGrid(verlets, constraintRadius, cellSize, gridSize)
      ensures collisions == CandidatePairs(Broad(), verlets)
    {
      Fill(grid, gridSize, Cells(verlets, constraintRadius, cellSize));
      collisions := ScanParallel(grid[..], gridSize, regionSplit.0, regionSplit.1);
    }

    /** One pass of the `update` loop, with step `dt`. */
    method Substep(dt: real, stages: Stages)
      requires Valid()
      modifies this, grid
      ensures Valid() && colorFrames == old(colorFrames) && currentFrame == old(currentFrame)
      ensures verlets == Substepped(old(verlets), gravity, Broad(), stages, dt)
    {
      verlets := ApplyGravity(verlets, gravity);
      verlets := ApplyWalls(verlets, stages.walls, dt);
      var collisions := FindCollisionsSpacePartitioningParallel();
      verlets := SolveCollisions(verlets, collisions, stages.response, dt);
      verlets := UpdatePositions(verlets, stages.integrate, dt);
    }

    /** `update(dt)`: `subdivision` substeps of `dt / subdivision` each. */
    method Update(dt: real, stages: Stages)
      requires Valid()
      modifies this, grid
      ensures Valid() && colorFrames == old(colorFrames) && currentFrame == old(currentFrame)
      ensures verlets == Run(subdivision, old(verlets), gravity, Broad(), stages, SubDt(dt, subdivision))
    {
      var subDt := SubDt(dt, subdivision);
      var s := 0;
      while s < subdivision
        invariant s <= subdivision
        invariant Valid() && colorFrames == old(colorFrames) && currentFrame == old(currentFrame)
        invariant verlets == Run(s, old(verlets), gravity, Broad(), stages, subDt)
      {
        var next := s + 1;
        RunStep(s, next, old(verlets), gravity, Broad(), stages, subDt);
        Substep(subDt, stages);
        s := next;
      }
    }

    /**
     * `load_colors` once the frames are read: the counter restarts at 0
     * and particle `k` takes frame `k` while there are frames.
     */
    method LoadColors(frames: seq<Color>)
      requires Valid()
      modifies this
      ensures Valid() && colorFrames == frames
      ensures verlets == Stamped(old(verlets), frames, 0) && |verlets| == |old(verlets)|
      ensures currentFrame == Min(|verlets|, |frames|)
      ensures forall k :: 0 <= k < |verlets| ==>
        verlets[k] == if k < |frames| then old(verlets)[k].(color := frames[k]) else old(verlets)[k]
    {
      colorFrames := frames;
      currentFrame := 0;
      verlets, currentFrame := StampFromStart(verlets, frames);
    }

    /** `add_position`: the particle takes the next colour frame, if any, and is pushed. */
    method AddPosition(verlet: Body)
      requires Valid()
      modifies this
      ensures Valid() && colorFrames == old(colorFrames)
      ensures verlets == old(verlets) + [StampOne(verlet, colorFrames, old(currentFrame))]
      ensures currentFrame == Advance(colorFrames, old(currentFrame))
    {
      var stamped := verlet;
      if |colorFrames| > 0 && currentFrame < |colorFrames| {
        stamped := stamped.(color := colorFrames[currentFrame]);
        currentFrame := currentFrame + 1;
      }
      verlets := verlets + [stamped];
    }

    /**
     * `add_positions`: the caller's particles are recoloured in place from
     * the next frames, returned, and appended in order.
     */
    method AddPositions(added: seq<Body>) returns (stamped: seq<Body>)
      requires Valid()
      modifies this
      ensures Valid() && colorFrames == old(colorFrames)
      ensures stamped == Stamped(added, colorFrames, old(currentFrame))
      ensures verlets == old(verlets) + stamped
      ensures currentFrame == FrameAfter(|added|, colorFrames, old(currentFrame))
    {
      FrameAfterBound(|added|, colorFrames, currentFrame);
      stamped, currentFrame := StampAll(added, colorFrames, currentFrame);
      verlets := verlets + stamped;
    }
  }
}
