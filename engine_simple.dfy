/**
 * The solver of `simple-engine/src/solver.rs`: `subdivision` substeps per
 * `update`, each with the uniform grid broad phase over a grid of
 * `grid_size * grid_size` cells fixed at construction.
 */
module SimpleEngine {
  import opened Pairs
  import opened Particles
  import opened UniformGrid
  import opened NarrowPhase
  import opened Substeps

  class Solver {
    var verlets: seq<Body>
    const gravity: Vec2
    const constraintRadius: real
    const subdivision: nat
    const cellSize: real
    const gridSize: nat
    const grid: array<seq<nat>>

    /** The grid has a cell for every column and row, and the cell size is positive. */
    ghost predicate Valid()
      reads this
    {
      grid.Length == gridSize * gridSize && cellSize > 0.0
    }

    /** The broad phase `update` runs. */
    function Broad(): BroadPhase
      reads this
    {
      SpacePartitioning(constraintRadius, cellSize, gridSize)
    }

    /**
     * `new`: `grid_size` is `(constraint_radius * 2.0 / cell_size) as usize`
     * and the grid starts with that many rows and columns of empty cells.
     */
    constructor (verlets: seq<Body>, gravity: Vec2, constraintRadius: real, subdivision: nat, cellSize: real)
      requires cellSize > 0.0
      ensures Valid() && fresh(grid)
      ensures this.verlets == verlets && this.gravity == gravity && this.constraintRadius == constraintRadius
      ensures this.subdivision == subdivision && this.cellSize == cellSize
      ensures gridSize == GridSize(constraintRadius, cellSize)
      ensures forall c :: 0 <= c < grid.Length ==> grid[c] == []
    {
      var gs := GridSize(constraintRadius, cellSize);
      this.verlets := verlets;
      this.gravity := gravity;
      this.constraintRadius := constraintRadius;
      this.subdivision := subdivision;
      this.cellSize := cellSize;
      this.gridSize := gs;
      this.grid := new seq<nat>[gs * gs](_ => []);
    }

    /**
     * `find_collisions_space_partitioning`: every cell is cleared and every
     * particle pushed into the cell of its position, then the grid is
     * scanned row by row against the four forward neighbours.
     */
    method FindCollisionsSpacePartitioning() returns (collisions: seq<Pair>)
      requires Valid()
      modifies grid
      ensures grid[..] == BucketedGrid(verlets, constraintRadius, cellSize, gridSize)
      ensures collisions == CandidatePairs(Broad(), verlets)
    {
      Fill(grid, gridSize, Cells(verlets, constraintRadius, cellSize));
      collisions := ScanRegion(grid[..], gridSize, 0, gridSize, 0, gridSize);
    }

    /** One pass of the `update` loop, with step `dt`. */
    method Substep(dt: real, stages: Stages)
      requires Valid()
      modifies this, grid
      ensures verlets == Substepped(old(verlets), gravity, Broad(), stages, dt)
    {
      verlets := ApplyGravity(verlets, gravity);
      verlets := ApplyWalls(verlets, stages.walls, dt);
      var collisions := FindCollisionsSpacePartitioning();
      verlets := SolveCollisions(verlets, collisions, stages.response, dt);
      verlets := UpdatePositions(verlets, stages.integrate, dt);
    }

    /** `update(dt)`: `subdivision` substeps of `dt / subdivision` each. */
    method Update(dt: real, stages: Stages)
      requires Valid()
      modifies this, grid
      ensures verlets == Run(subdivision, old(verlets), gravity, Broad(), stages, SubDt(dt, subdivision))
    {
      var subDt := SubDt(dt, subdivision);
      var s := 0;
      while s < subdivision
        invariant s <= subdivision
        invariant verlets == Run(s, old(verlets), gravity, Broad(), stages, subDt)
      {
        var next := s + 1;
        RunStep(s, next, old(verlets), gravity, Broad(), stages, subDt);
        Substep(subDt, stages);
        s := next;
      }
    }

    /** `add_position`: the particle is pushed as given. */
    method AddPosition(verlet: Body)
      modifies this
      ensures verlets == old(verlets) + [verlet]
    {
      verlets := verlets + [verlet];
    }

    /** `add_positions`: the particles are appended as given, in order. */
    method AddPositions(added: seq<Body>)
      modifies this
      ensures verlets == old(verlets) + added
    {
      verlets := verlets + added;
    }
  }
}
