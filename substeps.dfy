/**
 * What one substep of a solver's `update` does to its particles, for each
 * broad phase the solvers run: gravity, the walls, the broad phase over
 * the result, the narrow phase over its pairs and integration, in that
 * order; and `subdivision` substeps one after the other.
 */
module Substeps {
  import opened Pairs
  import opened Particles
  import opened NaiveBroadPhase
  import opened UniformGrid
  import opened GridAdjacency
  import opened GridBounds
  import opened Tiling
  import opened NarrowPhase

  /** The broad phase an `update` runs, with the grid configuration it reads. */
  datatype BroadPhase =
    | Naive
    | SpacePartitioning(constraintRadius: real, cellSize: real, gridSize: nat)
    | SpacePartitioningParallel(constraintRadius: real, cellSize: real, gridSize: nat, xRegions: nat, yRegions: nat)

  /** A grid broad phase divides by a positive cell size. */
  predicate Configured(broad: BroadPhase) {
    broad.Naive? || broad.cellSize > 0.0
  }

  /** The grid after clearing it and pushing every particle into the cell of its position. */
  function BucketedGrid(bodies: seq<Body>, constraintRadius: real, cellSize: real, gridSize: nat): (g: Grid)
    requires cellSize > 0.0
    ensures |g| == gridSize * gridSize
  {
    Bucket(Cells(bodies, constraintRadius, cellSize), gridSize, gridSize * gridSize)
  }

  /**
   * The candidate pairs the broad phase reports for the particles: always
   * pairs `i < j < len`, as `solve_collisions` needs, and never the same
   * pair twice.
   */
  function CandidatePairs(broad: BroadPhase, bodies: seq<Body>): (ps: seq<Pair>)
    requires Configured(broad)
    ensures AllIndexable(ps, |bodies|) && NoRepeatedPair(ps)
  {
    if broad.Naive? then
      NaivePairsExact(bodies);
      NaivePairs(bodies)
    else
      var coords := Cells(bodies, broad.constraintRadius, broad.cellSize);
      var g := BucketedGrid(bodies, broad.constraintRadius, broad.cellSize, broad.gridSize);
      BucketCorrect(coords, broad.gridSize, broad.gridSize * broad.gridSize);
      if broad.SpacePartitioning? then
        GridPairsSound(g, broad.gridSize, coords);
        GridPairs(g, broad.gridSize)
      else
        ScansSquare(g, broad.gridSize);
        if broad.xRegions > 0 && broad.yRegions > 0 then
          ParallelPairsSound(g, broad.gridSize, coords, broad.xRegions, broad.yRegions);
          ParallelPairs(CellScans(g, broad.gridSize), broad.gridSize, broad.xRegions, broad.yRegions)
        else
          ParallelPairs(CellScans(g, broad.gridSize), broad.gridSize, broad.xRegions, broad.yRegions)
  }

  /**
   * Which pairs each broad phase reports: the naive loop exactly the truly
   * overlapping pairs; the grids, with at least one region along each axis
   * for the parallel one, exactly the pairs bucketed into touching cells;
   * the parallel grid with no region along an axis, nothing.
   */
  lemma CandidatePairsMeet(broad: BroadPhase, bodies: seq<Body>)
    requires Configured(broad)
    ensures broad.Naive? ==>
      forall i, j :: 0 <= i < j < |bodies| ==> ((i, j) in CandidatePairs(broad, bodies) <==> Overlaps(bodies[i], bodies[j]))
    ensures broad.SpacePartitioning? || (broad.SpacePartitioningParallel? && broad.xRegions > 0 && broad.yRegions > 0) ==>
      forall a: nat, b: nat :: (a, b) in CandidatePairs(broad, bodies) <==>
        a < b && Touching(Cells(bodies, broad.constraintRadius, broad.cellSize), broad.gridSize, a, b)
    ensures broad.SpacePartitioningParallel? && (broad.xRegions == 0 || broad.yRegions == 0) ==> CandidatePairs(broad, bodies) == []
  {
    if broad.Naive? {
      NaivePairsExact(bodies);
    } else {
      var coords := Cells(bodies, broad.constraintRadius, broad.cellSize);
      var g := BucketedGrid(bodies, broad.constraintRadius, broad.cellSize, broad.gridSize);
      BucketCorrect(coords, broad.gridSize, broad.gridSize * broad.gridSize);
      if broad.SpacePartitioning? {
        GridPairsSound(g, broad.gridSize, coords);
      } else if broad.xRegions > 0 && broad.yRegions > 0 {
        ParallelPairsSound(g, broad.gridSize, coords, broad.xRegions, broad.yRegions);
      }
    }
  }

  /** One substep: gravity, walls, the broad phase over the result, the narrow phase over its pairs, integration. */
  function Substepped(bodies: seq<Body>, gravity: Vec2, broad: BroadPhase, stages: Stages, dt: real): (r: seq<Body>)
    requires Configured(broad)
    ensures SameLooks(r, bodies)
  {
    var prepared := Prepared(bodies, gravity, stages, dt);
    Finished(prepared, CandidatePairs(broad, prepared), stages, dt)
  }

  /** `n` applications of `step`, one after the other. */
  function Iterate(n: nat, bodies: seq<Body>, step: seq<Body> -> seq<Body>): seq<Body> {
    if n == 0 then bodies else step(Iterate(n - 1, bodies, step))
  }

  /** One more application of `step`. */
  lemma IterateStep(n: nat, next: nat, bodies: seq<Body>, step: seq<Body> -> seq<Body>)
    requires next == n + 1
    ensures Iterate(next, bodies, step) == step(Iterate(n, bodies, step))
  {
  }

  /** Iterating `m` times and then `n` more is iterating `m + n` times. */
  lemma {:induction false} IterateSplit(m: nat, n: nat, bodies: seq<Body>, step: seq<Body> -> seq<Body>)
    ensures Iterate(m + n, bodies, step) == Iterate(n, Iterate(m, bodies, step), step)
  {
    if n > 0 {
      var nm := n - 1;
      IterateSplit(m, nm, bodies, step);
      assert m + n - 1 == m + nm;
    }
  }

  /** `n` substeps one after the other. */
  function Run(n: nat, bodies: seq<Body>, gravity: Vec2, broad: BroadPhase, stages: Stages, dt: real): seq<Body>
    requires Configured(broad)
  {
    Iterate(n, bodies, b => Substepped(b, gravity, broad, stages, dt))
  }

  /** One more substep after `n`. */
  lemma RunStep(n: nat, next: nat, bodies: seq<Body>, gravity: Vec2, broad: BroadPhase, stages: Stages, dt: real)
    requires Configured(broad) && next == n + 1
    ensures Run(next, bodies, gravity, broad, stages, dt) == Substepped(Run(n, bodies, gravity, broad, stages, dt), gravity, broad, stages, dt)
  {
    var step := b => Substepped(b, gravity, broad, stages, dt);
    IterateStep(n, next, bodies, step);
  }

  /** Running `m` substeps and then `n` more is running `m + n`: `update(dt)` twice is twice the substeps. */
  lemma RunSplit(m: nat, n: nat, bodies: seq<Body>, gravity: Vec2, broad: BroadPhase, stages: Stages, dt: real)
    requires Configured(broad)
    ensures Run(m + n, bodies, gravity, broad, stages, dt) == Run(n, Run(m, bodies, gravity, broad, stages, dt), gravity, broad, stages, dt)
  {
    IterateSplit(m, n, bodies, b => Substepped(b, gravity, broad, stages, dt));
  }

  /** However many substeps run, the particles keep their number, radii, densities and colours. */
  lemma {:induction false} RunKeepsLooks(n: nat, bodies: seq<Body>, gravity: Vec2, broad: BroadPhase, stages: Stages, dt: real)
    requires Configured(broad)
    ensures SameLooks(Run(n, bodies, gravity, broad, stages, dt), bodies)
  {
    if n > 0 {
      var nm := n - 1;
      RunKeepsLooks(nm, bodies, gravity, broad, stages, dt);
      RunStep(nm, n, bodies, gravity, broad, stages, dt);
    }
  }

  /** `sub_dt`: `dt / subdivision`; with no substep it is never used. */
  function SubDt(dt: real, subdivision: nat): real {
    if subdivision == 0 then 0.0 else dt / subdivision as real
  }
}
