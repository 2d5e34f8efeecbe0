/**
 * The uniform grid of `find_collisions_space_partitioning`: `grid_size`
 * by `grid_size` cells stored row by row in one vector, each cell listing
 * the particles bucketed into it, scanned against the cell itself and four
 * forward neighbours.
 */
module UniformGrid {
  import opened Pairs
  import opened Particles
  import opened Wrappers

  /** The column `cell_x` and row `cell_y` a particle is assigned to. */
  datatype CellCoord = CellCoord(x: nat, y: nat)

  /** A grid: cell `y * grid_size + x` lists particle indices. */
  type Grid = seq<seq<nat>>

  /**
   * `((v + constraint_radius) / cell_size).floor() as usize`: the floor of
   * the scaled coordinate, with negative values saturated to 0.
   */
  function CellCoordOf(v: real, constraintRadius: real, cellSize: real): (c: nat)
    requires cellSize > 0.0
    ensures c == 0 || (c as real) * cellSize <= v + constraintRadius
    ensures v + constraintRadius < (c as real + 1.0) * cellSize
  {
    var s := v + constraintRadius;
    var t := s / cellSize;
    var f := t.Floor;
    ScaleBounds(t, f as real, cellSize, s);
    if f < 0 then
      MulMono(f as real + 1.0, 1.0, cellSize);
      0
    else
      f
  }

  /** Multiplying `f <= s / cellSize < f + 1` through by a positive cell size. */
  lemma ScaleBounds(t: real, f: real, cellSize: real, s: real)
    requires cellSize > 0.0 && f <= t < f + 1.0 && t == s / cellSize
    ensures f * cellSize <= s
    ensures s < (f + 1.0) * cellSize
  {
    DivMul(s, cellSize, t);
    MulStrict(t, f + 1.0, cellSize);
    MulMono(f, t, cellSize);
  }

  lemma DivMul(s: real, c: real, t: real)
    requires c > 0.0 && t == s / c
    ensures t * c == s
  {
  }

  lemma MulStrict(a: real, b: real, c: real)
    requires a < b && c > 0.0
    ensures a * c < b * c
  {
  }

  lemma MulMono(a: real, b: real, c: real)
    requires a <= b && c > 0.0
    ensures a * c <= b * c
  {
  }

  /** The cell of a particle from its position. */
  function CellOfBody(b: Body, constraintRadius: real, cellSize: real): CellCoord
    requires cellSize > 0.0
  {
    CellCoord(CellCoordOf(b.position.x, constraintRadius, cellSize), CellCoordOf(b.position.y, constraintRadius, cellSize))
  }

  /** The cell of every particle, in index order. */
  function Cells(bodies: seq<Body>, constraintRadius: real, cellSize: real): (coords: seq<CellCoord>)
    requires cellSize > 0.0
    ensures |coords| == |bodies|
  {
    seq(|bodies|, i requires 0 <= i < |bodies| => CellOfBody(bodies[i], constraintRadius, cellSize))
  }

  /** `(constraint_radius * 2.0 / cell_size) as usize`: truncated, negatives saturated to 0. */
  function GridSize(constraintRadius: real, cellSize: real): (g: nat)
    requires cellSize > 0.0
    ensures (g as real) * cellSize <= 2.0 * constraintRadius || (g == 0 && constraintRadius < 0.0)
  {
    var t := constraintRadius * 2.0 / cellSize;
    if t < 0.0 then 0 else t.Floor
  }

  /**
   * `cell_y * grid_size + cell_x`, the cell a particle is pushed into. A
   * column at or past `grid_size` spills into the next row; the index is
   * kept only when below `grid.len()`.
   */
  function CellIndex(gridSize: nat, c: CellCoord): nat {
    c.y * gridSize + c.x
  }

  /**
   * The grid after clearing every cell and pushing each particle `i`, in
   * index order, into cell `CellIndex(coords[i])` when that is below `count`.
   */
  function Bucket(coords: seq<CellCoord>, gridSize: nat, count: nat): (g: Grid)
    ensures |g| == count
    decreases |coords|
  {
    if coords == [] then seq(count, _ => [])
    else
      var g := Bucket(coords[..|coords| - 1], gridSize, count);
      var i := |coords| - 1;
      var c := CellIndex(gridSize, coords[i]);
      if c < count then g[c := g[c] + [i]] else g
  }

  predicate StrictlyIncreasing(s: seq<nat>) {
    forall p, q :: 0 <= p < q < |s| ==> s[p] < s[q]
  }

  /**
   * Each cell lists, in increasing order, exactly the particles whose cell
   * index it is: every particle lands in at most one cell, and one whose
   * index is past the end of the grid is dropped.
   */
  ghost predicate BucketedFrom(g: Grid, gridSize: nat, coords: seq<CellCoord>) {
    forall c :: 0 <= c < |g| ==>
      StrictlyIncreasing(g[c]) &&
      forall q: nat :: q in g[c] <==> q < |coords| && CellIndex(gridSize, coords[q]) == c
  }

  lemma {:induction false} BucketCorrect(coords: seq<CellCoord>, gridSize: nat, count: nat)
    ensures BucketedFrom(Bucket(coords, gridSize, count), gridSize, coords)
    decreases |coords|
  {
    if coords != [] {
      var init := coords[..|coords| - 1];
      BucketCorrect(init, gridSize, count);
      var g := Bucket(init, gridSize, count);
      var i := |coords| - 1;
      var ci := CellIndex(gridSize, coords[i]);
      var r := Bucket(coords, gridSize, count);
      assert r == if ci < count then g[ci := g[ci] + [i]] else g;
      forall c | 0 <= c < count
        ensures StrictlyIncreasing(r[c])
        ensures forall q: nat :: q in r[c] <==> q < |coords| && CellIndex(gridSize, coords[q]) == c
      {
        assert forall q: nat :: q in g[c] <==> q < |init| && CellIndex(gridSize, init[q]) == c;
        assert forall q: nat :: q < |init| ==> init[q] == coords[q];
        if c == ci {
          assert r[c] == g[c] + [i];
          forall p, q | 0 <= p < q < |r[c]| ensures r[c][p] < r[c][q] {
            if q == |g[c]| {
              assert g[c][p] in g[c];
            }
          }
        } else {
          assert r[c] == g[c];
        }
      }
    }
  }

  /** `for cell in &mut grid { cell.clear() }`, then push every particle into its cell. */
  method Fill(grid: array<seq<nat>>, gridSize: nat, coords: seq<CellCoord>)
    modifies grid
    ensures grid[..] == Bucket(coords, gridSize, grid.Length)
  {
    var c := 0;
    while c < grid.Length
      invariant 0 <= c <= grid.Length
      invariant forall k :: 0 <= k < c ==> grid[k] == []
    {
      grid[c] := [];
      c := c + 1;
    }
    var i := 0;
    while i < |coords|
      invariant 0 <= i <= |coords|
      invariant grid[..] == Bucket(coords[..i], gridSize, grid.Length)
    {
      assert coords[..i + 1][..i] == coords[..i];
      var cellIndex := coords[i].y * gridSize + coords[i].x;
      if cellIndex < grid.Length {
        grid[cellIndex] := grid[cellIndex] + [i];
      }
      i := i + 1;
    }
    assert coords[..i] == coords;
  }

  lemma AppendAssoc(a: seq<Pair>, b: seq<Pair>, c: seq<Pair>)
    ensures (a + b) + c == a + (b + c)
  {
  }

  /** The four forward offsets `(dx, dy)`: right, bottom-right, bottom, bottom-left. */
  const Offsets: seq<(int, int)> := [(1, 0), (1, 1), (0, 1), (-1, 1)]

  lemma CellInGrid(gridSize: nat, x: nat, y: nat)
    requires x < gridSize && y < gridSize
    ensures y * gridSize + x < gridSize * gridSize
  {
    assert y * gridSize <= (gridSize - 1) * gridSize;
  }

  /** The neighbour of cell `(x, y)` at offset `k`, when it lies inside the grid. */
  function Neighbour(gridSize: nat, x: nat, y: nat, k: nat): (d: Option<nat>)
    requires k < 4
    ensures d.Some? ==> d.value < gridSize * gridSize
  {
    var nx := x + Offsets[k].0;
    var ny := y + Offsets[k].1;
    if 0 <= nx < gridSize && 0 <= ny < gridSize then
      CellInGrid(gridSize, nx, ny);
      Some(ny * gridSize + nx)
    else None
  }

  /** The particles of cell `(x, y)`, `grid[y * grid_size + x]`. */
  function Cell(grid: Grid, gridSize: nat, x: nat, y: nat): seq<nat>
    requires |grid| == gridSize * gridSize && x < gridSize && y < gridSize
  {
    CellInGrid(gridSize, x, y);
    grid[y * gridSize + x]
  }

  /** The particles of the neighbour at offset `k`, none when it is out of bounds. */
  function NeighbourList(grid: Grid, gridSize: nat, x: nat, y: nat, k: nat): seq<nat>
    requires |grid| == gridSize * gridSize && k < 4
  {
    match Neighbour(gridSize, x, y, k)
    case Some(d) => grid[d]
    case None => []
  }

  /** The pairs of particle `p` with the neighbours at offsets `0 .. k`, in offset order. */
  function NeighbourPairs(grid: Grid, gridSize: nat, x: nat, y: nat, p: nat, k: nat): seq<Pair>
    requires |grid| == gridSize * gridSize && k <= 4
  {
    if k == 0 then [] else NeighbourPairs(grid, gridSize, x, y, p, k - 1) + PairsWith(p, NeighbourList(grid, gridSize, x, y, k - 1))
  }

  /** Everything particle `i` of cell `(x, y)` emits: later particles of its cell, then its neighbours. */
  function ParticlePairs(grid: Grid, gridSize: nat, x: nat, y: nat, i: nat): seq<Pair>
    requires |grid| == gridSize * gridSize && x < gridSize && y < gridSize
    requires i < |Cell(grid, gridSize, x, y)|
  {
    var cell := Cell(grid, gridSize, x, y);
    PairsWith(cell[i], cell[i + 1..]) + NeighbourPairs(grid, gridSize, x, y, cell[i], 4)
  }

  function CellPairsUpTo(grid: Grid, gridSize: nat, x: nat, y: nat, i: nat): seq<Pair>
    requires |grid| == gridSize * gridSize && x < gridSize && y < gridSize
    requires i <= |Cell(grid, gridSize, x, y)|
  {
    if i == 0 then [] else CellPairsUpTo(grid, gridSize, x, y, i - 1) + ParticlePairs(grid, gridSize, x, y, i - 1)
  }

  /** Everything the scan emits at cell `(x, y)`. */
  function CellPairs(grid: Grid, gridSize: nat, x: nat, y: nat): seq<Pair>
    requires |grid| == gridSize * gridSize && x < gridSize && y < gridSize
  {
    CellPairsUpTo(grid, gridSize, x, y, |Cell(grid, gridSize, x, y)|)
  }

  /** What the scan emits at every cell: `scans[y][x]` for cell `(x, y)`. */
  function CellScans(grid: Grid, gridSize: nat): (scans: seq<seq<seq<Pair>>>)
    requires |grid| == gridSize * gridSize
    ensures |scans| == gridSize
    ensures forall y :: 0 <= y < gridSize ==> |scans[y]| == gridSize
  {
    seq(gridSize, y requires 0 <= y < gridSize => seq(gridSize, x requires 0 <= x < gridSize => CellPairs(grid, gridSize, x, y)))
  }

  lemma ScanAt(grid: Grid, gridSize: nat, x: nat, y: nat)
    requires |grid| == gridSize * gridSize && x < gridSize && y < gridSize
    ensures CellScans(grid, gridSize)[y][x] == CellPairs(grid, gridSize, x, y)
  {
  }

  /** The cells `x0 .. x1` of one row, left to right. */
  function RowPairs(row: seq<seq<Pair>>, x0: nat, x1: nat): seq<Pair>
    requires x0 <= x1 <= |row|
    decreases x1
  {
    if x1 == x0 then [] else RowPairs(row, x0, x1 - 1) + row[x1 - 1]
  }

  /** The rectangle `x0 .. x1` by `y0 .. y1`, row by row. */
  function RegionPairs(scans: seq<seq<seq<Pair>>>, x0: nat, x1: nat, y0: nat, y1: nat): seq<Pair>
    requires y0 <= y1 <= |scans| && x0 <= x1 && forall y :: y0 <= y < y1 ==> x1 <= |scans[y]|
    decreases y1
  {
    if y1 == y0 then [] else RegionPairs(scans, x0, x1, y0, y1 - 1) + RowPairs(scans[y1 - 1], x0, x1)
  }

  /** The last cell of a row range comes after the cells before it. */
  lemma RowUnfold(row: seq<seq<Pair>>, x0: nat, xm: nat, x1: nat)
    requires x0 <= xm && xm + 1 == x1 <= |row|
    ensures RowPairs(row, x0, x1) == RowPairs(row, x0, xm) + row[xm]
  {
  }

  /** The last row of a rectangle comes after the rows above it. */
  lemma RegionUnfold(scans: seq<seq<seq<Pair>>>, x0: nat, x1: nat, y0: nat, ym: nat, y1: nat)
    requires y0 <= ym && ym + 1 == y1 <= |scans| && x0 <= x1 && forall y :: y0 <= y < y1 ==> x1 <= |scans[y]|
    ensures RegionPairs(scans, x0, x1, y0, y1) == RegionPairs(scans, x0, x1, y0, ym) + RowPairs(scans[ym], x0, x1)
  {
  }

  /** The sequential scan over the whole grid. */
  function GridPairs(grid: Grid, gridSize: nat): seq<Pair>
    requires |grid| == gridSize * gridSize
  {
    RegionPairs(CellScans(grid, gridSize), 0, gridSize, 0, gridSize)
  }

  /** `if let Some(neighbor_index) = ...`: particle `p` against the neighbour at offset `k` when it is in bounds. */
  method ScanNeighbour(grid: Grid, gridSize: nat, x: nat, y: nat, p: nat, k: nat, collisions: seq<Pair>) returns (r: seq<Pair>)
    requires |grid| == gridSize * gridSize && k < 4
    ensures r == collisions + PairsWith(p, NeighbourList(grid, gridSize, x, y, k))
  {
    var neighbour := Neighbour(gridSize, x, y, k);
    if neighbour.Some? {
      r := PushPairsWith(collisions, p, grid[neighbour.value]);
    } else {
      r := collisions;
    }
  }

  /** `for &(dx, dy) in &neighbor_offsets`: particle `p` against each in-bounds neighbour. */
  method ScanNeighbours(grid: Grid, gridSize: nat, x: nat, y: nat, p: nat, collisions: seq<Pair>) returns (r: seq<Pair>)
    requires |grid| == gridSize * gridSize
    ensures r == collisions + NeighbourPairs(grid, gridSize, x, y, p, 4)
  {
    r := collisions;
    var k := 0;
    while k < 4
      invariant 0 <= k <= 4
      invariant r == collisions + NeighbourPairs(grid, gridSize, x, y, p, k)
    {
      r := ScanNeighbour(grid, gridSize, x, y, p, k, r);
      AppendAssoc(collisions, NeighbourPairs(grid, gridSize, x, y, p, k), PairsWith(p, NeighbourList(grid, gridSize, x, y, k)));
      k := k + 1;
    }
  }

  /**
   * Particle `i` of cell `(x, y)` against the later particles of its cell,
   * then against the neighbours: what the scan had emitted for particles
   * `0 .. i` of the cell grows to particles `0 .. i + 1`.
   */
  method ScanParticle(grid: Grid, gridSize: nat, x: nat, y: nat, cell: seq<nat>, i: nat, next: nat, ghost start: seq<Pair>, collisions: seq<Pair>) returns (r: seq<Pair>)
    requires |grid| == gridSize * gridSize && x < gridSize && y < gridSize
    requires cell == Cell(grid, gridSize, x, y) && i < |cell| && next == i + 1
    requires collisions == start + CellPairsUpTo(grid, gridSize, x, y, i)
    ensures r == start + CellPairsUpTo(grid, gridSize, x, y, next)
  {
    var particle := cell[i];
    r := PushPairsWith(collisions, particle, cell[i + 1..]);
    r := ScanNeighbours(grid, gridSize, x, y, particle, r);
    AppendAssoc(collisions, PairsWith(particle, cell[i + 1..]), NeighbourPairs(grid, gridSize, x, y, particle, 4));
    AppendAssoc(start, CellPairsUpTo(grid, gridSize, x, y, i), ParticlePairs(grid, gridSize, x, y, i));
  }

  /** `for i in 0..cell.len()`: the particles of cell `(x, y)` in order. */
  method ScanParticles(grid: Grid, gridSize: nat, x: nat, y: nat, cell: seq<nat>, collisions: seq<Pair>) returns (r: seq<Pair>)
    requires |grid| == gridSize * gridSize && x < gridSize && y < gridSize
    requires cell == Cell(grid, gridSize, x, y)
    ensures r == collisions + CellPairsUpTo(grid, gridSize, x, y, |cell|)
  {
    r := collisions;
    var i := 0;
    while i < |cell|
      invariant 0 <= i <= |cell|
      invariant r == collisions + CellPairsUpTo(grid, gridSize, x, y, i)
    {
      var next := i + 1;
      r := ScanParticle(grid, gridSize, x, y, cell, i, next, collisions, r);
      i := next;
    }
  }

  /** The body of the scan for one cell: each particle against later ones of the cell, then the neighbours. */
  method ScanCell(grid: Grid, gridSize: nat, x: nat, y: nat, collisions: seq<Pair>) returns (r: seq<Pair>)
    requires |grid| == gridSize * gridSize && x < gridSize && y < gridSize
    ensures r == collisions + CellPairs(grid, gridSize, x, y)
  {
    CellInGrid(gridSize, x, y);
    var cellIndex := y * gridSize + x;
    var cell := grid[cellIndex];
    r := ScanParticles(grid, gridSize, x, y, cell, collisions);
  }

  /** `scans` holds, cell by cell, what the scan emits there. */
  predicate ScansOf(grid: Grid, gridSize: nat, scans: seq<seq<seq<Pair>>>)
    requires |grid| == gridSize * gridSize
  {
    |scans| == gridSize &&
    (forall y :: 0 <= y < gridSize ==> |scans[y]| == gridSize) &&
    forall x, y {:trigger CellPairs(grid, gridSize, x, y)} :: 0 <= x < gridSize && 0 <= y < gridSize ==> scans[y][x] == CellPairs(grid, gridSize, x, y)
  }

  lemma CellScansOf(grid: Grid, gridSize: nat)
    requires |grid| == gridSize * gridSize
    ensures ScansOf(grid, gridSize, CellScans(grid, gridSize))
  {
  }

  /** The inner loop `for x in x0..x1` of the scan, over row `y`, whose cells emit `row`. */
  method ScanRow(grid: Grid, gridSize: nat, y: nat, x0: nat, x1: nat, ghost row: seq<seq<Pair>>, collisions: seq<Pair>) returns (r: seq<Pair>)
    requires |grid| == gridSize * gridSize && x0 <= x1 <= gridSize && y < gridSize && |row| == gridSize
    requires forall x {:trigger CellPairs(grid, gridSize, x, y)} :: 0 <= x < gridSize ==> row[x] == CellPairs(grid, gridSize, x, y)
    ensures r == collisions + RowPairs(row, x0, x1)
  {
    r := collisions;
    var x := x0;
    while x < x1
      invariant x0 <= x <= x1
      invariant r == collisions + RowPairs(row, x0, x)
    {
      ghost var done := RowPairs(row, x0, x);
      r := ScanCell(grid, gridSize, x, y, r);
      AppendAssoc(collisions, done, row[x]);
      x := x + 1;
    }
  }

  /**
   * The scan loops `for y in y0..y1 { for x in x0..x1 { ... } }` over one
   * rectangle of cells: the whole grid in the sequential broad phase, one
   * tile in the parallel one.
   */
  method ScanRegion(grid: Grid, gridSize: nat, x0: nat, x1: nat, y0: nat, y1: nat) returns (collisions: seq<Pair>)
    requires |grid| == gridSize * gridSize && x0 <= x1 <= gridSize && y0 <= y1 <= gridSize
    ensures collisions == RegionPairs(CellScans(grid, gridSize), x0, x1, y0, y1)
  {
    CellScansOf(grid, gridSize);
    collisions := ScanRows(grid, gridSize, x0, x1, y0, y1, CellScans(grid, gridSize));
  }

  /** The outer loop `for y in y0..y1` of the scan, whose cells emit `scans`. */
  method ScanRows(grid: Grid, gridSize: nat, x0: nat, x1: nat, y0: nat, y1: nat, ghost scans: seq<seq<seq<Pair>>>) returns (collisions: seq<Pair>)
    requires |grid| == gridSize * gridSize && x0 <= x1 <= gridSize && y0 <= y1 <= gridSize
    requires ScansOf(grid, gridSize, scans)
    ensures collisions == RegionPairs(scans, x0, x1, y0, y1)
  {
    collisions := [];
    var y := y0;
    while y < y1
      invariant y0 <= y <= y1
      invariant collisions == RegionPairs(scans, x0, x1, y0, y)
    {
      collisions := ScanRow(grid, gridSize, y, x0, x1, scans[y], collisions);
      y := y + 1;
    }
  }


}
