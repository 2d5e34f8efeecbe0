/**
 * The flat-offset variant of the grid scan in the parallel engine: one
 * loop over cell indices, neighbours reached by adding a fixed offset to
 * the index, and the row edges recognised by comparing the offset's value.
 * When `grid_size == 2` the offsets `1` (right) and `grid_size - 1`
 * (bottom-left) coincide, so both edge tests fire for both offsets and
 * legitimate neighbours are skipped; when `grid_size == 0`, computing
 * `grid_size - 1` underflows. The corrected test keys on the offset's
 * position instead of its value and agrees with the two-dimensional scan
 * for every grid size.
 */
module FlatGrid {
  import opened Pairs
  import opened Wrappers
  import opened UniformGrid
  import opened GridCount
  import opened GridAdjacency
  import opened GridBounds

  /** How the scan recognises an offset that would leave the row. */
  datatype EdgeTest =
    | ByValue     // compares the offset's value with `1`, `grid_size + 1` and `grid_size - 1`
    | ByPosition  // asks which of the four offsets it is

  /** The scan's only failure: `grid_size - 1` below zero. */
  datatype ScanError = SubtractOverflow

  /**
   * `[1, grid_size + 1, grid_size, grid_size - 1]`, none when the last
   * entry underflows. Each offset moves an index by the row-major distance
   * of the corresponding two-dimensional offset.
   */
  function FlatOffsets(gridSize: nat): (r: Option<seq<nat>>)
    ensures r.None? <==> gridSize == 0
    ensures r.Some? ==> |r.value| == 4
  {
    if gridSize == 0 then None else Some([1, gridSize + 1, gridSize, gridSize - 1])
  }

  /** Each flat offset moves an index by the row-major distance of the matching two-dimensional offset. */
  lemma FlatOffsetsRowMajor(gridSize: nat, k: nat)
    requires gridSize > 0 && k < 4
    ensures FlatOffsets(gridSize).value[k] == Offsets[k].1 * gridSize + Offsets[k].0
  {
  }

  /**
   * The neighbour of cell `c` at offset `k` in a grid of `count` cells: the
   * offset index when it is below `count` and the edge test does not
   * reject it.
   */
  function FlatNeighbour(gridSize: nat, count: nat, c: nat, k: nat, test: EdgeTest): (d: Option<nat>)
    requires gridSize > 0 && c < count && k < 4
    ensures d.Some? ==> c < d.value < count
  {
    var offset := FlatOffsets(gridSize).value[k];
    var n := c + offset;
    if n < count then
      var x := c % gridSize;
      var skip :=
        if test == ByValue then
          (offset == 1 && x == gridSize - 1) || (offset == gridSize + 1 && x == gridSize - 1) || (offset == gridSize - 1 && x == 0)
        else
          ((k == 0 || k == 1) && x == gridSize - 1) || (k == 3 && x == 0);
      if skip then None else Some(n)
    else None
  }

  /**
   * Away from `grid_size == 2`, and for the corrected test always, the
   * flat neighbour of `(x, y)` is the two-dimensional one.
   */
  lemma FlatNeighbourMatches(gridSize: nat, x: nat, y: nat, k: nat, test: EdgeTest)
    requires x < gridSize && y < gridSize && k < 4
    requires test == ByPosition || gridSize != 2
    ensures y * gridSize + x < gridSize * gridSize
    ensures FlatNeighbour(gridSize, gridSize * gridSize, y * gridSize + x, k, test) == Neighbour(gridSize, x, y, k)
  {
    CellInGrid(gridSize, x, y);
    var c := y * gridSize + x;
    IndexCoords(gridSize, c, x, y);
    assert (y + 1) * gridSize == c - x + gridSize;
    if y + 1 < gridSize {
      CellInGrid(gridSize, gridSize - 1, y + 1);
    } else {
      assert (y + 1) * gridSize == gridSize * gridSize;
    }
  }

  /** At `grid_size == 2` the value test drops the right neighbour of cell 0 and the bottom-left one of cell 1. */
  lemma FlatNeighbourMissesAtTwo()
    ensures Neighbour(2, 0, 0, 0) == Some(1) && FlatNeighbour(2, 4, 0, 0, ByValue) == None
    ensures Neighbour(2, 1, 0, 3) == Some(2) && FlatNeighbour(2, 4, 1, 3, ByValue) == None
  {
  }

  /** The particles of the neighbour at offset `k` of cell `c`, none when it is skipped. */
  function FlatNeighbourList(grid: Grid, gridSize: nat, c: nat, k: nat, test: EdgeTest): seq<nat>
    requires gridSize > 0 && c < |grid| && k < 4
  {
    match FlatNeighbour(gridSize, |grid|, c, k, test)
    case Some(d) => grid[d]
    case None => []
  }

  /** The pairs of particle `p` with the neighbours at offsets `0 .. k` of cell `c`. */
  function FlatNeighbourPairs(grid: Grid, gridSize: nat, c: nat, p: nat, k: nat, test: EdgeTest): seq<Pair>
    requires gridSize > 0 && c < |grid| && k <= 4
  {
    if k == 0 then [] else FlatNeighbourPairs(grid, gridSize, c, p, k - 1, test) + PairsWith(p, FlatNeighbourList(grid, gridSize, c, k - 1, test))
  }

  /** Everything particle `i` of cell `c` emits: later particles of its cell, then its neighbours. */
  function FlatParticlePairs(grid: Grid, gridSize: nat, c: nat, i: nat, test: EdgeTest): seq<Pair>
    requires gridSize > 0 && c < |grid| && i < |grid[c]|
  {
    PairsWith(grid[c][i], grid[c][i + 1..]) + FlatNeighbourPairs(grid, gridSize, c, grid[c][i], 4, test)
  }

  function FlatCellPairsUpTo(grid: Grid, gridSize: nat, c: nat, i: nat, test: EdgeTest): seq<Pair>
    requires gridSize > 0 && c < |grid| && i <= |grid[c]|
  {
    if i == 0 then [] else FlatCellPairsUpTo(grid, gridSize, c, i - 1, test) + FlatParticlePairs(grid, gridSize, c, i - 1, test)
  }

  /** Everything the flat scan emits at cell `c`. */
  function FlatCellPairs(grid: Grid, gridSize: nat, c: nat, test: EdgeTest): seq<Pair>
    requires gridSize > 0 && c < |grid|
  {
    FlatCellPairsUpTo(grid, gridSize, c, |grid[c]|, test)
  }

  /** What the flat scan emits at each cell index. */
  function FlatScans(grid: Grid, gridSize: nat, test: EdgeTest): (scans: seq<seq<Pair>>)
    requires |grid| == gridSize * gridSize
    ensures |scans| == |grid|
  {
    if gridSize == 0 then [] else seq(|grid|, c requires 0 <= c < |grid| => FlatCellPairs(grid, gridSize, c, test))
  }

  /** The flat scan over the whole grid, cell index by cell index. */
  function FlatPairs(grid: Grid, gridSize: nat, test: EdgeTest): seq<Pair>
    requires |grid| == gridSize * gridSize
  {
    Concat(FlatScans(grid, gridSize, test))
  }

  /** One offset of `for &offset in &neighbor_offsets`: the bound check, the value-based edge test, then the neighbour's particles. */
  method ScanFlatOffset(grid: Grid, gridSize: nat, offsets: seq<nat>, c: nat, p: nat, k: nat, collisions: seq<Pair>) returns (r: seq<Pair>)
    requires gridSize > 0 && c < |grid| && k < 4
    requires FlatOffsets(gridSize) == Some(offsets)
    ensures r == collisions + PairsWith(p, FlatNeighbourList(grid, gridSize, c, k, ByValue))
  {
    var offset := offsets[k];
    var neighbourIndex := c + offset;
    if neighbourIndex < |grid| {
      var x := c % gridSize;
      if (offset == 1 && x == gridSize - 1) || (offset == gridSize + 1 && x == gridSize - 1) || (offset == gridSize - 1 && x == 0) {
        return collisions;
      }
      r := PushPairsWith(collisions, p, grid[neighbourIndex]);
    } else {
      r := collisions;
    }
  }

  /** `for &offset in &neighbor_offsets`: particle `p` against each neighbour the edge test lets through. */
  method ScanFlatNeighbours(grid: Grid, gridSize: nat, offsets: seq<nat>, c: nat, p: nat, collisions: seq<Pair>) returns (r: seq<Pair>)
    requires gridSize > 0 && c < |grid|
    requires FlatOffsets(gridSize) == Some(offsets)
    ensures r == collisions + FlatNeighbourPairs(grid, gridSize, c, p, 4, ByValue)
  {
    r := collisions;
    var k := 0;
    while k < |offsets|
      invariant 0 <= k <= 4
      invariant r == collisions + FlatNeighbourPairs(grid, gridSize, c, p, k, ByValue)
    {
      r := ScanFlatOffset(grid, gridSize, offsets, c, p, k, r);
      AppendAssoc(collisions, FlatNeighbourPairs(grid, gridSize, c, p, k, ByValue), PairsWith(p, FlatNeighbourList(grid, gridSize, c, k, ByValue)));
      k := k + 1;
    }
  }

  /** Particle `i` of cell `c` against the later particles of its cell, then against the neighbours. */
  method ScanFlatParticle(grid: Grid, gridSize: nat, offsets: seq<nat>, c: nat, i: nat, next: nat, ghost start: seq<Pair>, collisions: seq<Pair>)
    returns (r: seq<Pair>)
    requires gridSize > 0 && c < |grid| && i < |grid[c]| && next == i + 1
    requires FlatOffsets(gridSize) == Some(offsets)
    requires collisions == start + FlatCellPairsUpTo(grid, gridSize, c, i, ByValue)
    ensures r == start + FlatCellPairsUpTo(grid, gridSize, c, next, ByValue)
  {
    var particle := grid[c][i];
    r := PushPairsWith(collisions, particle, grid[c][i + 1..]);
    r := ScanFlatNeighbours(grid, gridSize, offsets, c, particle, r);
    AppendAssoc(collisions, PairsWith(particle, grid[c][i + 1..]), FlatNeighbourPairs(grid, gridSize, c, particle, 4, ByValue));
    AppendAssoc(start, FlatCellPairsUpTo(grid, gridSize, c, i, ByValue), FlatParticlePairs(grid, gridSize, c, i, ByValue));
  }

  /** The body of the flat scan for cell `c`. */
  method ScanFlatCell(grid: Grid, gridSize: nat, offsets: seq<nat>, c: nat, collisions: seq<Pair>) returns (r: seq<Pair>)
    requires gridSize > 0 && c < |grid|
    requires FlatOffsets(gridSize) == Some(offsets)
    ensures r == collisions + FlatCellPairs(grid, gridSize, c, ByValue)
  {
    r := collisions;
    var i := 0;
    while i < |grid[c]|
      invariant 0 <= i <= |grid[c]|
      invariant r == collisions + FlatCellPairsUpTo(grid, gridSize, c, i, ByValue)
    {
      var next := i + 1;
      r := ScanFlatParticle(grid, gridSize, offsets, c, i, next, collisions, r);
      i := next;
    }
  }

  /**
   * The flat scan as written: it fails on an empty grid, where
   * `grid_size - 1` underflows, and otherwise emits `FlatPairs` under the
   * value-based edge test.
   */
  method ScanFlat(grid: Grid, gridSize: nat) returns (r: Result<seq<Pair>, ScanError>)
    requires |grid| == gridSize * gridSize
    ensures r.Err? <==> gridSize == 0
    ensures r.Ok? ==> r.value == FlatPairs(grid, gridSize, ByValue)
  {
    var offsets := FlatOffsets(gridSize);
    if offsets.None? {
      return Err(SubtractOverflow);
    }
    ghost var scans := FlatScans(grid, gridSize, ByValue);
    var collisions: seq<Pair> := [];
    var c := 0;
    while c < |grid|
      invariant 0 <= c <= |grid|
      invariant collisions == Concat(scans[..c])
    {
      var next := c + 1;
      collisions := ScanFlatCell(grid, gridSize, offsets.value, c, collisions);
      FlatScansAt(grid, gridSize, c, ByValue);
      ConcatPrefixStep(scans, c, next);
      c := next;
    }
    assert scans[..c] == scans;
    return Ok(collisions);
  }

  /** The cell the flat scan reads at index `y * grid_size + x` is cell `(x, y)`. */
  lemma FlatNeighbourListMatches(grid: Grid, gridSize: nat, x: nat, y: nat, k: nat, test: EdgeTest)
    requires |grid| == gridSize * gridSize && x < gridSize && y < gridSize && k < 4
    requires test == ByPosition || gridSize != 2
    ensures y * gridSize + x < |grid|
    ensures FlatNeighbourList(grid, gridSize, y * gridSize + x, k, test) == NeighbourList(grid, gridSize, x, y, k)
  {
    FlatNeighbourMatches(gridSize, x, y, k, test);
  }

  lemma {:induction false} FlatNeighbourPairsMatch(grid: Grid, gridSize: nat, x: nat, y: nat, p: nat, k: nat, test: EdgeTest)
    requires |grid| == gridSize * gridSize && x < gridSize && y < gridSize && k <= 4
    requires test == ByPosition || gridSize != 2
    ensures y * gridSize + x < |grid|
    ensures FlatNeighbourPairs(grid, gridSize, y * gridSize + x, p, k, test) == NeighbourPairs(grid, gridSize, x, y, p, k)
  {
    CellInGrid(gridSize, x, y);
    if k > 0 {
      var km := k - 1;
      FlatNeighbourPairsMatch(grid, gridSize, x, y, p, km, test);
      FlatNeighbourListMatches(grid, gridSize, x, y, km, test);
    }
  }

  lemma FlatParticlePairsMatch(grid: Grid, gridSize: nat, x: nat, y: nat, i: nat, test: EdgeTest)
    requires |grid| == gridSize * gridSize && x < gridSize && y < gridSize
    requires test == ByPosition || gridSize != 2
    requires i < |Cell(grid, gridSize, x, y)|
    ensures y * gridSize + x < |grid| && Cell(grid, gridSize, x, y) == grid[y * gridSize + x]
    ensures FlatParticlePairs(grid, gridSize, y * gridSize + x, i, test) == ParticlePairs(grid, gridSize, x, y, i)
  {
    CellInGrid(gridSize, x, y);
    var c := y * gridSize + x;
    FlatNeighbourPairsMatch(grid, gridSize, x, y, grid[c][i], 4, test);
  }

  lemma {:induction false} FlatCellPairsUpToMatch(grid: Grid, gridSize: nat, x: nat, y: nat, i: nat, test: EdgeTest)
    requires |grid| == gridSize * gridSize && x < gridSize && y < gridSize
    requires test == ByPosition || gridSize != 2
    requires i <= |Cell(grid, gridSize, x, y)|
    ensures y * gridSize + x < |grid| && Cell(grid, gridSize, x, y) == grid[y * gridSize + x]
    ensures FlatCellPairsUpTo(grid, gridSize, y * gridSize + x, i, test) == CellPairsUpTo(grid, gridSize, x, y, i)
  {
    CellInGrid(gridSize, x, y);
    if i > 0 {
      var im := i - 1;
      FlatCellPairsUpToMatch(grid, gridSize, x, y, im, test);
      FlatParticlePairsMatch(grid, gridSize, x, y, im, test);
    }
  }

  /**
   * Away from `grid_size == 2`, and for the corrected test always, the flat
   * scan emits at index `y * grid_size + x` exactly what the
   * two-dimensional scan emits at cell `(x, y)`, in the same order.
   */
  lemma FlatCellMatches(grid: Grid, gridSize: nat, x: nat, y: nat, test: EdgeTest)
    requires |grid| == gridSize * gridSize && x < gridSize && y < gridSize
    requires test == ByPosition || gridSize != 2
    ensures y * gridSize + x < |grid|
    ensures FlatCellPairs(grid, gridSize, y * gridSize + x, test) == CellPairs(grid, gridSize, x, y)
  {
    FlatCellPairsUpToMatch(grid, gridSize, x, y, |Cell(grid, gridSize, x, y)|, test);
  }

  /** Appending a row cell by cell after index `base` appends its `RowPairs`. */
  lemma {:induction false} RowMajorRow(flat: seq<seq<Pair>>, row: seq<seq<Pair>>, base: nat, x: nat)
    requires base + x <= |flat| && x <= |row|
    requires forall j :: 0 <= j < x ==> flat[base + j] == row[j]
    ensures Concat(flat[..base + x]) == Concat(flat[..base]) + RowPairs(row, 0, x)
  {
    if x > 0 {
      RowMajorRow(flat, row, base, x - 1);
      assert flat[..base + x] == flat[..base + x - 1] + [flat[base + x - 1]];
      ConcatSnoc(flat[..base + x - 1], flat[base + x - 1]);
      AppendAssoc(Concat(flat[..base]), RowPairs(row, 0, x - 1), row[x - 1]);
    }
  }

  /** One more full row, from index `lo` on, extends the `RegionPairs` of the rows above it. */
  lemma RowMajorRegionStep(flat: seq<seq<Pair>>, scans: seq<seq<seq<Pair>>>, gridSize: nat, y: nat, lo: nat)
    requires 0 < y <= |scans| && forall r :: 0 <= r < |scans| ==> |scans[r]| == gridSize
    requires lo + gridSize <= |flat|
    requires Concat(flat[..lo]) == RegionPairs(scans, 0, gridSize, 0, y - 1)
    requires Concat(flat[..lo + gridSize]) == Concat(flat[..lo]) + RowPairs(scans[y - 1], 0, gridSize)
    ensures Concat(flat[..lo + gridSize]) == RegionPairs(scans, 0, gridSize, 0, y)
  {
  }

  lemma NextRow(gridSize: nat, y: nat)
    requires y > 0
    ensures (y - 1) * gridSize + gridSize == y * gridSize
  {
  }

  lemma FlatScansAt(grid: Grid, gridSize: nat, c: nat, test: EdgeTest)
    requires |grid| == gridSize * gridSize && c < |grid|
    ensures FlatScans(grid, gridSize, test)[c] == FlatCellPairs(grid, gridSize, c, test)
  {
  }

  lemma FlatScanAt(grid: Grid, gridSize: nat, base: nat, x: nat, y: nat, test: EdgeTest)
    requires |grid| == gridSize * gridSize && x < gridSize && y < gridSize && base == y * gridSize
    requires test == ByPosition || gridSize != 2
    ensures base + x < |FlatScans(grid, gridSize, test)|
    ensures FlatScans(grid, gridSize, test)[base + x] == CellScans(grid, gridSize)[y][x]
  {
    var c := y * gridSize + x;
    FlatCellMatches(grid, gridSize, x, y, test);
    ScanAt(grid, gridSize, x, y);
    FlatScansAt(grid, gridSize, c, test);
  }

  /** Row `y` of the flat scans, from index `base == y * grid_size` on, is row `y` of the two-dimensional ones. */
  lemma FlatRowAt(grid: Grid, gridSize: nat, y: nat, base: nat, test: EdgeTest)
    requires |grid| == gridSize * gridSize && y < gridSize && base == y * gridSize
    requires test == ByPosition || gridSize != 2
    ensures base + gridSize <= |FlatScans(grid, gridSize, test)|
    ensures forall j :: 0 <= j < gridSize ==> FlatScans(grid, gridSize, test)[base + j] == CellScans(grid, gridSize)[y][j]
  {
    CellInGrid(gridSize, gridSize - 1, y);
    forall j | 0 <= j < gridSize ensures FlatScans(grid, gridSize, test)[base + j] == CellScans(grid, gridSize)[y][j] {
      FlatScanAt(grid, gridSize, base, j, y, test);
    }
  }

  /** Row `y`, read from index `base == y * grid_size` of the flat scans, gives the row's `RowPairs`. */
  lemma FlatRowMatches(grid: Grid, gridSize: nat, y: nat, base: nat, test: EdgeTest)
    requires |grid| == gridSize * gridSize && y < gridSize && base == y * gridSize
    requires test == ByPosition || gridSize != 2
    ensures base + gridSize <= |FlatScans(grid, gridSize, test)|
    ensures Concat(FlatScans(grid, gridSize, test)[..base + gridSize]) ==
      Concat(FlatScans(grid, gridSize, test)[..base]) + RowPairs(CellScans(grid, gridSize)[y], 0, gridSize)
  {
    FlatRowAt(grid, gridSize, y, base, test);
    RowMajorRow(FlatScans(grid, gridSize, test), CellScans(grid, gridSize)[y], base, gridSize);
  }

  /** The first `y` rows, the flat scans up to index `hi == y * grid_size`, give their `RegionPairs`. */
  lemma {:induction false} FlatRegionMatches(grid: Grid, gridSize: nat, y: nat, hi: nat, test: EdgeTest)
    requires |grid| == gridSize * gridSize && y <= gridSize && hi == y * gridSize
    requires test == ByPosition || gridSize != 2
    ensures hi <= |FlatScans(grid, gridSize, test)|
    ensures Concat(FlatScans(grid, gridSize, test)[..hi]) == RegionPairs(CellScans(grid, gridSize), 0, gridSize, 0, y)
  {
    if y > 0 {
      NextRow(gridSize, y);
      var lo := hi - gridSize;
      assert lo == (y - 1) * gridSize;
      FlatRegionMatches(grid, gridSize, y - 1, lo, test);
      FlatRowMatches(grid, gridSize, y - 1, lo, test);
      RowMajorRegionStep(FlatScans(grid, gridSize, test), CellScans(grid, gridSize), gridSize, y, lo);
      assert lo + gridSize == hi;
    } else {
      assert hi == 0;
    }
  }

  /**
   * Away from `grid_size == 2`, and for the corrected test always, the flat
   * scan emits exactly the two-dimensional scan's pairs, in its order.
   */
  lemma FlatPairsMatchGrid(grid: Grid, gridSize: nat, test: EdgeTest)
    requires |grid| == gridSize * gridSize
    requires test == ByPosition || gridSize != 2
    ensures FlatPairs(grid, gridSize, test) == GridPairs(grid, gridSize)
  {
    FlatRegionMatches(grid, gridSize, gridSize, gridSize * gridSize, test);
    assert FlatScans(grid, gridSize, test)[..gridSize * gridSize] == FlatScans(grid, gridSize, test);
  }

  /**
   * With the corrected edge test, and with the value test away from
   * `grid_size == 2`, the flat scan names only real particle pairs, never
   * the same unordered pair twice, and a pair exactly when the two
   * particles were bucketed into touching cells.
   */
  lemma FlatPairsSound(grid: Grid, gridSize: nat, coords: seq<CellCoord>, test: EdgeTest)
    requires BucketedFrom(grid, gridSize, coords) && |grid| == gridSize * gridSize
    requires test == ByPosition || gridSize != 2
    ensures AllIndexable(FlatPairs(grid, gridSize, test), |coords|)
    ensures NoRepeatedPair(FlatPairs(grid, gridSize, test))
    ensures forall a: nat, b: nat :: (a, b) in FlatPairs(grid, gridSize, test) <==> a < b && Touching(coords, gridSize, a, b)
  {
    FlatPairsMatchGrid(grid, gridSize, test);
    GridPairsSound(grid, gridSize, coords);
  }

  /** Particle 0 in cell `(0, 0)` and particle 1 in cell `(1, 0)` of a 2 by 2 grid. */
  lemma BucketedAtTwo(grid: Grid, coords: seq<CellCoord>)
    requires grid == [[0], [1], [], []] && coords == [CellCoord(0, 0), CellCoord(1, 0)]
    ensures BucketedFrom(grid, 2, coords)
  {
    forall c | 0 <= c < |grid|
      ensures StrictlyIncreasing(grid[c])
      ensures forall q: nat :: q in grid[c] <==> q < |coords| && CellIndex(2, coords[q]) == c
    {
      if c == 0 {
        assert grid[c] == [0];
      } else if c == 1 {
        assert grid[c] == [1];
      } else {
        assert grid[c] == [];
      }
    }
  }

  lemma FlatScansAtTwo(grid: Grid)
    requires grid == [[0], [1], [], []]
    ensures forall c :: 0 <= c < 4 ==> FlatScans(grid, 2, ByValue)[c] == []
  {
    var flat := FlatScans(grid, 2, ByValue);
    forall c, k | 0 <= c < 2 && 0 <= k < 4 ensures FlatNeighbourList(grid, 2, c, k, ByValue) == [] {
      assert FlatOffsets(2).value == [1, 3, 2, 1];
    }
    forall c | 0 <= c < 2 ensures flat[c] == [] {
      NoNeighbourPairs(grid, 2, c, grid[c][0], 4, ByValue);
      assert grid[c][1..] == [];
      assert FlatParticlePairs(grid, 2, c, 0, ByValue) == [];
      assert FlatCellPairs(grid, 2, c, ByValue) == FlatCellPairsUpTo(grid, 2, c, 0, ByValue) + FlatParticlePairs(grid, 2, c, 0, ByValue);
    }
  }

  /** A particle whose neighbours at offsets `0 .. k` are all empty pairs with none of them. */
  lemma {:induction false} NoNeighbourPairs(grid: Grid, gridSize: nat, c: nat, p: nat, k: nat, test: EdgeTest)
    requires gridSize > 0 && c < |grid| && k <= 4
    requires forall j :: 0 <= j < k ==> FlatNeighbourList(grid, gridSize, c, j, test) == []
    ensures FlatNeighbourPairs(grid, gridSize, c, p, k, test) == []
  {
    if k > 0 {
      NoNeighbourPairs(grid, gridSize, c, p, k - 1, test);
      var none := FlatNeighbourList(grid, gridSize, c, k - 1, test);
      assert none == [];
      assert FlatNeighbourPairs(grid, gridSize, c, p, k, test) == FlatNeighbourPairs(grid, gridSize, c, p, k - 1, test) + PairsWith(p, none);
    }
  }


  /**
   * Two particles side by side in a 2 by 2 grid touch, yet the value test
   * reports nothing for them, while the corrected test reports the pair.
   */
  lemma FlatPairsMissAtTwo(grid: Grid, coords: seq<CellCoord>)
    requires grid == [[0], [1], [], []] && coords == [CellCoord(0, 0), CellCoord(1, 0)]
    ensures BucketedFrom(grid, 2, coords) && Touching(coords, 2, 0, 1)
    ensures FlatPairs(grid, 2, ByValue) == []
    ensures (0, 1) in FlatPairs(grid, 2, ByPosition)
  {
    BucketedAtTwo(grid, coords);
    TouchingAtTwo(coords);
    FlatScansAtTwo(grid);
    ConcatEmpty(FlatScans(grid, 2, ByValue));
    FlatPairsSound(grid, 2, coords, ByPosition);
  }

  lemma TouchingAtTwo(coords: seq<CellCoord>)
    requires coords == [CellCoord(0, 0), CellCoord(1, 0)]
    ensures Touching(coords, 2, 0, 1)
  {
    SpotAtTwo(coords, 0);
    SpotAtTwo(coords, 1);
  }

  lemma SpotAtTwo(coords: seq<CellCoord>, q: nat)
    requires coords == [CellCoord(0, 0), CellCoord(1, 0)] && q < 2
    ensures Spot(coords, 2, q) == Some((q, 0))
  {
    assert Bucketed(coords, 2, q);
    assert CellOf(coords, 2, q) == q;
    assert q % 2 == q && q / 2 == 0;
  }

  lemma {:induction false} ConcatEmpty(parts: seq<seq<Pair>>)
    requires forall i :: 0 <= i < |parts| ==> parts[i] == []
    ensures Concat(parts) == []
  {
    if parts != [] {
      ConcatEmpty(parts[..|parts| - 1]);
    }
  }
}
