/**
 * The pairs the uniform-grid scan reports are fit for `solve_collisions`:
 * each is `(min, max)` of two distinct particles below the particle count,
 * and no unordered pair comes twice.
 */
module GridBounds {
  import opened Pairs
  import opened Wrappers
  import opened UniformGrid
  import opened GridCount
  import opened GridAdjacency

  lemma AppendIndexable(s: seq<Pair>, t: seq<Pair>, n: nat)
    requires AllIndexable(s, n) && AllIndexable(t, n)
    ensures AllIndexable(s + t, n)
  {
    forall k | 0 <= k < |s + t| ensures Indexable((s + t)[k], n) {
      if k >= |s| {
        assert (s + t)[k] == t[k - |s|];
      }
    }
  }

  /** A particle paired with others, all distinct from it and below `n`, gives indexable pairs. */
  lemma PairsWithIndexable(p: nat, others: seq<nat>, n: nat)
    requires p < n
    requires forall r :: 0 <= r < |others| ==> others[r] < n && others[r] != p
    ensures AllIndexable(PairsWith(p, others), n)
  {
  }

  /** No forward offset leads a cell back to itself. */
  lemma NeighbourNotSelf(gridSize: nat, x: nat, y: nat, k: nat)
    requires k < 4 && x < gridSize && y < gridSize
    ensures Neighbour(gridSize, x, y, k) != Some(y * gridSize + x)
  {
    NeighbourIsCell(gridSize, x, y, k, x, y);
    assert Offsets[0] == (1, 0) && Offsets[1] == (1, 1) && Offsets[2] == (0, 1) && Offsets[3] == (-1, 1);
  }

  /** Particle `p` of cell `(x, y)` against its first `k` neighbours gives indexable pairs. */
  lemma {:induction false} NeighbourPairsIndexable(grid: Grid, gridSize: nat, coords: seq<CellCoord>, x: nat, y: nat, p: nat, k: nat)
    requires BucketedFrom(grid, gridSize, coords) && |grid| == gridSize * gridSize && x < gridSize && y < gridSize && k <= 4
    requires Here(coords, gridSize, p, y * gridSize + x)
    ensures AllIndexable(NeighbourPairs(grid, gridSize, x, y, p, k), |coords|)
  {
    if k > 0 {
      NeighbourPairsIndexable(grid, gridSize, coords, x, y, p, k - 1);
      var others := NeighbourList(grid, gridSize, x, y, k - 1);
      NeighbourNotSelf(gridSize, x, y, k - 1);
      var d := Neighbour(gridSize, x, y, k - 1);
      if d.Some? {
        assert others == grid[d.value];
        forall r | 0 <= r < |others| ensures others[r] < |coords| && others[r] != p {
          assert others[r] in grid[d.value];
        }
      }
      PairsWithIndexable(p, others, |coords|);
      AppendIndexable(NeighbourPairs(grid, gridSize, x, y, p, k - 1), PairsWith(p, others), |coords|);
    }
  }

  /** Everything particle `i` of cell `(x, y)` emits is indexable. */
  lemma ParticlePairsIndexable(grid: Grid, gridSize: nat, coords: seq<CellCoord>, x: nat, y: nat, i: nat)
    requires BucketedFrom(grid, gridSize, coords) && |grid| == gridSize * gridSize && x < gridSize && y < gridSize
    requires i < |Cell(grid, gridSize, x, y)|
    ensures AllIndexable(ParticlePairs(grid, gridSize, x, y, i), |coords|)
  {
    CellInGrid(gridSize, x, y);
    var c := y * gridSize + x;
    var cell := Cell(grid, gridSize, x, y);
    assert cell == grid[c];
    var p := cell[i];
    assert p in grid[c];
    var later := cell[i + 1..];
    LaterAbove(cell, i, later);
    forall r | 0 <= r < |later| ensures later[r] < |coords| && later[r] != p {
      assert later[r] == cell[i + 1 + r];
      assert later[r] in grid[c];
    }
    PairsWithIndexable(p, later, |coords|);
    NeighbourPairsIndexable(grid, gridSize, coords, x, y, p, 4);
    AppendIndexable(PairsWith(p, later), NeighbourPairs(grid, gridSize, x, y, p, 4), |coords|);
  }

  lemma {:induction false} ConcatIndexable(parts: seq<seq<Pair>>, n: nat)
    requires forall k :: 0 <= k < |parts| ==> AllIndexable(parts[k], n)
    ensures AllIndexable(Concat(parts), n)
  {
    if parts != [] {
      ConcatIndexable(parts[..|parts| - 1], n);
      AppendIndexable(Concat(parts[..|parts| - 1]), parts[|parts| - 1], n);
    }
  }

  /** Everything the scan emits at cell `(x, y)` is indexable. */
  lemma CellIndexable(grid: Grid, gridSize: nat, coords: seq<CellCoord>, x: nat, y: nat)
    requires BucketedFrom(grid, gridSize, coords) && |grid| == gridSize * gridSize && x < gridSize && y < gridSize
    ensures AllIndexable(CellPairs(grid, gridSize, x, y), |coords|)
  {
    var n := |Cell(grid, gridSize, x, y)|;
    var runs := Runs(grid, gridSize, x, y, n);
    forall j | 0 <= j < n ensures AllIndexable(runs[j], |coords|) {
      ParticlePairsIndexable(grid, gridSize, coords, x, y, j);
    }
    ConcatIndexable(runs, |coords|);
    CellPairsUpToRuns(grid, gridSize, x, y, n);
  }

  lemma {:induction false} RowIndexable(row: seq<seq<Pair>>, x0: nat, x1: nat, n: nat)
    requires x0 <= x1 <= |row|
    requires forall x :: 0 <= x < |row| ==> AllIndexable(row[x], n)
    ensures AllIndexable(RowPairs(row, x0, x1), n)
    decreases x1
  {
    if x1 > x0 {
      RowIndexable(row, x0, x1 - 1, n);
      AppendIndexable(RowPairs(row, x0, x1 - 1), row[x1 - 1], n);
    }
  }

  lemma {:induction false} RegionIndexable(scans: seq<seq<seq<Pair>>>, x0: nat, x1: nat, y0: nat, y1: nat, n: nat)
    requires y0 <= y1 <= |scans| && x0 <= x1 && forall y :: y0 <= y < y1 ==> x1 <= |scans[y]|
    requires forall y, x :: 0 <= y < |scans| && 0 <= x < |scans[y]| ==> AllIndexable(scans[y][x], n)
    ensures AllIndexable(RegionPairs(scans, x0, x1, y0, y1), n)
    decreases y1
  {
    if y1 > y0 {
      RegionIndexable(scans, x0, x1, y0, y1 - 1, n);
      RowIndexable(scans[y1 - 1], x0, x1, n);
      AppendIndexable(RegionPairs(scans, x0, x1, y0, y1 - 1), RowPairs(scans[y1 - 1], x0, x1), n);
    }
  }

  /** Every cell's scan of a bucketed grid is indexable. */
  lemma ScansIndexable(grid: Grid, gridSize: nat, coords: seq<CellCoord>)
    requires BucketedFrom(grid, gridSize, coords) && |grid| == gridSize * gridSize
    ensures var scans := CellScans(grid, gridSize);
      forall y, x :: 0 <= y < |scans| && 0 <= x < |scans[y]| ==> AllIndexable(scans[y][x], |coords|)
  {
    var scans := CellScans(grid, gridSize);
    forall y, x | 0 <= y < |scans| && 0 <= x < |scans[y]| ensures AllIndexable(scans[y][x], |coords|) {
      ScanAt(grid, gridSize, x, y);
      CellIndexable(grid, gridSize, coords, x, y);
    }
  }

  /** The scan of any rectangle of a bucketed grid reports only pairs `i < j < len`. */
  lemma RegionPairsIndexable(grid: Grid, gridSize: nat, coords: seq<CellCoord>, x0: nat, x1: nat, y0: nat, y1: nat)
    requires BucketedFrom(grid, gridSize, coords) && |grid| == gridSize * gridSize
    requires x0 <= x1 <= gridSize && y0 <= y1 <= gridSize
    ensures AllIndexable(RegionPairs(CellScans(grid, gridSize), x0, x1, y0, y1), |coords|)
  {
    ScansIndexable(grid, gridSize, coords);
    RegionIndexable(CellScans(grid, gridSize), x0, x1, y0, y1, |coords|);
  }

  /**
   * A list of indexable pairs holding every `(a, b)` with `a < b` once when
   * the two particles touch and never otherwise repeats no pair, and holds
   * exactly the touching pairs.
   */
  lemma TouchCountsSound(ps: seq<Pair>, coords: seq<CellCoord>, gridSize: nat)
    requires AllIndexable(ps, |coords|)
    requires forall a: nat, b: nat :: a < b ==> multiset(ps)[(a, b)] == if Touching(coords, gridSize, a, b) then 1 else 0
    ensures NoRepeatedPair(ps)
    ensures forall a: nat, b: nat :: (a, b) in ps <==> a < b && Touching(coords, gridSize, a, b)
  {
    forall k | 0 <= k < |ps| ensures ps[k].0 < ps[k].1 && multiset(ps)[ps[k]] <= 1 {
      assert Indexable(ps[k], |coords|);
    }
    CountedOnceHasNoRepeat(ps);
    forall a: nat, b: nat | (a, b) in ps ensures a < b {
      var k :| 0 <= k < |ps| && ps[k] == (a, b);
      assert Indexable(ps[k], |coords|);
    }
  }

  /**
   * The grid broad phase over a bucketed grid reports only pairs `i < j < len`,
   * never the same unordered pair twice, and a pair exactly when the two
   * particles were bucketed into touching cells.
   */
  lemma GridPairsSound(grid: Grid, gridSize: nat, coords: seq<CellCoord>)
    requires BucketedFrom(grid, gridSize, coords) && |grid| == gridSize * gridSize
    ensures AllIndexable(GridPairs(grid, gridSize), |coords|)
    ensures NoRepeatedPair(GridPairs(grid, gridSize))
    ensures forall a: nat, b: nat :: (a, b) in GridPairs(grid, gridSize) <==> a < b && Touching(coords, gridSize, a, b)
  {
    var ps := GridPairs(grid, gridSize);
    RegionPairsIndexable(grid, gridSize, coords, 0, gridSize, 0, gridSize);
    forall a: nat, b: nat | a < b ensures multiset(ps)[(a, b)] == if Touching(coords, gridSize, a, b) then 1 else 0 {
      GridTouch(grid, gridSize, coords, a, b);
    }
    TouchCountsSound(ps, coords, gridSize);
  }
}
