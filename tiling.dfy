/**
 * The parallel broad phase: the grid's rows and columns are cut into
 * `yRegions` by `xRegions` tiles at `(k * grid_size) / regions`, each tile
 * is scanned like the sequential grid (in the source on a thread pool; here
 * one after the other, in region order), and the per-tile results are
 * appended in region order.
 */
module Tiling {
  import opened Pairs
  import opened UniformGrid
  import opened GridCount
  import opened GridAdjacency
  import opened GridBounds

  /** `(k * grid_size) / regions`: where region `k` starts and region `k - 1` ends. */
  function Bound(k: nat, gridSize: nat, regions: nat): nat
    requires regions > 0
  {
    (k * gridSize) / regions
  }

  /** The cut points `Bound(0) .. Bound(regions)` of one axis. */
  function Bounds(gridSize: nat, regions: nat): (bs: seq<nat>)
    requires regions > 0
    ensures |bs| == regions + 1
    ensures forall k :: 0 <= k <= regions ==> bs[k] == Bound(k, gridSize, regions)
  {
    seq(regions + 1, k requires 0 <= k <= regions => Bound(k, gridSize, regions))
  }

  /** Cut points that start at 0, end at `gridSize` and never decrease: a tiling of `0 .. gridSize`. */
  predicate Cuts(bs: seq<nat>, gridSize: nat) {
    |bs| >= 1 && bs[0] == 0 && bs[|bs| - 1] == gridSize &&
    (forall i :: 0 <= i < |bs| ==> bs[i] <= gridSize) &&
    (forall i :: 0 <= i < |bs| - 1 ==> bs[i] <= bs[i + 1])
  }

  /** Cut points never decrease and never pass `gridSize`. */
  lemma {:induction false} CutsMono(bs: seq<nat>, gridSize: nat, i: nat, j: nat)
    requires Cuts(bs, gridSize) && i <= j < |bs|
    ensures bs[i] <= bs[j] <= gridSize
    decreases |bs| - i
  {
    if j < |bs| - 1 {
      CutsMono(bs, gridSize, j + 1, |bs| - 1);
    }
    if i < j {
      CutsMono(bs, gridSize, i + 1, j);
    }
  }

  /** The source's bounds are cut points. */
  lemma BoundsCut(gridSize: nat, regions: nat)
    requires regions > 0
    ensures Cuts(Bounds(gridSize, regions), gridSize)
  {
    var bs := Bounds(gridSize, regions);
    BoundFacts(0, regions, gridSize, regions);
    forall i | 0 <= i < |bs| - 1 ensures bs[i] <= bs[i + 1] {
      BoundFacts(i, i + 1, gridSize, regions);
    }
    forall i | 0 <= i < |bs| ensures bs[i] <= gridSize {
      BoundFacts(i, i, gridSize, regions);
    }
  }

  /** The bounds start at 0, end at `gridSize` and never decrease. */
  lemma BoundFacts(j: nat, k: nat, gridSize: nat, regions: nat)
    requires regions > 0 && j <= k <= regions
    ensures Bound(0, gridSize, regions) == 0
    ensures Bound(regions, gridSize, regions) == gridSize
    ensures Bound(j, gridSize, regions) <= Bound(k, gridSize, regions) <= gridSize
  {
    MulMonoNat(j, k, gridSize);
    MulMonoNat(k, regions, gridSize);
    DivMono(j * gridSize, k * gridSize, regions);
    DivMono(k * gridSize, regions * gridSize, regions);
    MulDiv(gridSize, regions);
  }

  lemma MulMonoNat(j: nat, k: nat, n: nat)
    requires j <= k
    ensures j * n <= k * n
  {
  }

  lemma MulDiv(n: nat, d: nat)
    requires d > 0
    ensures (d * n) / d == n
  {
    IndexCoords(d, d * n, 0, n);
  }

  lemma DivMono(m: nat, n: nat, d: nat)
    requires d > 0 && m <= n
    ensures m / d <= n / d
  {
    var qm, qn := m / d, n / d;
    assert qm * d <= m;
    assert n < qn * d + d;
    if qm > qn {
      MulMonoNat(qn + 1, qm, d);
    }
  }

  /** A grid whose every row has `gridSize` cells. */
  ghost predicate Square(scans: seq<seq<seq<Pair>>>, gridSize: nat) {
    |scans| == gridSize && forall y :: 0 <= y < gridSize ==> |scans[y]| == gridSize
  }

  /** The tiles `0 .. xr` of tile row `yr` (rows `yb[yr] .. yb[yr + 1]`), left to right. */
  function TileRow(scans: seq<seq<seq<Pair>>>, gridSize: nat, xb: seq<nat>, yb: seq<nat>, yr: nat, xr: nat): seq<Pair>
    requires Square(scans, gridSize) && Cuts(xb, gridSize) && Cuts(yb, gridSize)
    requires yr + 1 < |yb| && xr < |xb|
  {
    if xr == 0 then []
    else
      TileRow(scans, gridSize, xb, yb, yr, xr - 1) + RegionPairs(scans, xb[xr - 1], xb[xr], yb[yr], yb[yr + 1])
  }

  /** The tile rows `0 .. yr`, top to bottom. */
  function TiledPairs(scans: seq<seq<seq<Pair>>>, gridSize: nat, xb: seq<nat>, yb: seq<nat>, yr: nat): seq<Pair>
    requires Square(scans, gridSize) && Cuts(xb, gridSize) && Cuts(yb, gridSize) && yr < |yb|
  {
    if yr == 0 then [] else TiledPairs(scans, gridSize, xb, yb, yr - 1) + TileRow(scans, gridSize, xb, yb, yr - 1, |xb| - 1)
  }

  /**
   * What the parallel broad phase reports with `xRegions` by `yRegions`
   * tiles: every tile in region order, nothing when either count is 0.
   */
  function ParallelPairs(scans: seq<seq<seq<Pair>>>, gridSize: nat, xRegions: nat, yRegions: nat): seq<Pair>
    requires Square(scans, gridSize)
  {
    if xRegions == 0 || yRegions == 0 then []
    else
      BoundsCut(gridSize, xRegions);
      BoundsCut(gridSize, yRegions);
      TiledPairs(scans, gridSize, Bounds(gridSize, xRegions), Bounds(gridSize, yRegions), yRegions)
  }

  /** A row scanned in two consecutive pieces is the row scanned at once. */
  lemma {:induction false} RowSplit(row: seq<seq<Pair>>, x0: nat, xm: nat, x1: nat)
    requires x0 <= xm <= x1 <= |row|
    ensures RowPairs(row, x0, x1) == RowPairs(row, x0, xm) + RowPairs(row, xm, x1)
    decreases x1
  {
    if x1 > xm {
      RowSplit(row, x0, xm, x1 - 1);
      AppendAssoc(RowPairs(row, x0, xm), RowPairs(row, xm, x1 - 1), row[x1 - 1]);
    }
  }

  /** A rectangle scanned as an upper and a lower band is the rectangle scanned at once. */
  lemma {:induction false} RegionSplitY(scans: seq<seq<seq<Pair>>>, x0: nat, x1: nat, y0: nat, ym: nat, y1: nat)
    requires y0 <= ym <= y1 <= |scans| && x0 <= x1 && forall y :: y0 <= y < y1 ==> x1 <= |scans[y]|
    ensures RegionPairs(scans, x0, x1, y0, y1) == RegionPairs(scans, x0, x1, y0, ym) + RegionPairs(scans, x0, x1, ym, y1)
    decreases y1
  {
    if y1 > ym {
      RegionSplitY(scans, x0, x1, y0, ym, y1 - 1);
      AppendAssoc(RegionPairs(scans, x0, x1, y0, ym), RegionPairs(scans, x0, x1, ym, y1 - 1), RowPairs(scans[y1 - 1], x0, x1));
    }
  }

  /** A rectangle scanned as a left and a right part holds the same pairs as the rectangle scanned at once. */
  lemma {:induction false} RegionSplitX(scans: seq<seq<seq<Pair>>>, x0: nat, xm: nat, x1: nat, y0: nat, y1: nat)
    requires y0 <= y1 <= |scans| && x0 <= xm <= x1 && forall y :: y0 <= y < y1 ==> x1 <= |scans[y]|
    ensures multiset(RegionPairs(scans, x0, x1, y0, y1)) ==
      multiset(RegionPairs(scans, x0, xm, y0, y1)) + multiset(RegionPairs(scans, xm, x1, y0, y1))
    decreases y1
  {
    if y1 > y0 {
      var ym := y1 - 1;
      RegionSplitX(scans, x0, xm, x1, y0, ym);
      RowSplit(scans[ym], x0, xm, x1);
      RegionUnfold(scans, x0, x1, y0, ym, y1);
      RegionUnfold(scans, x0, xm, y0, ym, y1);
      RegionUnfold(scans, xm, x1, y0, ym, y1);
      SplitStep(RegionPairs(scans, x0, x1, y0, ym), RegionPairs(scans, x0, xm, y0, ym), RegionPairs(scans, xm, x1, y0, ym),
        RowPairs(scans[ym], x0, x1), RowPairs(scans[ym], x0, xm), RowPairs(scans[ym], xm, x1));
    }
  }

  lemma SplitStep(whole: seq<Pair>, left: seq<Pair>, right: seq<Pair>, row: seq<Pair>, rowLeft: seq<Pair>, rowRight: seq<Pair>)
    requires multiset(whole) == multiset(left) + multiset(right) && row == rowLeft + rowRight
    ensures multiset(whole + row) == multiset(left + rowLeft) + multiset(right + rowRight)
  {
  }

  lemma {:induction false} RegionEmptyWidth(scans: seq<seq<seq<Pair>>>, y0: nat, y1: nat)
    requires y0 <= y1 <= |scans|
    ensures RegionPairs(scans, 0, 0, y0, y1) == []
    decreases y1
  {
    if y1 > y0 {
      RegionEmptyWidth(scans, y0, y1 - 1);
    }
  }

  /** Tiles `0 .. xr` of tile row `yr` hold the pairs of that band from column 0 to `xb[xr]`. */
  lemma {:induction false} TileRowCovers(scans: seq<seq<seq<Pair>>>, gridSize: nat, xb: seq<nat>, yb: seq<nat>, yr: nat, xr: nat)
    requires Square(scans, gridSize) && Cuts(xb, gridSize) && Cuts(yb, gridSize)
    requires yr + 1 < |yb| && xr < |xb|
    ensures multiset(TileRow(scans, gridSize, xb, yb, yr, xr)) == multiset(RegionPairs(scans, 0, xb[xr], yb[yr], yb[yr + 1]))
    decreases xr
  {
    CutsMono(yb, gridSize, yr, yr + 1);
    if xr > 0 {
      CutsMono(xb, gridSize, xr - 1, xr);
      TileRowCovers(scans, gridSize, xb, yb, yr, xr - 1);
      RegionSplitX(scans, 0, xb[xr - 1], xb[xr], yb[yr], yb[yr + 1]);
    } else {
      RegionEmptyWidth(scans, yb[yr], yb[yr + 1]);
    }
  }

  /** Appending the band `b0 .. b1` to the band `0 .. b0` gives the band `0 .. b1`, as multisets. */
  lemma BandStep(scans: seq<seq<seq<Pair>>>, gridSize: nat, b0: nat, b1: nat, upper: seq<Pair>, lower: seq<Pair>)
    requires Square(scans, gridSize) && b0 <= b1 <= gridSize
    requires multiset(upper) == multiset(RegionPairs(scans, 0, gridSize, 0, b0))
    requires multiset(lower) == multiset(RegionPairs(scans, 0, gridSize, b0, b1))
    ensures multiset(upper + lower) == multiset(RegionPairs(scans, 0, gridSize, 0, b1))
  {
    RegionSplitY(scans, 0, gridSize, 0, b0, b1);
  }

  /** Tile rows `0 .. yr` hold the pairs of the band from row 0 to `yb[yr]`. */
  lemma {:induction false} TiledCovers(scans: seq<seq<seq<Pair>>>, gridSize: nat, xb: seq<nat>, yb: seq<nat>, yr: nat)
    requires Square(scans, gridSize) && Cuts(xb, gridSize) && Cuts(yb, gridSize) && yr < |yb|
    ensures multiset(TiledPairs(scans, gridSize, xb, yb, yr)) == multiset(RegionPairs(scans, 0, gridSize, 0, yb[yr]))
    decreases yr
  {
    if yr > 0 {
      CutsMono(yb, gridSize, yr - 1, yr);
      TiledCovers(scans, gridSize, xb, yb, yr - 1);
      TileRowCovers(scans, gridSize, xb, yb, yr - 1, |xb| - 1);
      BandStep(scans, gridSize, yb[yr - 1], yb[yr], TiledPairs(scans, gridSize, xb, yb, yr - 1), TileRow(scans, gridSize, xb, yb, yr - 1, |xb| - 1));
    }
  }

  /**
   * With at least one region along each axis, the parallel broad phase
   * reports the same pairs as the sequential scan of the whole grid, each
   * as often; with none along either axis it reports nothing.
   */
  lemma ParallelPermutesGrid(scans: seq<seq<seq<Pair>>>, gridSize: nat, xRegions: nat, yRegions: nat)
    requires Square(scans, gridSize)
    ensures xRegions > 0 && yRegions > 0 ==>
      multiset(ParallelPairs(scans, gridSize, xRegions, yRegions)) == multiset(RegionPairs(scans, 0, gridSize, 0, gridSize))
    ensures xRegions == 0 || yRegions == 0 ==> ParallelPairs(scans, gridSize, xRegions, yRegions) == []
  {
    if xRegions > 0 && yRegions > 0 {
      BoundsCut(gridSize, xRegions);
      BoundsCut(gridSize, yRegions);
      TiledCovers(scans, gridSize, Bounds(gridSize, xRegions), Bounds(gridSize, yRegions), yRegions);
    }
  }

  /** Every column (or row) below `gridSize` lies in exactly one region of a tiling. */
  lemma {:induction false} RegionOf(bs: seq<nat>, gridSize: nat, x: nat, k: nat) returns (r: nat)
    requires Cuts(bs, gridSize) && k < |bs| && x < bs[k]
    ensures r < k && bs[r] <= x < bs[r + 1]
    ensures forall s :: 0 <= s < |bs| - 1 && bs[s] <= x < bs[s + 1] ==> s == r
    decreases k
  {
    if x < bs[k - 1] {
      r := RegionOf(bs, gridSize, x, k - 1);
    } else {
      r := k - 1;
    }
    forall s | 0 <= s < |bs| - 1 && bs[s] <= x < bs[s + 1] ensures s == r {
      if s < r {
        CutsMono(bs, gridSize, s + 1, r);
      } else if s > r {
        CutsMono(bs, gridSize, r + 1, s);
      }
    }
  }

  lemma ScansSquare(grid: Grid, gridSize: nat)
    requires |grid| == gridSize * gridSize
    ensures Square(CellScans(grid, gridSize), gridSize)
  {
  }

  /** One tile row: `for x_region in 0..x_regions`, each tile scanned and appended. */
  method ScanTileRow(grid: Grid, gridSize: nat, xRegions: nat, yRegions: nat, yr: nat, collisions: seq<Pair>) returns (r: seq<Pair>)
    requires |grid| == gridSize * gridSize && 0 < xRegions && yr < yRegions
    requires Square(CellScans(grid, gridSize), gridSize)
    requires Cuts(Bounds(gridSize, xRegions), gridSize) && Cuts(Bounds(gridSize, yRegions), gridSize)
    ensures r == collisions + TileRow(CellScans(grid, gridSize), gridSize, Bounds(gridSize, xRegions), Bounds(gridSize, yRegions), yr, xRegions)
  {
    ghost var scans := CellScans(grid, gridSize);
    ghost var xb, yb := Bounds(gridSize, xRegions), Bounds(gridSize, yRegions);
    var startY := (yr * gridSize) / yRegions;
    var endY := ((yr + 1) * gridSize) / yRegions;
    assert startY == yb[yr] && endY == yb[yr + 1];
    r := collisions;
    var xr := 0;
    while xr < xRegions
      invariant xr <= xRegions
      invariant r == collisions + TileRow(scans, gridSize, xb, yb, yr, xr)
    {
      var startX := (xr * gridSize) / xRegions;
      var endX := ((xr + 1) * gridSize) / xRegions;
      assert startX == xb[xr] && endX == xb[xr + 1];
      var tile := ScanRegion(grid, gridSize, startX, endX, startY, endY);
      AppendAssoc(collisions, TileRow(scans, gridSize, xb, yb, yr, xr), tile);
      r := r + tile;
      xr := xr + 1;
    }
  }

  /**
   * `for y_region in 0..y_regions { for x_region in 0..x_regions { ... } }`
   * followed by `all_collisions.extend(result)` for every tile, in the order
   * the tiles were handed out.
   */
  method ScanParallel(grid: Grid, gridSize: nat, xRegions: nat, yRegions: nat) returns (all: seq<Pair>)
    requires |grid| == gridSize * gridSize
    ensures Square(CellScans(grid, gridSize), gridSize)
    ensures all == ParallelPairs(CellScans(grid, gridSize), gridSize, xRegions, yRegions)
  {
    ScansSquare(grid, gridSize);
    all := [];
    if xRegions > 0 && yRegions > 0 {
      BoundsCut(gridSize, xRegions);
      BoundsCut(gridSize, yRegions);
      ghost var scans := CellScans(grid, gridSize);
      ghost var xb, yb := Bounds(gridSize, xRegions), Bounds(gridSize, yRegions);
      var yr := 0;
      while yr < yRegions
        invariant yr <= yRegions
        invariant all == TiledPairs(scans, gridSize, xb, yb, yr)
      {
        all := ScanTileRow(grid, gridSize, xRegions, yRegions, yr, all);
        yr := yr + 1;
      }
    }
    // With no region along one axis no tile is handed out and `all` stays empty.
  }

  /**
   * With at least one region along each axis, the parallel broad phase over
   * a bucketed grid reports only pairs `i < j < len`, never the same
   * unordered pair twice, and a pair exactly when the two particles were
   * bucketed into touching cells.
   */
  lemma ParallelPairsSound(grid: Grid, gridSize: nat, coords: seq<CellCoord>, xRegions: nat, yRegions: nat)
    requires BucketedFrom(grid, gridSize, coords) && |grid| == gridSize * gridSize && 0 < xRegions && 0 < yRegions
    ensures Square(CellScans(grid, gridSize), gridSize)
    ensures AllIndexable(ParallelPairs(CellScans(grid, gridSize), gridSize, xRegions, yRegions), |coords|)
    ensures NoRepeatedPair(ParallelPairs(CellScans(grid, gridSize), gridSize, xRegions, yRegions))
    ensures forall a: nat, b: nat :: (a, b) in ParallelPairs(CellScans(grid, gridSize), gridSize, xRegions, yRegions) <==> a < b && Touching(coords, gridSize, a, b)
  {
    ScansSquare(grid, gridSize);
    var scans := CellScans(grid, gridSize);
    var ps := ParallelPairs(scans, gridSize, xRegions, yRegions);
    var whole := GridPairs(grid, gridSize);
    ParallelPermutesGrid(scans, gridSize, xRegions, yRegions);
    assert multiset(ps) == multiset(whole);
    GridPairsSound(grid, gridSize, coords);
    PermutedIndexable(ps, whole, |coords|);
    forall a: nat, b: nat | a < b ensures multiset(ps)[(a, b)] == if Touching(coords, gridSize, a, b) then 1 else 0 {
      GridTouch(grid, gridSize, coords, a, b);
    }
    TouchCountsSound(ps, coords, gridSize);
  }
}
