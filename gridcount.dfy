/**
 * What the uniform-grid scan reports. Every particle is bucketed into the
 * cell `CellIndex` names; the scan pairs a particle with the later ones of
 * its cell and with the particles of its four forward neighbours. The
 * lemmas here count how often a pair `(a, b)` with `a < b` occurs: once
 * when the two cells touch (the same cell, or adjacent in any of the eight
 * directions), never otherwise, and never when either particle fell off
 * the grid.
 */
module GridCount {
  import opened Pairs
  import opened Wrappers
  import opened UniformGrid

  /** Particle `q` is bucketed into cell `c`. */
  predicate Here(coords: seq<CellCoord>, gridSize: nat, q: nat, c: nat) {
    q < |coords| && CellIndex(gridSize, coords[q]) == c
  }

  /** Particle `q` lands inside the grid, whose cells are `0 .. gridSize * gridSize`. */
  predicate Bucketed(coords: seq<CellCoord>, gridSize: nat, q: nat) {
    q < |coords| && CellIndex(gridSize, coords[q]) < gridSize * gridSize
  }

  /** How many of the first `k` forward offsets of cell `(x, y)` lead to cell `d`. */
  function OffsetsTo(gridSize: nat, x: nat, y: nat, d: nat, k: nat): (m: nat)
    requires k <= 4
    ensures m <= k
  {
    if k == 0 then 0 else OffsetsTo(gridSize, x, y, d, k - 1) + (if Neighbour(gridSize, x, y, k - 1) == Some(d) then 1 else 0)
  }

  /** How often a particle of cell `(x, y)` meets particle `q` through the first `k` neighbours. */
  function Meets(coords: seq<CellCoord>, gridSize: nat, x: nat, y: nat, q: nat, k: nat): nat
    requires k <= 4
  {
    if q < |coords| then OffsetsTo(gridSize, x, y, CellIndex(gridSize, coords[q]), k) else 0
  }

  // ---------------------------------------------------------------------
  // Cell indices and coordinates
  // ---------------------------------------------------------------------

  lemma MulAtLeast(k: int, gridSize: nat)
    requires k >= 1
    ensures k * gridSize >= gridSize
  {
  }

  /** Cell `y * gridSize + x` with `x < gridSize` has column `x` and row `y`, and no other index does. */
  lemma IndexCoords(gridSize: nat, c: nat, x: nat, y: nat)
    requires x < gridSize
    ensures c == y * gridSize + x <==> c % gridSize == x && c / gridSize == y
  {
    var q, r := c / gridSize, c % gridSize;
    assert c == q * gridSize + r;
    if c == y * gridSize + x {
      assert (y - q) * gridSize == r - x;
      if y - q >= 1 {
        MulAtLeast(y - q, gridSize);
      } else if q - y >= 1 {
        MulAtLeast(q - y, gridSize);
      }
    }
  }

  /** A cell below `gridSize * gridSize` has its row below `gridSize`. */
  lemma RowInGrid(gridSize: nat, c: nat)
    requires c < gridSize * gridSize
    ensures gridSize > 0 && c / gridSize < gridSize
  {
  }

  /** A forward neighbour lies one column right, or one row down and at most one column across. */
  predicate Forward(dx: int, dy: int) {
    (dy == 0 && dx == 1) || (dy == 1 && -1 <= dx <= 1)
  }

  /** Offset `k` of cell `(x, y)` leads to cell `(xd, yd)` exactly when the coordinates differ by it. */
  lemma NeighbourIsCell(gridSize: nat, x: nat, y: nat, k: nat, xd: nat, yd: nat)
    requires k < 4 && xd < gridSize && yd < gridSize
    ensures Neighbour(gridSize, x, y, k) == Some(yd * gridSize + xd) <==> x + Offsets[k].0 == xd && y + Offsets[k].1 == yd
  {
    var nx, ny := x + Offsets[k].0, y + Offsets[k].1;
    if 0 <= nx < gridSize && 0 <= ny < gridSize {
      IndexCoords(gridSize, ny * gridSize + nx, nx, ny);
      IndexCoords(gridSize, yd * gridSize + xd, xd, yd);
    }
  }

  /** The offsets of cell `(x, y)` reach cell `(xd, yd)` exactly once when it is a forward neighbour. */
  lemma OffsetsToCell(gridSize: nat, x: nat, y: nat, xd: nat, yd: nat)
    requires xd < gridSize && yd < gridSize
    ensures OffsetsTo(gridSize, x, y, yd * gridSize + xd, 4) == if Forward(xd - x, yd - y) then 1 else 0
  {
    var d := yd * gridSize + xd;
    OffsetsToFour(gridSize, x, y, d);
    NeighbourIsCell(gridSize, x, y, 0, xd, yd);
    NeighbourIsCell(gridSize, x, y, 1, xd, yd);
    NeighbourIsCell(gridSize, x, y, 2, xd, yd);
    NeighbourIsCell(gridSize, x, y, 3, xd, yd);
    assert Offsets[0] == (1, 0) && Offsets[1] == (1, 1) && Offsets[2] == (0, 1) && Offsets[3] == (-1, 1);
  }

  /** Whether offset `k` of cell `(x, y)` leads to cell `d`, as a count. */
  function Hit(gridSize: nat, x: nat, y: nat, d: nat, k: nat): nat
    requires k < 4
  {
    if Neighbour(gridSize, x, y, k) == Some(d) then 1 else 0
  }

  lemma OffsetsToFour(gridSize: nat, x: nat, y: nat, d: nat)
    ensures OffsetsTo(gridSize, x, y, d, 4) ==
      Hit(gridSize, x, y, d, 0) + Hit(gridSize, x, y, d, 1) + Hit(gridSize, x, y, d, 2) + Hit(gridSize, x, y, d, 3)
  {
    assert OffsetsTo(gridSize, x, y, d, 2) == Hit(gridSize, x, y, d, 0) + Hit(gridSize, x, y, d, 1);
  }

  /** No offset leads outside the grid. */
  lemma {:induction false} OffsetsToOutside(gridSize: nat, x: nat, y: nat, d: nat, k: nat)
    requires k <= 4 && d >= gridSize * gridSize
    ensures OffsetsTo(gridSize, x, y, d, k) == 0
  {
    if k > 0 {
      OffsetsToOutside(gridSize, x, y, d, k - 1);
    }
  }

  // ---------------------------------------------------------------------
  // Multiplicities inside one cell
  // ---------------------------------------------------------------------

  /** A strictly increasing list holds each value at most once. */
  lemma {:induction false} IncreasingCount(s: seq<nat>, q: nat)
    requires StrictlyIncreasing(s)
    ensures multiset(s)[q] == if q in s then 1 else 0
  {
    if s != [] {
      assert s == [s[0]] + s[1..];
      assert StrictlyIncreasing(s[1..]) by {
        forall p, r | 0 <= p < r < |s[1..]| ensures s[1..][p] < s[1..][r] {
          assert s[1..][p] == s[p + 1] && s[1..][r] == s[r + 1];
        }
      }
      IncreasingCount(s[1..], q);
      assert s[0] !in s[1..] by {
        forall r | 0 <= r < |s[1..]| ensures s[1..][r] != s[0] {
          assert s[1..][r] == s[r + 1];
        }
      }
    }
  }

  /** In a bucketed grid, cell `d` holds particle `q` once when `q` was bucketed there, else not at all. */
  lemma CellCount(grid: Grid, gridSize: nat, coords: seq<CellCoord>, d: nat, q: nat)
    requires BucketedFrom(grid, gridSize, coords) && d < |grid|
    ensures multiset(grid[d])[q] == if Here(coords, gridSize, q, d) then 1 else 0
  {
    IncreasingCount(grid[d], q);
  }

  /** A particle of a strictly increasing list does not occur before its position. */
  lemma NotBefore(s: seq<nat>, i: nat)
    requires StrictlyIncreasing(s) && i < |s|
    ensures s[i] !in s[..i]
  {
    forall r | 0 <= r < i ensures s[..i][r] != s[i] {
      assert s[..i][r] == s[r];
    }
  }

  /** The neighbour list at offset `k` holds particle `q` once when `q` was bucketed into that neighbour. */
  lemma NeighbourListCount(grid: Grid, gridSize: nat, coords: seq<CellCoord>, x: nat, y: nat, k: nat, q: nat)
    requires BucketedFrom(grid, gridSize, coords) && |grid| == gridSize * gridSize && k < 4
    ensures multiset(NeighbourList(grid, gridSize, x, y, k))[q] ==
      if q < |coords| && Neighbour(gridSize, x, y, k) == Some(CellIndex(gridSize, coords[q])) then 1 else 0
  {
    match Neighbour(gridSize, x, y, k)
    case Some(d) => CellCount(grid, gridSize, coords, d, q);
    case None =>
  }

  /** Particle `p` of cell `(x, y)` against the first `k` neighbours yields `(a, b)` once per offset reaching the other. */
  lemma {:induction false} NeighbourPairsCount(grid: Grid, gridSize: nat, coords: seq<CellCoord>, x: nat, y: nat, p: nat, k: nat, a: nat, b: nat)
    requires BucketedFrom(grid, gridSize, coords) && |grid| == gridSize * gridSize && k <= 4 && a < b
    ensures multiset(NeighbourPairs(grid, gridSize, x, y, p, k))[(a, b)] ==
      (if p == a then Meets(coords, gridSize, x, y, b, k) else 0) + (if p == b then Meets(coords, gridSize, x, y, a, k) else 0)
  {
    if k > 0 {
      NeighbourPairsCount(grid, gridSize, coords, x, y, p, k - 1, a, b);
      PairsWithCount(p, NeighbourList(grid, gridSize, x, y, k - 1), a, b);
      NeighbourListCount(grid, gridSize, coords, x, y, k - 1, a);
      NeighbourListCount(grid, gridSize, coords, x, y, k - 1, b);
    }
  }

  /** The particles after position `i` of a strictly increasing cell are increasing and above the `i`-th. */
  lemma LaterAbove(s: seq<nat>, i: nat, later: seq<nat>)
    requires StrictlyIncreasing(s) && i < |s| && later == s[i + 1..]
    ensures StrictlyIncreasing(later)
    ensures forall r :: 0 <= r < |later| ==> s[i] < later[r]
  {
    assert forall r :: 0 <= r < |later| ==> later[r] == s[i + 1 + r];
  }

  /**
   * Particle `i` of cell `(x, y)`, scanned against the later particles of
   * its cell and its neighbours, yields `(a, b)` once if it is `a` and `b`
   * shares the cell, plus once per offset reaching the other particle.
   */
  lemma ParticlePairsCount(grid: Grid, gridSize: nat, coords: seq<CellCoord>, x: nat, y: nat, i: nat, a: nat, b: nat)
    requires BucketedFrom(grid, gridSize, coords) && |grid| == gridSize * gridSize && x < gridSize && y < gridSize && a < b
    requires i < |Cell(grid, gridSize, x, y)|
    ensures multiset(ParticlePairs(grid, gridSize, x, y, i))[(a, b)] ==
      (if Cell(grid, gridSize, x, y)[i] == a then (if Here(coords, gridSize, b, y * gridSize + x) then 1 else 0) + Meets(coords, gridSize, x, y, b, 4) else 0) +
      (if Cell(grid, gridSize, x, y)[i] == b then Meets(coords, gridSize, x, y, a, 4) else 0)
  {
    CellInGrid(gridSize, x, y);
    var c := y * gridSize + x;
    var cell := Cell(grid, gridSize, x, y);
    assert cell == grid[c];
    var later := cell[i + 1..];
    PairsWithCount(cell[i], later, a, b);
    NeighbourPairsCount(grid, gridSize, coords, x, y, cell[i], 4, a, b);
    LaterAbove(cell, i, later);
    IncreasingCount(later, a);
    IncreasingCount(later, b);
    if cell[i] == a {
      CellCount(grid, gridSize, coords, c, b);
      IncreasingCount(cell, b);
      if b in cell {
        var j :| 0 <= j < |cell| && cell[j] == b;
        assert j > i;
        assert later[j - i - 1] == b;
      }
    }
  }

  /** The concatenation of a list of pair lists, in order. */
  function Concat(parts: seq<seq<Pair>>): seq<Pair> {
    if parts == [] then [] else Concat(parts[..|parts| - 1]) + parts[|parts| - 1]
  }

  /** The pair lists of the first `i` particles of cell `(x, y)`. */
  function Runs(grid: Grid, gridSize: nat, x: nat, y: nat, i: nat): (runs: seq<seq<Pair>>)
    requires |grid| == gridSize * gridSize && x < gridSize && y < gridSize
    requires i <= |Cell(grid, gridSize, x, y)|
    ensures |runs| == i
    ensures forall j :: 0 <= j < i ==> runs[j] == ParticlePairs(grid, gridSize, x, y, j)
  {
    if i == 0 then [] else Runs(grid, gridSize, x, y, i - 1) + [ParticlePairs(grid, gridSize, x, y, i - 1)]
  }

  /** The scan of the first `i` particles is the concatenation of their runs. */
  lemma {:induction false} CellPairsUpToRuns(grid: Grid, gridSize: nat, x: nat, y: nat, i: nat)
    requires |grid| == gridSize * gridSize && x < gridSize && y < gridSize
    requires i <= |Cell(grid, gridSize, x, y)|
    ensures CellPairsUpTo(grid, gridSize, x, y, i) == Concat(Runs(grid, gridSize, x, y, i))
  {
    if i > 0 {
      CellPairsUpToRuns(grid, gridSize, x, y, i - 1);
      SnocPrefix(Runs(grid, gridSize, x, y, i - 1), ParticlePairs(grid, gridSize, x, y, i - 1));
    }
  }

  /** No value occurs twice. */
  predicate NoRepeat(s: seq<nat>) {
    forall p, q :: 0 <= p < q < |s| ==> s[p] != s[q]
  }

  /** Splitting the last element off a list without repeats. */
  lemma SnocFacts(s: seq<nat>, n: nat)
    requires NoRepeat(s) && n + 1 == |s|
    ensures NoRepeat(s[..n])
    ensures s[n] !in s[..n]
    ensures forall q :: q in s <==> q in s[..n] || q == s[n]
  {
    assert s == s[..n] + [s[n]];
  }

  /**
   * When the run of each particle of a list without repeats yields
   * `(a, b)` `na` times if the particle is `a`, `nb` times if it is `b` and
   * never otherwise, all runs together yield it as often as `a` and `b`
   * are in the list.
   */
  lemma {:induction false} RunsCount(parts: seq<seq<Pair>>, cell: seq<nat>, a: nat, b: nat, na: nat, nb: nat)
    requires |parts| == |cell| && a < b && NoRepeat(cell)
    requires forall j :: 0 <= j < |cell| ==>
      multiset(parts[j])[(a, b)] == (if cell[j] == a then na else 0) + (if cell[j] == b then nb else 0)
    ensures multiset(Concat(parts))[(a, b)] == (if a in cell then na else 0) + (if b in cell then nb else 0)
  {
    if parts != [] {
      var n := |parts| - 1;
      SnocFacts(cell, n);
      RunsCount(parts[..n], cell[..n], a, b, na, nb);
      assert multiset(parts[n])[(a, b)] == (if cell[n] == a then na else 0) + (if cell[n] == b then nb else 0);
    }
  }

  lemma ConcatSnoc(parts: seq<seq<Pair>>, last: seq<Pair>)
    ensures Concat(parts + [last]) == Concat(parts) + last
  {
    assert (parts + [last])[..|parts|] == parts;
  }

  /** One more part of a prefix concatenates one more sequence. */
  lemma ConcatPrefixStep(parts: seq<seq<Pair>>, c: nat, next: nat)
    requires c < |parts| && next == c + 1
    ensures Concat(parts[..next]) == Concat(parts[..c]) + parts[c]
  {
    assert parts[..next] == parts[..c] + [parts[c]];
    ConcatSnoc(parts[..c], parts[c]);
  }

  lemma SnocPrefix(s: seq<seq<Pair>>, last: seq<Pair>)
    ensures (s + [last])[..|s|] == s && (s + [last])[|s|] == last
  {
  }

  /** Cell `(x, y)` yields `(a, b)` once if both lie in it, plus once per offset from the cell of one to the cell of the other. */
  lemma CellPairsCount(grid: Grid, gridSize: nat, coords: seq<CellCoord>, x: nat, y: nat, a: nat, b: nat)
    requires BucketedFrom(grid, gridSize, coords) && |grid| == gridSize * gridSize && x < gridSize && y < gridSize && a < b
    ensures multiset(CellPairs(grid, gridSize, x, y))[(a, b)] ==
      (if Here(coords, gridSize, a, y * gridSize + x) then (if Here(coords, gridSize, b, y * gridSize + x) then 1 else 0) + Meets(coords, gridSize, x, y, b, 4) else 0) +
      (if Here(coords, gridSize, b, y * gridSize + x) then Meets(coords, gridSize, x, y, a, 4) else 0)
  {
    var cell := Cell(grid, gridSize, x, y);
    var c := y * gridSize + x;
    CellInGrid(gridSize, x, y);
    assert cell == grid[c];
    var na := (if Here(coords, gridSize, b, c) then 1 else 0) + Meets(coords, gridSize, x, y, b, 4);
    var nb := Meets(coords, gridSize, x, y, a, 4);
    forall j | 0 <= j < |cell|
      ensures multiset(ParticlePairs(grid, gridSize, x, y, j))[(a, b)] == (if cell[j] == a then na else 0) + (if cell[j] == b then nb else 0)
    {
      ParticlePairsCount(grid, gridSize, coords, x, y, j, a, b);
    }
    assert NoRepeat(cell);
    CellRunsCount(grid, gridSize, x, y, a, b, na, nb);
  }

  /** The per-particle counts of cell `(x, y)` summed over its particles. */
  lemma CellRunsCount(grid: Grid, gridSize: nat, x: nat, y: nat, a: nat, b: nat, na: nat, nb: nat)
    requires |grid| == gridSize * gridSize && x < gridSize && y < gridSize && a < b
    requires NoRepeat(Cell(grid, gridSize, x, y))
    requires forall j :: 0 <= j < |Cell(grid, gridSize, x, y)| ==>
      multiset(ParticlePairs(grid, gridSize, x, y, j))[(a, b)] ==
        (if Cell(grid, gridSize, x, y)[j] == a then na else 0) + (if Cell(grid, gridSize, x, y)[j] == b then nb else 0)
    ensures multiset(CellPairs(grid, gridSize, x, y))[(a, b)] ==
      (if a in Cell(grid, gridSize, x, y) then na else 0) + (if b in Cell(grid, gridSize, x, y) then nb else 0)
  {
    var cell := Cell(grid, gridSize, x, y);
    var runs := Runs(grid, gridSize, x, y, |cell|);
    CellPairsUpToRuns(grid, gridSize, x, y, |cell|);
    RunsCount(runs, cell, a, b, na, nb);
  }

  // ---------------------------------------------------------------------
  // Rows, rectangles and the whole grid
  // ---------------------------------------------------------------------

  /** The cell a particle is bucketed into. */
  function CellOf(coords: seq<CellCoord>, gridSize: nat, q: nat): nat
    requires q < |coords|
  {
    CellIndex(gridSize, coords[q])
  }

  /** Cell `c` has its column in `x0 .. x1` and its row in `y0 .. y1`. */
  predicate InRect(gridSize: nat, c: nat, x0: nat, x1: nat, y0: nat, y1: nat) {
    gridSize > 0 && x0 <= c % gridSize < x1 && y0 <= c / gridSize < y1
  }

  /** How often the scan of `a`'s cell yields `(a, b)`: once when `b` shares the cell, plus once per offset reaching `b`'s cell. */
  function Fwd(coords: seq<CellCoord>, gridSize: nat, a: nat, b: nat): nat {
    if Bucketed(coords, gridSize, a) then
      var ca := CellOf(coords, gridSize, a);
      RowInGrid(gridSize, ca);
      (if Here(coords, gridSize, b, ca) then 1 else 0) + Meets(coords, gridSize, ca % gridSize, ca / gridSize, b, 4)
    else 0
  }

  /** How often the scan of `b`'s cell yields `(a, b)`: once per offset reaching `a`'s cell. */
  function Bwd(coords: seq<CellCoord>, gridSize: nat, a: nat, b: nat): nat {
    if Bucketed(coords, gridSize, b) then
      var cb := CellOf(coords, gridSize, b);
      RowInGrid(gridSize, cb);
      Meets(coords, gridSize, cb % gridSize, cb / gridSize, a, 4)
    else 0
  }

  /** The column and row of the cell particle `q` is bucketed into, none when it fell off the grid. */
  function Spot(coords: seq<CellCoord>, gridSize: nat, q: nat): Option<(nat, nat)> {
    if Bucketed(coords, gridSize, q) then
      var c := CellOf(coords, gridSize, q);
      Some((c % gridSize, c / gridSize))
    else None
  }

  /** A spot inside the rectangle `x0 .. x1` by `y0 .. y1`. */
  predicate InBox(s: Option<(nat, nat)>, x0: nat, x1: nat, y0: nat, y1: nat) {
    s.Some? && x0 <= s.value.0 < x1 && y0 <= s.value.1 < y1
  }

  /**
   * How often a scan of the rectangle `x0 .. x1` by `y0 .. y1` yields
   * `(a, b)`, when `a` and `b` sit at spots `sa` and `sb` (`Spot`) and the
   * scan of `a`'s cell yields the pair `fa` times and that of `b`'s cell
   * `fb` times (`Fwd` and `Bwd`). Kept apart from the particles so that
   * sums over cells stay plain arithmetic.
   */
  function RectCount(sa: Option<(nat, nat)>, sb: Option<(nat, nat)>, fa: nat, fb: nat, x0: nat, x1: nat, y0: nat, y1: nat): nat {
    (if InBox(sa, x0, x1, y0, y1) then fa else 0) + (if InBox(sb, x0, x1, y0, y1) then fb else 0)
  }

  /** Particle `q` lies in cell `(x, y)` exactly when it is bucketed and its cell has column `x` and row `y`. */
  lemma HereAt(coords: seq<CellCoord>, gridSize: nat, q: nat, x: nat, y: nat)
    requires x < gridSize && y < gridSize
    ensures Here(coords, gridSize, q, y * gridSize + x) <==> InBox(Spot(coords, gridSize, q), x, x + 1, y, y + 1)
  {
    CellInGrid(gridSize, x, y);
    if q < |coords| {
      IndexCoords(gridSize, CellOf(coords, gridSize, q), x, y);
    }
  }

  /** The scan of one cell yields `(a, b)` as the one-cell rectangle counts. */
  lemma CellRectCount(grid: Grid, gridSize: nat, coords: seq<CellCoord>, x: nat, y: nat, a: nat, b: nat)
    requires BucketedFrom(grid, gridSize, coords) && |grid| == gridSize * gridSize && x < gridSize && y < gridSize && a < b
    ensures multiset(CellPairs(grid, gridSize, x, y))[(a, b)] ==
      RectCount(Spot(coords, gridSize, a), Spot(coords, gridSize, b), Fwd(coords, gridSize, a, b), Bwd(coords, gridSize, a, b), x, x + 1, y, y + 1)
  {
    CellPairsCount(grid, gridSize, coords, x, y, a, b);
    CellFormulaRect(coords, gridSize, x, y, a, b);
  }

  lemma CellFormulaRect(coords: seq<CellCoord>, gridSize: nat, x: nat, y: nat, a: nat, b: nat)
    requires x < gridSize && y < gridSize
    ensures RectCount(Spot(coords, gridSize, a), Spot(coords, gridSize, b), Fwd(coords, gridSize, a, b), Bwd(coords, gridSize, a, b), x, x + 1, y, y + 1) ==
      (if Here(coords, gridSize, a, y * gridSize + x) then (if Here(coords, gridSize, b, y * gridSize + x) then 1 else 0) + Meets(coords, gridSize, x, y, b, 4) else 0) +
      (if Here(coords, gridSize, b, y * gridSize + x) then Meets(coords, gridSize, x, y, a, 4) else 0)
  {
    HereAt(coords, gridSize, a, x, y);
    HereAt(coords, gridSize, b, x, y);
  }

  /** Counting over adjacent column ranges adds up. */
  lemma RectSplitX(sa: Option<(nat, nat)>, sb: Option<(nat, nat)>, fa: nat, fb: nat, x0: nat, xm: nat, x1: nat, y0: nat, y1: nat)
    requires x0 <= xm <= x1
    ensures RectCount(sa, sb, fa, fb, x0, x1, y0, y1) ==
      RectCount(sa, sb, fa, fb, x0, xm, y0, y1) + RectCount(sa, sb, fa, fb, xm, x1, y0, y1)
  {
  }

  /** Counting over adjacent row ranges adds up. */
  lemma RectSplitY(sa: Option<(nat, nat)>, sb: Option<(nat, nat)>, fa: nat, fb: nat, x0: nat, x1: nat, y0: nat, ym: nat, y1: nat)
    requires y0 <= ym <= y1
    ensures RectCount(sa, sb, fa, fb, x0, x1, y0, y1) ==
      RectCount(sa, sb, fa, fb, x0, x1, y0, ym) + RectCount(sa, sb, fa, fb, x0, x1, ym, y1)
  {
  }

  /** Every cell's scan yields `p` as the one-cell rectangle of that cell counts. */
  ghost predicate ScansCount(scans: seq<seq<seq<Pair>>>, p: Pair, sa: Option<(nat, nat)>, sb: Option<(nat, nat)>, fa: nat, fb: nat) {
    forall y, x :: 0 <= y < |scans| && 0 <= x < |scans[y]| ==>
      multiset(scans[y][x])[p] == RectCount(sa, sb, fa, fb, x, x + 1, y, y + 1)
  }

  /** The per-cell scans of a bucketed grid count pairs cell by cell. */
  lemma AllScansCount(grid: Grid, gridSize: nat, coords: seq<CellCoord>, a: nat, b: nat)
    requires BucketedFrom(grid, gridSize, coords) && |grid| == gridSize * gridSize && a < b
    ensures ScansCount(CellScans(grid, gridSize), (a, b), Spot(coords, gridSize, a), Spot(coords, gridSize, b), Fwd(coords, gridSize, a, b), Bwd(coords, gridSize, a, b))
  {
    var scans := CellScans(grid, gridSize);
    forall y, x | 0 <= y < |scans| && 0 <= x < |scans[y]|
      ensures multiset(scans[y][x])[(a, b)] ==
        RectCount(Spot(coords, gridSize, a), Spot(coords, gridSize, b), Fwd(coords, gridSize, a, b), Bwd(coords, gridSize, a, b), x, x + 1, y, y + 1)
    {
      ScanAt(grid, gridSize, x, y);
      CellRectCount(grid, gridSize, coords, x, y, a, b);
    }
  }

  /** Occurrences of `p` add up over a concatenation. */
  lemma CountAppend(s: seq<Pair>, t: seq<Pair>, p: Pair)
    ensures multiset(s + t)[p] == multiset(s)[p] + multiset(t)[p]
  {
  }

  /** The scan of cell `(x, y)` yields `p` as its one-cell rectangle `x .. xn` by `y .. yn` counts. */
  lemma ScanCount(scans: seq<seq<seq<Pair>>>, x: nat, xn: nat, y: nat, yn: nat, p: Pair, sa: Option<(nat, nat)>, sb: Option<(nat, nat)>, fa: nat, fb: nat)
    requires ScansCount(scans, p, sa, sb, fa, fb)
    requires y < |scans| && x < |scans[y]| && xn == x + 1 && yn == y + 1
    ensures multiset(scans[y][x])[p] == RectCount(sa, sb, fa, fb, x, xn, y, yn)
  {
  }

  /** Adding the last cell of a row range adds that cell's count. */
  lemma RowCountStep(scans: seq<seq<seq<Pair>>>, y: nat, yn: nat, x0: nat, xm: nat, x1: nat, p: Pair, sa: Option<(nat, nat)>, sb: Option<(nat, nat)>, fa: nat, fb: nat)
    requires ScansCount(scans, p, sa, sb, fa, fb)
    requires y < |scans| && yn == y + 1 && x0 <= xm && xm + 1 == x1 <= |scans[y]|
    requires multiset(RowPairs(scans[y], x0, xm))[p] == RectCount(sa, sb, fa, fb, x0, xm, y, yn)
    ensures multiset(RowPairs(scans[y], x0, x1))[p] == RectCount(sa, sb, fa, fb, x0, x1, y, yn)
  {
    ScanCount(scans, xm, x1, y, yn, p, sa, sb, fa, fb);
    RectSplitX(sa, sb, fa, fb, x0, xm, x1, y, yn);
    RowUnfold(scans[y], x0, xm, x1);
    CountAppend(RowPairs(scans[y], x0, xm), scans[y][xm], p);
  }

  /** The scan of cells `x0 .. x1` of row `y` yields `p` as those cells count together. */
  lemma {:induction false} RowCount(scans: seq<seq<seq<Pair>>>, y: nat, yn: nat, x0: nat, x1: nat, p: Pair, sa: Option<(nat, nat)>, sb: Option<(nat, nat)>, fa: nat, fb: nat)
    requires ScansCount(scans, p, sa, sb, fa, fb)
    requires y < |scans| && yn == y + 1 && x0 <= x1 <= |scans[y]|
    ensures multiset(RowPairs(scans[y], x0, x1))[p] == RectCount(sa, sb, fa, fb, x0, x1, y, yn)
    decreases x1
  {
    if x1 > x0 {
      var xm := x1 - 1;
      RowCount(scans, y, yn, x0, xm, p, sa, sb, fa, fb);
      RowCountStep(scans, y, yn, x0, xm, x1, p, sa, sb, fa, fb);
    }
  }

  /** Adding the last row of a rectangle adds that row's count. */
  lemma RegionCountStep(scans: seq<seq<seq<Pair>>>, x0: nat, x1: nat, y0: nat, ym: nat, y1: nat, p: Pair, sa: Option<(nat, nat)>, sb: Option<(nat, nat)>, fa: nat, fb: nat)
    requires ScansCount(scans, p, sa, sb, fa, fb)
    requires y0 <= ym && ym + 1 == y1 <= |scans| && x0 <= x1 && forall y :: y0 <= y < y1 ==> x1 <= |scans[y]|
    requires multiset(RegionPairs(scans, x0, x1, y0, ym))[p] == RectCount(sa, sb, fa, fb, x0, x1, y0, ym)
    ensures multiset(RegionPairs(scans, x0, x1, y0, y1))[p] == RectCount(sa, sb, fa, fb, x0, x1, y0, y1)
  {
    RowCount(scans, ym, y1, x0, x1, p, sa, sb, fa, fb);
    RectSplitY(sa, sb, fa, fb, x0, x1, y0, ym, y1);
    RegionUnfold(scans, x0, x1, y0, ym, y1);
    CountAppend(RegionPairs(scans, x0, x1, y0, ym), RowPairs(scans[ym], x0, x1), p);
  }

  /** The scan of the rectangle `x0 .. x1` by `y0 .. y1` yields `p` as that rectangle counts. */
  lemma {:induction false} RegionCount(scans: seq<seq<seq<Pair>>>, x0: nat, x1: nat, y0: nat, y1: nat, p: Pair, sa: Option<(nat, nat)>, sb: Option<(nat, nat)>, fa: nat, fb: nat)
    requires ScansCount(scans, p, sa, sb, fa, fb)
    requires y0 <= y1 <= |scans| && x0 <= x1 && forall y :: y0 <= y < y1 ==> x1 <= |scans[y]|
    ensures multiset(RegionPairs(scans, x0, x1, y0, y1))[p] == RectCount(sa, sb, fa, fb, x0, x1, y0, y1)
    decreases y1
  {
    if y1 > y0 {
      var ym := y1 - 1;
      RegionCount(scans, x0, x1, y0, ym, p, sa, sb, fa, fb);
      RegionCountStep(scans, x0, x1, y0, ym, y1, p, sa, sb, fa, fb);
    }
  }
}

module GridAdjacency {
  import opened Pairs
  import opened Wrappers
  import opened UniformGrid
  import opened GridCount

  /** Two cells touch: the same cell, or neighbours in any of the eight directions. */
  predicate Adjacent(s: (nat, nat), t: (nat, nat)) {
    -1 <= s.0 - t.0 <= 1 && -1 <= s.1 - t.1 <= 1
  }

  /** Particles `a` and `b` are both bucketed, into touching cells. */
  predicate Touching(coords: seq<CellCoord>, gridSize: nat, a: nat, b: nat) {
    Spot(coords, gridSize, a).Some? && Spot(coords, gridSize, b).Some? &&
    Adjacent(Spot(coords, gridSize, a).value, Spot(coords, gridSize, b).value)
  }

  /** A bucketed cell index is column plus row times the grid size. */
  lemma SpotIndex(coords: seq<CellCoord>, gridSize: nat, q: nat)
    requires Bucketed(coords, gridSize, q)
    ensures Spot(coords, gridSize, q).Some?
    ensures var s := Spot(coords, gridSize, q).value;
      s.0 < gridSize && s.1 < gridSize && CellOf(coords, gridSize, q) == s.1 * gridSize + s.0
  {
    var c := CellOf(coords, gridSize, q);
    RowInGrid(gridSize, c);
    IndexCoords(gridSize, c, c % gridSize, c / gridSize);
  }

  /** A particle that fell off the grid is met through no offset. */
  lemma MeetsOutside(coords: seq<CellCoord>, gridSize: nat, x: nat, y: nat, q: nat)
    requires !Bucketed(coords, gridSize, q)
    ensures Meets(coords, gridSize, x, y, q, 4) == 0
  {
    if q < |coords| {
      OffsetsToOutside(gridSize, x, y, CellIndex(gridSize, coords[q]), 4);
    }
  }

  /** The scan of `a`'s cell yields `(a, b)` once if `b` shares the cell, and once more if `b`'s cell is a forward neighbour. */
  lemma FwdBoth(coords: seq<CellCoord>, gridSize: nat, a: nat, b: nat)
    requires Bucketed(coords, gridSize, a) && Bucketed(coords, gridSize, b)
    ensures var sa, sb := Spot(coords, gridSize, a).value, Spot(coords, gridSize, b).value;
      Fwd(coords, gridSize, a, b) == (if sa == sb then 1 else 0) + (if Forward(sb.0 - sa.0, sb.1 - sa.1) then 1 else 0)
  {
    SpotIndex(coords, gridSize, a);
    SpotIndex(coords, gridSize, b);
    var sa, sb := Spot(coords, gridSize, a).value, Spot(coords, gridSize, b).value;
    OffsetsToCell(gridSize, sa.0, sa.1, sb.0, sb.1);
    IndexCoords(gridSize, CellOf(coords, gridSize, b), sa.0, sa.1);
  }

  /** The scan of `b`'s cell yields `(a, b)` once if `a`'s cell is a forward neighbour of it. */
  lemma BwdBoth(coords: seq<CellCoord>, gridSize: nat, a: nat, b: nat)
    requires Bucketed(coords, gridSize, a) && Bucketed(coords, gridSize, b)
    ensures var sa, sb := Spot(coords, gridSize, a).value, Spot(coords, gridSize, b).value;
      Bwd(coords, gridSize, a, b) == if Forward(sa.0 - sb.0, sa.1 - sb.1) then 1 else 0
  {
    SpotIndex(coords, gridSize, a);
    SpotIndex(coords, gridSize, b);
    var sa, sb := Spot(coords, gridSize, a).value, Spot(coords, gridSize, b).value;
    OffsetsToCell(gridSize, sb.0, sb.1, sa.0, sa.1);
  }

  /** Of two distinct touching cells, exactly one is a forward neighbour of the other. */
  lemma ForwardOneWay(s: (nat, nat), t: (nat, nat))
    ensures (if s == t then 1 else 0) + (if Forward(t.0 - s.0, t.1 - s.1) then 1 else 0) + (if Forward(s.0 - t.0, s.1 - t.1) then 1 else 0) ==
      if Adjacent(s, t) then 1 else 0
  {
  }

  /** Both particles bucketed: the two scans together yield `(a, b)` once when the cells touch. */
  lemma TouchCountBoth(coords: seq<CellCoord>, gridSize: nat, a: nat, b: nat)
    requires Bucketed(coords, gridSize, a) && Bucketed(coords, gridSize, b)
    ensures Fwd(coords, gridSize, a, b) + Bwd(coords, gridSize, a, b) == if Touching(coords, gridSize, a, b) then 1 else 0
  {
    var sa, sb := Spot(coords, gridSize, a).value, Spot(coords, gridSize, b).value;
    FwdBoth(coords, gridSize, a, b);
    BwdBoth(coords, gridSize, a, b);
    ForwardOneWay(sa, sb);
  }

  /** Particle `q` off the grid: no scan of any cell meets it. */
  lemma NotBucketedMeetsNone(coords: seq<CellCoord>, gridSize: nat, p: nat, q: nat)
    requires Bucketed(coords, gridSize, p) && !Bucketed(coords, gridSize, q)
    ensures Fwd(coords, gridSize, p, q) == 0 && Bwd(coords, gridSize, q, p) == 0
  {
    var cp := CellOf(coords, gridSize, p);
    RowInGrid(gridSize, cp);
    MeetsOutside(coords, gridSize, cp % gridSize, cp / gridSize, q);
    assert !Here(coords, gridSize, q, cp);
  }

  /** Between them, the scans of the two cells yield `(a, b)` once when the cells touch, never otherwise. */
  lemma TouchCount(coords: seq<CellCoord>, gridSize: nat, a: nat, b: nat)
    ensures (if Bucketed(coords, gridSize, a) then Fwd(coords, gridSize, a, b) else 0) +
            (if Bucketed(coords, gridSize, b) then Bwd(coords, gridSize, a, b) else 0) ==
            if Touching(coords, gridSize, a, b) then 1 else 0
  {
    if Bucketed(coords, gridSize, a) && Bucketed(coords, gridSize, b) {
      TouchCountBoth(coords, gridSize, a, b);
    } else if Bucketed(coords, gridSize, a) {
      NotBucketedMeetsNone(coords, gridSize, a, b);
    } else if Bucketed(coords, gridSize, b) {
      NotBucketedMeetsNone(coords, gridSize, b, a);
    }
  }


  /** A particle's spot lies in the whole grid exactly when it was bucketed. */
  lemma InWholeGrid(coords: seq<CellCoord>, gridSize: nat, q: nat)
    ensures InBox(Spot(coords, gridSize, q), 0, gridSize, 0, gridSize) <==> Bucketed(coords, gridSize, q)
  {
    if Bucketed(coords, gridSize, q) {
      SpotIndex(coords, gridSize, q);
    }
  }

  /**
   * The grid broad phase reports a pair `(a, b)` with `a < b` exactly
   * once when both particles were bucketed into touching cells, and not
   * at all otherwise.
   */
  lemma GridTouch(grid: Grid, gridSize: nat, coords: seq<CellCoord>, a: nat, b: nat)
    requires BucketedFrom(grid, gridSize, coords) && |grid| == gridSize * gridSize && a < b
    ensures multiset(GridPairs(grid, gridSize))[(a, b)] == if Touching(coords, gridSize, a, b) then 1 else 0
  {
    var sa, sb := Spot(coords, gridSize, a), Spot(coords, gridSize, b);
    var fa, fb := Fwd(coords, gridSize, a, b), Bwd(coords, gridSize, a, b);
    AllScansCount(grid, gridSize, coords, a, b);
    RegionCount(CellScans(grid, gridSize), 0, gridSize, 0, gridSize, (a, b), sa, sb, fa, fb);
    InWholeGrid(coords, gridSize, a);
    InWholeGrid(coords, gridSize, b);
    TouchCount(coords, gridSize, a, b);
  }
}
