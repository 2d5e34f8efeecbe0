/**
 * The O(n^2) broad phase `find_collisions_loop`: every pair i < j is
 * checked against the true overlap test and kept when it holds.
 */
module NaiveBroadPhase {
  import opened Pairs
  import opened Particles

  /** The pairs `(i, j)` with `i < j < hi` that the inner loop over `j` keeps for row `i`. */
  function RowPairs(bodies: seq<Body>, i: nat, hi: nat): seq<Pair>
    requires i < |bodies| && hi <= |bodies|
    decreases hi
  {
    if hi <= i + 1 then []
    else RowPairs(bodies, i, hi - 1) + (if Overlaps(bodies[i], bodies[hi - 1]) then [(i, hi - 1)] else [])
  }

  /** Everything the outer loop has pushed after rows `0 .. rows`. */
  function PairsUpTo(bodies: seq<Body>, rows: nat): seq<Pair>
    requires rows <= |bodies|
  {
    if rows == 0 then [] else PairsUpTo(bodies, rows - 1) + RowPairs(bodies, rows - 1, |bodies|)
  }

  /** The whole output of the naive loop, in the order it is pushed. */
  function NaivePairs(bodies: seq<Body>): seq<Pair> {
    PairsUpTo(bodies, |bodies|)
  }

  /** What the pairs of one row are: overlapping partners of `i` below `hi`, increasing. */
  lemma {:induction false} RowPairsExact(bodies: seq<Body>, i: nat, hi: nat)
    requires i < |bodies| && hi <= |bodies|
    ensures forall k :: 0 <= k < |RowPairs(bodies, i, hi)| ==>
      RowPairs(bodies, i, hi)[k].0 == i && i < RowPairs(bodies, i, hi)[k].1 < hi
    ensures StrictlyLexSorted(RowPairs(bodies, i, hi))
    ensures forall j :: i < j < hi ==> ((i, j) in RowPairs(bodies, i, hi) <==> Overlaps(bodies[i], bodies[j]))
    decreases hi
  {
    if hi > i + 1 {
      var hm := hi - 1;
      RowPairsExact(bodies, i, hm);
      assert RowPairs(bodies, i, hi) == RowPairs(bodies, i, hm) + (if Overlaps(bodies[i], bodies[hm]) then [(i, hm)] else []);
    }
  }

  /** Every pair pushed by the first `rows` rows starts below `rows` and is i < j < len. */
  lemma {:induction false} PairsUpToBounds(bodies: seq<Body>, rows: nat)
    requires rows <= |bodies|
    ensures forall k :: 0 <= k < |PairsUpTo(bodies, rows)| ==>
      PairsUpTo(bodies, rows)[k].0 < rows && Indexable(PairsUpTo(bodies, rows)[k], |bodies|)
  {
    if rows > 0 {
      PairsUpToBounds(bodies, rows - 1);
      RowPairsExact(bodies, rows - 1, |bodies|);
    }
  }

  lemma {:induction false} PairsUpToSorted(bodies: seq<Body>, rows: nat)
    requires rows <= |bodies|
    ensures StrictlyLexSorted(PairsUpTo(bodies, rows))
  {
    if rows > 0 {
      PairsUpToSorted(bodies, rows - 1);
      PairsUpToBounds(bodies, rows - 1);
      RowPairsExact(bodies, rows - 1, |bodies|);
      ConcatStrictlySorted(PairsUpTo(bodies, rows - 1), RowPairs(bodies, rows - 1, |bodies|));
    }
  }

  lemma {:induction false} PairsUpToMembers(bodies: seq<Body>, rows: nat)
    requires rows <= |bodies|
    ensures forall i, j :: 0 <= i < j < |bodies| ==>
      ((i, j) in PairsUpTo(bodies, rows) <==> i < rows && Overlaps(bodies[i], bodies[j]))
  {
    if rows > 0 {
      PairsUpToMembers(bodies, rows - 1);
      PairsUpToBounds(bodies, rows - 1);
      RowPairsExact(bodies, rows - 1, |bodies|);
      var prev, row := PairsUpTo(bodies, rows - 1), RowPairs(bodies, rows - 1, |bodies|);
      forall i, j | 0 <= i < j < |bodies|
        ensures (i, j) in prev + row <==> i < rows && Overlaps(bodies[i], bodies[j])
      {
        if (i, j) in prev {
          var k :| 0 <= k < |prev| && prev[k] == (i, j);
        }
        if (i, j) in row {
          var k :| 0 <= k < |row| && row[k] == (i, j);
        }
      }
    }
  }

  /**
   * The naive output is exactly the set of overlapping pairs i < j < len,
   * in strictly increasing lexicographic order, so no unordered pair is
   * repeated and every pair suits `solve_collisions`.
   */
  lemma NaivePairsExact(bodies: seq<Body>)
    ensures AllIndexable(NaivePairs(bodies), |bodies|)
    ensures StrictlyLexSorted(NaivePairs(bodies))
    ensures NoRepeatedPair(NaivePairs(bodies))
    ensures forall i, j :: 0 <= i < j < |bodies| ==> ((i, j) in NaivePairs(bodies) <==> Overlaps(bodies[i], bodies[j]))
  {
    PairsUpToBounds(bodies, |bodies|);
    PairsUpToSorted(bodies, |bodies|);
    PairsUpToMembers(bodies, |bodies|);
    StrictlySortedHasNoRepeat(NaivePairs(bodies));
  }

  /** One pass of the inner loop: testing `(i, j)` extends the pairs of row `i` below `j` to those below `next`. */
  lemma RowStep(bodies: seq<Body>, i: nat, j: nat, next: nat, collisions: seq<Pair>, before: seq<Pair>, after: seq<Pair>)
    requires i < j < |bodies| && next == j + 1
    requires before == collisions + RowPairs(bodies, i, j)
    requires after == before + (if Overlaps(bodies[i], bodies[j]) then [(i, j)] else [])
    ensures after == collisions + RowPairs(bodies, i, next)
  {
    assert RowPairs(bodies, i, next) == RowPairs(bodies, i, j) + (if Overlaps(bodies[i], bodies[j]) then [(i, j)] else []);
  }

  /** One pass of the outer loop: row `i` follows the rows before it. */
  lemma RowsStep(bodies: seq<Body>, i: nat, next: nat, row: seq<Pair>)
    requires i < |bodies| && next == i + 1 && row == RowPairs(bodies, i, |bodies|)
    ensures PairsUpTo(bodies, next) == PairsUpTo(bodies, i) + row
  {
  }

  /** `for j in (i + 1)..len`: the inner loop, pushing `(i, j)` for every later particle `j` overlapping `i`. */
  method ScanPartners(bodies: seq<Body>, i: nat, collisions: seq<Pair>) returns (r: seq<Pair>)
    requires i < |bodies|
    ensures r == collisions + RowPairs(bodies, i, |bodies|)
  {
    r := collisions;
    var len := |bodies|;
    var j := i + 1;
    while j < len
      invariant i + 1 <= j <= len
      invariant r == collisions + RowPairs(bodies, i, j)
    {
      ghost var before := r;
      if Overlaps(bodies[i], bodies[j]) {
        r := r + [(i, j)];
      }
      var next := j + 1;
      RowStep(bodies, i, j, next, collisions, before, r);
      j := next;
    }
  }

  /** `find_collisions_loop`: two nested index loops pushing `(i, j)` on overlap. */
  method FindCollisionsLoop(bodies: seq<Body>) returns (collisions: seq<Pair>)
    ensures collisions == NaivePairs(bodies)
    ensures AllIndexable(collisions, |bodies|)
    ensures StrictlyLexSorted(collisions)
    ensures forall i, j :: 0 <= i < j < |bodies| ==> ((i, j) in collisions <==> Overlaps(bodies[i], bodies[j]))
  {
    collisions := [];
    var len := |bodies|;
    var i := 0;
    while i < len
      invariant 0 <= i <= len
      invariant collisions == PairsUpTo(bodies, i)
    {
      var next := i + 1;
      RowsStep(bodies, i, next, RowPairs(bodies, i, len));
      collisions := ScanPartners(bodies, i, collisions);
      i := next;
    }
    NaivePairsExact(bodies);
  }
}
