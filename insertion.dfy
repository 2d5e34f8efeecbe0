/**
 * The adjacent-swap insertion sort that keeps the event list ordered by
 * key between substeps. The inner loop stops at index `lo`: the solvers run
 * it with `lo == 1`, so `events[0]` is never compared or moved.
 */
module InsertionSort {
  import opened SweepEvents

  /** `events.swap(j, j + 1)`. */
  function Swap(s: seq<Event>, j: nat): (r: seq<Event>)
    requires j + 1 < |s|
    ensures |r| == |s| && r[j] == s[j + 1] && r[j + 1] == s[j]
    ensures forall k :: 0 <= k < |s| && k != j && k != j + 1 ==> r[k] == s[k]
    ensures multiset(r) == multiset(s)
  {
    var t := s[j := s[j + 1]];
    assert multiset(t) == multiset(s) - multiset{s[j]} + multiset{s[j + 1]};
    t[j + 1 := s[j]]
  }

  /** Keys ascend (not strictly) over positions `lo .. hi`. */
  predicate Sorted(s: seq<Event>, lo: nat, hi: nat)
    requires hi <= |s|
  {
    forall p, q :: lo <= p < q < hi ==> s[p].key <= s[q].key
  }

  /**
   * One run of the inner loop `for j in (lo..i).rev()`, from the current `j`
   * down: stop when `s[j]` is strictly below `s[j + 1]`, otherwise swap them
   * (equal keys are swapped too) and go on with `j - 1`.
   */
  function InsertDown(s: seq<Event>, lo: nat, j: int): (r: seq<Event>)
    requires -1 <= j && j + 1 < |s|
    ensures |r| == |s|
    decreases j + 1
  {
    if j < lo then s
    else if s[j].key < s[j + 1].key then s
    else InsertDown(Swap(s, j), lo, j - 1)
  }

  /** The list after the outer loop `for i in 1..m` has run. */
  function Passes(s: seq<Event>, lo: nat, m: nat): (r: seq<Event>)
    requires m <= |s|
    ensures |r| == |s|
  {
    if m <= 1 then s else InsertDown(Passes(s, lo, m - 1), lo, m - 2)
  }

  /** The whole insertion sort of `events`, starting at index `lo`. */
  function SortedFrom(s: seq<Event>, lo: nat): seq<Event> {
    Passes(s, lo, |s|)
  }

  /** A swap lists the same ends of the same particles, so no end becomes duplicated. */
  lemma SwapKeepsDistinct(s: seq<Event>, j: nat)
    requires j + 1 < |s| && DistinctTags(s)
    ensures DistinctTags(Swap(s, j))
  {
    var r := Swap(s, j);
    forall p, q | 0 <= p < q < |r|
      ensures !SameTag(r[p], r[q])
    {
      var p' := if p == j then j + 1 else if p == j + 1 then j else p;
      var q' := if q == j then j + 1 else if q == j + 1 then j else q;
      assert r[p] == s[p'] && r[q] == s[q'] && p' != q';
      if p' > q' {
        assert !SameTag(s[q'], s[p']);
      }
    }
  }

  /**
   * An inner run only swaps neighbours at or above `lo`: it permutes the
   * list, leaves everything below `lo` where it was, and keeps the ends
   * distinct.
   */
  lemma {:induction false} InsertDownPermutes(s: seq<Event>, lo: nat, j: int)
    requires -1 <= j && j + 1 < |s|
    ensures multiset(InsertDown(s, lo, j)) == multiset(s)
    ensures forall k :: 0 <= k < lo && k < |s| ==> InsertDown(s, lo, j)[k] == s[k]
    ensures DistinctTags(s) ==> DistinctTags(InsertDown(s, lo, j))
    decreases j + 1
  {
    if j >= lo && !(s[j].key < s[j + 1].key) {
      InsertDownPermutes(Swap(s, j), lo, j - 1);
      if DistinctTags(s) {
        SwapKeepsDistinct(s, j);
      }
    }
  }

  lemma {:induction false} PassesPermutes(s: seq<Event>, lo: nat, m: nat)
    requires m <= |s|
    ensures multiset(Passes(s, lo, m)) == multiset(s)
    ensures forall k :: 0 <= k < lo && k < |s| ==> Passes(s, lo, m)[k] == s[k]
    ensures DistinctTags(s) ==> DistinctTags(Passes(s, lo, m))
  {
    if m > 1 {
      PassesPermutes(s, lo, m - 1);
      InsertDownPermutes(Passes(s, lo, m - 1), lo, m - 2);
    }
  }

  /**
   * What the inner run at `j` relies on: the block `lo .. j + 1` is sorted,
   * `s[j + 1 .. i + 1]` is sorted, and the block lies below `s[j + 2 .. i + 1]`.
   */
  predicate InsertReady(s: seq<Event>, lo: nat, j: int, i: nat)
    requires lo - 1 <= j && j + 1 <= i < |s|
  {
    && Sorted(s, lo, j + 1)
    && Sorted(s, j + 1, i + 1)
    && forall p, q :: lo <= p <= j && j + 2 <= q <= i ==> s[p].key <= s[q].key
  }

  /**
   * One swap of the inner run keeps the three facts the insertion relies
   * on, one index further down.
   */
  lemma InsertStep(s: seq<Event>, lo: nat, j: nat, i: nat)
    requires lo <= j && j + 1 <= i < |s|
    requires s[j + 1].key <= s[j].key
    requires InsertReady(s, lo, j, i)
    ensures InsertReady(Swap(s, j), lo, j - 1, i)
  {
    var t := Swap(s, j);
    forall p, q | j <= p < q < i + 1
      ensures t[p].key <= t[q].key
    {
      if p == j && q == j + 1 {
      } else if p == j {
        assert t[q] == s[q];
      } else if p == j + 1 {
        assert t[q] == s[q];
      } else {
        assert t[p] == s[p] && t[q] == s[q];
      }
    }
    forall p, q | lo <= p <= j - 1 && j + 1 <= q <= i
      ensures t[p].key <= t[q].key
    {
      if q == j + 1 {
        assert s[p].key <= s[j].key;
      } else {
        assert t[q] == s[q];
      }
    }
  }

  /** The inner run stops at `j`: the block `lo .. j + 1` lies below `s[j + 1]`, so `lo .. i + 1` is sorted already. */
  lemma StopSorted(s: seq<Event>, lo: nat, j: nat, i: nat)
    requires lo <= j && j + 1 <= i < |s|
    requires s[j].key < s[j + 1].key
    requires InsertReady(s, lo, j, i)
    ensures Sorted(s, lo, i + 1)
  {
    forall p, q | lo <= p < q < i + 1
      ensures s[p].key <= s[q].key
    {
      if q == j + 1 && p < j {
        assert s[p].key <= s[j].key;
      }
    }
  }

  /**
   * The inner run inserts `s[j + 1]` into the sorted block `lo .. j + 1`:
   * given that the block is sorted, that `s[j + 1 .. i + 1]` is sorted and
   * that the block lies below `s[j + 2 .. i + 1]`, the result is sorted on
   * `lo .. i + 1`.
   */
  lemma {:induction false} InsertDownSorted(s: seq<Event>, lo: nat, j: int, i: nat)
    requires lo - 1 <= j && j + 1 <= i < |s|
    requires InsertReady(s, lo, j, i)
    ensures Sorted(InsertDown(s, lo, j), lo, i + 1)
    decreases j + 1
  {
    if j < lo {
      assert InsertDown(s, lo, j) == s;
      assert Sorted(s, j + 1, i + 1);
    } else if s[j].key < s[j + 1].key {
      assert InsertDown(s, lo, j) == s;
      StopSorted(s, lo, j, i);
    } else {
      InsertStep(s, lo, j, i);
      InsertDownSorted(Swap(s, j), lo, j - 1, i);
      assert InsertDown(s, lo, j) == InsertDown(Swap(s, j), lo, j - 1);
    }
  }

  /** After the outer loop has run up to `m`, positions `lo .. m` are in key order. */
  lemma {:induction false} PassesSorted(s: seq<Event>, lo: nat, m: nat)
    requires m <= |s|
    ensures Sorted(Passes(s, lo, m), lo, m)
  {
    if m > 1 {
      PassesSorted(s, lo, m - 1);
      var t := Passes(s, lo, m - 1);
      var i := m - 1;
      if i < lo {
        assert InsertDown(t, lo, i - 1) == t;
      } else {
        InsertDownSorted(t, lo, i - 1, i);
      }
    }
  }

  /**
   * The sort is a permutation that leaves positions below `lo` alone and
   * puts every position from `lo` on in key order.
   */
  lemma SortedFromCorrect(s: seq<Event>, lo: nat)
    ensures multiset(SortedFrom(s, lo)) == multiset(s)
    ensures forall k :: 0 <= k < lo && k < |s| ==> SortedFrom(s, lo)[k] == s[k]
    ensures DistinctTags(s) ==> DistinctTags(SortedFrom(s, lo))
    ensures Sorted(SortedFrom(s, lo), lo, |s|)
  {
    PassesPermutes(s, lo, |s|);
    PassesSorted(s, lo, |s|);
  }

  /** Pass `i` of the outer loop is the inner run from `i - 1`. */
  lemma PassesStep(s: seq<Event>, lo: nat, i: nat, next: nat)
    requires 1 <= i < |s| && next == i + 1
    ensures Passes(s, lo, next) == InsertDown(Passes(s, lo, i), lo, i - 1)
  {
  }

  /**
   * `for j in (lo..i).rev() { if key[j] < key[j + 1] { break } swap(j, j + 1) }`:
   * one inner run, inserting `events[i]` into the block before it.
   */
  method InsertRun(events: seq<Event>, lo: nat, i: nat) returns (r: seq<Event>)
    requires 1 <= i < |events|
    ensures r == InsertDown(events, lo, i - 1)
  {
    r := events;
    var j: int := i - 1;
    while j >= lo
      invariant -1 <= j <= i - 1
      invariant |r| == |events|
      invariant InsertDown(r, lo, j) == InsertDown(events, lo, i - 1)
      decreases j + 1
    {
      if r[j].key < r[j + 1].key {
        break;
      }
      r := r[j := r[j + 1]][j + 1 := r[j]];
      j := j - 1;
    }
  }

  /** `for i in 1..len`, one inner run per position, then the sort's properties. */
  method SortEvents(events: seq<Event>, lo: nat) returns (sorted: seq<Event>)
    ensures sorted == SortedFrom(events, lo)
    ensures multiset(sorted) == multiset(events)
    ensures forall k :: 0 <= k < lo && k < |events| ==> sorted[k] == events[k]
    ensures Sorted(sorted, lo, |sorted|)
  {
    sorted := events;
    var i := 1;
    while i < |sorted|
      invariant |sorted| == |events|
      invariant 1 <= i && (i <= |events| || |events| == 0)
      invariant sorted == Passes(events, lo, if |events| == 0 then 0 else i)
    {
      var next := i + 1;
      PassesStep(events, lo, i, next);
      sorted := InsertRun(sorted, lo, i);
      i := next;
    }
    SortedFromCorrect(events, lo);
  }
}
