/**
 * Candidate collision pairs: the `(usize, usize)` tuples every broad phase
 * pushes into its `collisions` vector and `solve_collisions` consumes.
 */
module Pairs {
  /** A pair of particle indices. */
  type Pair = (nat, nat)

  /** `(a.min(b), a.max(b))`, the normal form the sweep and the grid use. */
  function Ordered(a: nat, b: nat): (p: Pair)
    ensures p.0 <= p.1
    ensures (p.0 == a && p.1 == b) || (p.0 == b && p.1 == a)
  {
    if a <= b then (a, b) else (b, a)
  }

  /**
   * What `solve_collisions` needs of a pair before it runs
   * `split_at_mut(j)` and reads `left[i]`: i < j < len.
   */
  predicate Indexable(p: Pair, len: nat) {
    p.0 < p.1 < len
  }

  predicate AllIndexable(ps: seq<Pair>, len: nat) {
    forall k :: 0 <= k < |ps| ==> Indexable(ps[k], len)
  }

  /** The same two particles, in either order. */
  predicate SameUnordered(p: Pair, q: Pair) {
    (p.0 == q.0 && p.1 == q.1) || (p.0 == q.1 && p.1 == q.0)
  }

  /** No unordered pair of particles occurs twice. */
  predicate NoRepeatedPair(ps: seq<Pair>) {
    forall a, b :: 0 <= a < b < |ps| ==> !SameUnordered(ps[a], ps[b])
  }

  /** The comparator of `collisions.sort_by`: by first index, then by second. */
  predicate LexLeq(p: Pair, q: Pair) {
    p.0 < q.0 || (p.0 == q.0 && p.1 <= q.1)
  }

  predicate LexLess(p: Pair, q: Pair) {
    p.0 < q.0 || (p.0 == q.0 && p.1 < q.1)
  }

  predicate LexSorted(ps: seq<Pair>) {
    forall a, b :: 0 <= a < b < |ps| ==> LexLeq(ps[a], ps[b])
  }

  predicate StrictlyLexSorted(ps: seq<Pair>) {
    forall a, b :: 0 <= a < b < |ps| ==> LexLess(ps[a], ps[b])
  }

  /**
   * The pairs `(x.min(y), x.max(y))` for every `y` of `others`, in order:
   * the inner `for &particle_j in ...` loops of the sweep and the grid.
   */
  function PairsWith(x: nat, others: seq<nat>): (ps: seq<Pair>)
    ensures |ps| == |others|
    ensures forall k :: 0 <= k < |others| ==> ps[k] == Ordered(x, others[k])
  {
    if others == [] then [] else PairsWith(x, others[..|others| - 1]) + [Ordered(x, others[|others| - 1])]
  }

  /** Two strictly increasing runs, the first wholly below the second, concatenate to one. */
  lemma ConcatStrictlySorted(s: seq<Pair>, t: seq<Pair>)
    requires StrictlyLexSorted(s) && StrictlyLexSorted(t)
    requires forall a, b :: 0 <= a < |s| && 0 <= b < |t| ==> LexLess(s[a], t[b])
    ensures StrictlyLexSorted(s + t)
  {
    forall a, b | 0 <= a < b < |s + t|
      ensures LexLess((s + t)[a], (s + t)[b])
    {
      if b < |s| {
        assert (s + t)[a] == s[a] && (s + t)[b] == s[b];
      } else if a >= |s| {
        assert (s + t)[a] == t[a - |s|] && (s + t)[b] == t[b - |s|];
      } else {
        assert (s + t)[a] == s[a] && (s + t)[b] == t[b - |s|];
      }
    }
  }

  /**
   * `for &other in others { collisions.push((other.min(x), other.max(x))) }`.
   */
  method PushPairsWith(collisions: seq<Pair>, x: nat, others: seq<nat>) returns (r: seq<Pair>)
    ensures r == collisions + PairsWith(x, others)
  {
    r := collisions;
    var k := 0;
    while k < |others|
      invariant 0 <= k <= |others|
      invariant r == collisions + PairsWith(x, others[..k])
    {
      var other := others[k];
      r := r + [(if other <= x then other else x, if other <= x then x else other)];
      assert others[..k + 1][..k] == others[..k];
      k := k + 1;
    }
    assert others[..k] == others;
  }

  /**
   * A strictly increasing sequence of pairs whose members are all i < j
   * never repeats an unordered pair.
   */
  lemma StrictlySortedHasNoRepeat(ps: seq<Pair>)
    requires StrictlyLexSorted(ps)
    requires forall k :: 0 <= k < |ps| ==> ps[k].0 < ps[k].1
    ensures NoRepeatedPair(ps)
    ensures LexSorted(ps)
  {
    forall a, b | 0 <= a < b < |ps|
      ensures !SameUnordered(ps[a], ps[b])
    {
      assert LexLess(ps[a], ps[b]);
    }
  }

  /** Two sorted arrangements of the same non-empty multiset start with the same pair. */
  lemma SortedHeadsAgree(s: seq<Pair>, t: seq<Pair>)
    requires LexSorted(s) && LexSorted(t)
    requires multiset(s) == multiset(t) && s != []
    ensures t != [] && s[0] == t[0]
  {
    assert s[0] in multiset(t);
    assert t[0] in multiset(s);
    var i :| 0 <= i < |s| && s[i] == t[0];
    var j :| 0 <= j < |t| && t[j] == s[0];
    assert LexLeq(s[0], s[i]) && LexLeq(t[0], t[j]);
  }

  /** Dropping the same first pair from both leaves sorted arrangements of the same multiset. */
  lemma SortedTails(s: seq<Pair>, t: seq<Pair>)
    requires LexSorted(s) && LexSorted(t)
    requires multiset(s) == multiset(t) && s != [] && t != [] && s[0] == t[0]
    ensures LexSorted(s[1..]) && LexSorted(t[1..])
    ensures multiset(s[1..]) == multiset(t[1..])
  {
    assert s == [s[0]] + s[1..];
    assert t == [t[0]] + t[1..];
    assert multiset(s[1..]) == multiset(s) - multiset{s[0]};
    assert multiset(t[1..]) == multiset(t) - multiset{t[0]};
  }

  /**
   * Two sorted arrangements of the same multiset of pairs are the same
   * sequence: `LexLeq` is a total order on pairs.
   */
  lemma {:induction false} SortedPermutationUnique(s: seq<Pair>, t: seq<Pair>)
    requires LexSorted(s) && LexSorted(t)
    requires multiset(s) == multiset(t)
    ensures s == t
  {
    if s == [] {
      assert |t| == |multiset(t)| == 0;
    } else {
      SortedHeadsAgree(s, t);
      SortedTails(s, t);
      SortedPermutationUnique(s[1..], t[1..]);
      assert s == [s[0]] + s[1..];
      assert t == [t[0]] + t[1..];
    }
  }

  /**
   * How often `PairsWith(x, others)` holds the pair `(a, b)`, `a < b`: once
   * for every copy of the other end in `others` when `x` is one end.
   */
  lemma {:induction false} PairsWithCount(x: nat, others: seq<nat>, a: nat, b: nat)
    requires a < b
    ensures multiset(PairsWith(x, others))[(a, b)] ==
      (if x == a then multiset(others)[b] else 0) + (if x == b then multiset(others)[a] else 0)
    decreases |others|
  {
    if others != [] {
      var init, last := others[..|others| - 1], others[|others| - 1];
      assert others == init + [last];
      PairsWithCount(x, init, a, b);
    }
  }

  /** Pairs that are all i < j and occur at most once each repeat no unordered pair. */
  lemma CountedOnceHasNoRepeat(ps: seq<Pair>)
    requires forall k :: 0 <= k < |ps| ==> ps[k].0 < ps[k].1
    requires forall k :: 0 <= k < |ps| ==> multiset(ps)[ps[k]] <= 1
    ensures NoRepeatedPair(ps)
  {
    forall a, b | 0 <= a < b < |ps|
      ensures !SameUnordered(ps[a], ps[b])
    {
      assert ps == ps[..b] + ps[b..];
      assert ps[a] in ps[..b] && ps[b] in ps[b..];
      assert multiset(ps)[ps[b]] == multiset(ps[..b])[ps[b]] + multiset(ps[b..])[ps[b]];
    }
  }

  /** Any two pairs are ordered one way or the other. */
  lemma LexTotal(p: Pair, q: Pair)
    ensures LexLeq(p, q) || LexLeq(q, p)
    ensures LexLeq(p, q) && LexLeq(q, p) ==> p == q
  {
  }

  /** `p` placed after every pair at or below it and before the rest keeps the list sorted. */
  lemma InsertedSorted(s: seq<Pair>, k: nat, p: Pair)
    requires LexSorted(s) && k <= |s|
    requires forall m :: 0 <= m < k ==> LexLeq(s[m], p)
    requires k < |s| ==> !LexLeq(s[k], p)
    ensures LexSorted(s[..k] + [p] + s[k..])
  {
    var r := s[..k] + [p] + s[k..];
    forall a, b | 0 <= a < b < |r| ensures LexLeq(r[a], r[b]) {
      if b > k && a <= k {
        assert r[b] == s[b - 1];
        if a == k {
          assert LexLeq(s[k], s[b - 1]);
          LexTotal(s[k], p);
        } else {
          assert r[a] == s[a];
        }
      } else if b == k {
        assert r[a] == s[a];
      } else if a > k {
        assert r[a] == s[a - 1] && r[b] == s[b - 1];
      } else {
        assert r[a] == s[a] && r[b] == s[b];
      }
    }
  }

  /** Inserts `p` into a sorted list after every pair at or below it. */
  method InsertPair(sorted: seq<Pair>, p: Pair) returns (r: seq<Pair>)
    requires LexSorted(sorted)
    ensures LexSorted(r)
    ensures multiset(r) == multiset(sorted) + multiset{p}
  {
    var k := 0;
    while k < |sorted| && LexLeq(sorted[k], p)
      invariant k <= |sorted|
      invariant forall m :: 0 <= m < k ==> LexLeq(sorted[m], p)
    {
      k := k + 1;
    }
    InsertedSorted(sorted, k, p);
    r := sorted[..k] + [p] + sorted[k..];
    assert sorted == sorted[..k] + sorted[k..];
  }

  /**
   * `collisions.sort_by(...)` by first index, then second. The library
   * sort is a merge sort; since two pairs that compare equal are the same
   * pair, every sorted arrangement is the same sequence
   * (`SortedPermutationUnique`), so an insertion sort stands for it.
   */
  method SortPairs(pairs: seq<Pair>) returns (sorted: seq<Pair>)
    ensures LexSorted(sorted)
    ensures multiset(sorted) == multiset(pairs)
  {
    sorted := [];
    var i := 0;
    while i < |pairs|
      invariant i <= |pairs|
      invariant LexSorted(sorted)
      invariant multiset(sorted) == multiset(pairs[..i])
    {
      sorted := InsertPair(sorted, pairs[i]);
      assert pairs[..i + 1] == pairs[..i] + [pairs[i]];
      i := i + 1;
    }
    assert pairs[..i] == pairs;
  }

  /** Sorting a list that is already sorted gives it back unchanged. */
  lemma SortedSortIsIdentity(pairs: seq<Pair>, sorted: seq<Pair>)
    requires LexSorted(pairs) && LexSorted(sorted) && multiset(sorted) == multiset(pairs)
    ensures sorted == pairs
  {
    SortedPermutationUnique(sorted, pairs);
  }

  /** A reordering of an indexable list is indexable. */
  lemma PermutedIndexable(s: seq<Pair>, t: seq<Pair>, n: nat)
    requires multiset(s) == multiset(t) && AllIndexable(t, n)
    ensures AllIndexable(s, n)
  {
    forall k | 0 <= k < |s| ensures Indexable(s[k], n) {
      assert s[k] in multiset(t);
      var j :| 0 <= j < |t| && t[j] == s[k];
    }
  }
}
