/**
 * The persistent event list of the sort-and-sweep broad phase: one
 * `(key, is_end, id)` entry for each end of each particle's x-interval,
 * refreshed in place every substep and extended for newly added particles.
 */
module SweepEvents {
  import opened Particles

  /** `(key, is_end, id)`: the left (`isEnd == false`) or right end of particle `id`. */
  datatype Event = Event(key: real, isEnd: bool, id: nat)

  /** The key an event of particle `b` must carry: `x - r` for a start, `x + r` for an end. */
  function KeyOf(b: Body, isEnd: bool): real {
    if isEnd then EndKey(b) else StartKey(b)
  }

  predicate IsStartOf(e: Event, x: nat) { !e.isEnd && e.id == x }

  predicate IsEndOf(e: Event, x: nat) { e.isEnd && e.id == x }

  /** The same end of the same particle, whatever the keys. */
  predicate SameTag(e: Event, f: Event) { e.isEnd == f.isEnd && e.id == f.id }

  predicate IdsBelow(events: seq<Event>, n: nat) {
    forall k :: 0 <= k < |events| ==> events[k].id < n
  }

  /** No end of any particle is listed twice. */
  predicate DistinctTags(events: seq<Event>) {
    forall p, q :: 0 <= p < q < |events| ==> !SameTag(events[p], events[q])
  }

  predicate HasStart(events: seq<Event>, x: nat) {
    exists k :: 0 <= k < |events| && IsStartOf(events[k], x)
  }

  predicate HasEnd(events: seq<Event>, x: nat) {
    exists k :: 0 <= k < |events| && IsEndOf(events[k], x)
  }

  /**
   * The list describes particles `0 .. n`: exactly one start and one end
   * event for each of them and nothing else.
   */
  predicate WellFormed(events: seq<Event>, n: nat) {
    && |events| == 2 * n
    && IdsBelow(events, n)
    && DistinctTags(events)
    && forall x :: 0 <= x < n ==> HasStart(events, x) && HasEnd(events, x)
  }

  /** Every event carries the key of its particle's current position and radius. */
  predicate KeysMatch(events: seq<Event>, bodies: seq<Body>) {
    forall k :: 0 <= k < |events| ==>
      events[k].id < |bodies| && events[k].key == KeyOf(bodies[events[k].id], events[k].isEnd)
  }

  /** The list with every key recomputed from `bodies`, ids and ends untouched. */
  function Refreshed(events: seq<Event>, bodies: seq<Body>): (r: seq<Event>)
    requires IdsBelow(events, |bodies|)
    ensures |r| == |events|
    ensures forall k :: 0 <= k < |events| ==> SameTag(r[k], events[k])
    ensures KeysMatch(r, bodies)
  {
    seq(|events|, k requires 0 <= k < |events| =>
      events[k].(key := KeyOf(bodies[events[k].id], events[k].isEnd)))
  }

  /**
   * The events pushed for particles `lo .. hi`: start then end of each,
   * in index order. `new` pushes these for every initial particle and the
   * sweep for every particle added since the list was last extended.
   */
  function NewEvents(bodies: seq<Body>, lo: nat, hi: nat): (r: seq<Event>)
    requires hi <= |bodies|
    ensures |r| == (if hi <= lo then 0 else 2 * (hi - lo))
    ensures forall i :: lo <= i < hi ==>
      (r[2 * (i - lo)] == Event(StartKey(bodies[i]), false, i) &&
       r[2 * (i - lo) + 1] == Event(EndKey(bodies[i]), true, i))
    decreases hi
  {
    if hi <= lo then []
    else NewEvents(bodies, lo, hi - 1) + [Event(StartKey(bodies[hi - 1]), false, hi - 1), Event(EndKey(bodies[hi - 1]), true, hi - 1)]
  }

  /** Recomputing keys keeps a well-formed list well formed. */
  lemma RefreshKeepsWellFormed(events: seq<Event>, bodies: seq<Body>, n: nat)
    requires WellFormed(events, n) && n <= |bodies|
    ensures WellFormed(Refreshed(events, bodies), n)
  {
    var r := Refreshed(events, bodies);
    forall x | 0 <= x < n
      ensures HasStart(r, x) && HasEnd(r, x)
    {
      assert HasStart(events, x) && HasEnd(events, x);
      var s :| 0 <= s < |events| && IsStartOf(events[s], x);
      var e :| 0 <= e < |events| && IsEndOf(events[e], x);
      assert IsStartOf(r[s], x) && IsEndOf(r[e], x);
    }
  }

  /** Entry `k` of the appended block belongs to particle `lo + k / 2`; odd entries are ends. */
  lemma NewEventTag(bodies: seq<Body>, lo: nat, k: nat)
    requires lo <= |bodies| && k < |NewEvents(bodies, lo, |bodies|)|
    ensures NewEvents(bodies, lo, |bodies|)[k].id == lo + k / 2
    ensures NewEvents(bodies, lo, |bodies|)[k].isEnd == (k % 2 == 1)
  {
    var added := NewEvents(bodies, lo, |bodies|);
    var i := lo + k / 2;
    assert lo <= i < |bodies|;
    if k % 2 == 0 {
      assert k == 2 * (i - lo);
      assert added[k] == Event(StartKey(bodies[i]), false, i);
    } else {
      assert k == 2 * (i - lo) + 1;
      assert added[k] == Event(EndKey(bodies[i]), true, i);
    }
  }

  lemma AppendKeepsDistinct(events: seq<Event>, bodies: seq<Body>, m: nat)
    requires IdsBelow(events, m) && DistinctTags(events) && m <= |bodies|
    ensures IdsBelow(events + NewEvents(bodies, m, |bodies|), |bodies|)
    ensures DistinctTags(events + NewEvents(bodies, m, |bodies|))
  {
    var added := NewEvents(bodies, m, |bodies|);
    var r := events + added;
    forall k | 0 <= k < |added|
      ensures m <= added[k].id < |bodies| && added[k].isEnd == (k % 2 == 1) && added[k].id == m + k / 2
    {
      NewEventTag(bodies, m, k);
    }
    forall p, q | 0 <= p < q < |r|
      ensures !SameTag(r[p], r[q])
    {
      if q >= |events| && p < |events| {
        assert r[p] == events[p] && r[q] == added[q - |events|];
      } else if p >= |events| {
        assert r[p] == added[p - |events|] && r[q] == added[q - |events|];
      }
    }
  }

  /** After the append, particle `x` of `0 .. len` has its start and its end listed. */
  lemma AppendedHasBoth(events: seq<Event>, bodies: seq<Body>, m: nat, x: nat)
    requires WellFormed(events, m) && m <= |bodies| && x < |bodies|
    ensures HasStart(events + NewEvents(bodies, m, |bodies|), x)
    ensures HasEnd(events + NewEvents(bodies, m, |bodies|), x)
  {
    var added := NewEvents(bodies, m, |bodies|);
    var r := events + added;
    if x < m {
      assert HasStart(events, x) && HasEnd(events, x);
      var s :| 0 <= s < |events| && IsStartOf(events[s], x);
      var e :| 0 <= e < |events| && IsEndOf(events[e], x);
      assert IsStartOf(r[s], x) && IsEndOf(r[e], x);
    } else {
      var s := |events| + 2 * (x - m);
      assert r[s] == added[2 * (x - m)] && r[s + 1] == added[2 * (x - m) + 1];
      assert added[2 * (x - m)] == Event(StartKey(bodies[x]), false, x);
      assert added[2 * (x - m) + 1] == Event(EndKey(bodies[x]), true, x);
      assert IsStartOf(r[s], x) && IsEndOf(r[s + 1], x);
    }
  }

  /** After the append, entry `k` carries the key of the particle it names. */
  lemma AppendedKey(events: seq<Event>, bodies: seq<Body>, m: nat, k: nat)
    requires KeysMatch(events, bodies) && m <= |bodies| && k < |events| + |NewEvents(bodies, m, |bodies|)|
    ensures var e := (events + NewEvents(bodies, m, |bodies|))[k];
      e.id < |bodies| && e.key == KeyOf(bodies[e.id], e.isEnd)
  {
    var added := NewEvents(bodies, m, |bodies|);
    if k >= |events| {
      var j := k - |events|;
      var i := m + j / 2;
      NewEventTag(bodies, m, j);
      assert (events + added)[k] == added[j];
      if j % 2 == 0 {
        assert j == 2 * (i - m);
      } else {
        assert j == 2 * (i - m) + 1;
      }
    }
  }

  /**
   * Appending the events of particles `m .. len` to a well-formed list for
   * `m` particles gives a well-formed list for `len`, and keys stay matched.
   */
  lemma AppendKeepsWellFormed(events: seq<Event>, bodies: seq<Body>, m: nat)
    requires WellFormed(events, m) && KeysMatch(events, bodies) && m <= |bodies|
    ensures WellFormed(events + NewEvents(bodies, m, |bodies|), |bodies|)
    ensures KeysMatch(events + NewEvents(bodies, m, |bodies|), bodies)
  {
    var r := events + NewEvents(bodies, m, |bodies|);
    AppendKeepsDistinct(events, bodies, m);
    forall x | 0 <= x < |bodies|
      ensures HasStart(r, x) && HasEnd(r, x)
    {
      AppendedHasBoth(events, bodies, m, x);
    }
    forall k | 0 <= k < |r|
      ensures r[k].id < |bodies| && r[k].key == KeyOf(bodies[r[k].id], r[k].isEnd)
    {
      AppendedKey(events, bodies, m, k);
    }
  }

  /** `new`'s list before sorting: the events of all initial particles. */
  lemma InitialEventsWellFormed(bodies: seq<Body>)
    ensures WellFormed(NewEvents(bodies, 0, |bodies|), |bodies|)
    ensures KeysMatch(NewEvents(bodies, 0, |bodies|), bodies)
  {
    AppendKeepsWellFormed([], bodies, 0);
    assert [] + NewEvents(bodies, 0, |bodies|) == NewEvents(bodies, 0, |bodies|);
  }

  /**
   * Any rearrangement of a well-formed, key-matched list that still lists no
   * end twice is well formed and key matched.
   */
  lemma PermutationKeepsWellFormed(s: seq<Event>, r: seq<Event>, n: nat, bodies: seq<Body>)
    requires multiset(r) == multiset(s) && DistinctTags(r)
    requires WellFormed(s, n) && KeysMatch(s, bodies)
    ensures WellFormed(r, n) && KeysMatch(r, bodies)
  {
    assert |r| == |multiset(r)| == |multiset(s)| == |s|;
    forall k | 0 <= k < |r|
      ensures r[k].id < n && r[k].id < |bodies| && r[k].key == KeyOf(bodies[r[k].id], r[k].isEnd)
    {
      assert r[k] in multiset(s);
      var k' :| 0 <= k' < |s| && s[k'] == r[k];
    }
    forall x | 0 <= x < n
      ensures HasStart(r, x) && HasEnd(r, x)
    {
      assert HasStart(s, x) && HasEnd(s, x);
      var a :| 0 <= a < |s| && IsStartOf(s[a], x);
      var b :| 0 <= b < |s| && IsEndOf(s[b], x);
      assert s[a] in multiset(r) && s[b] in multiset(r);
      var a' :| 0 <= a' < |r| && r[a'] == s[a];
      var b' :| 0 <= b' < |r| && r[b'] == s[b];
      assert IsStartOf(r[a'], x) && IsEndOf(r[b'], x);
    }
  }

  /** `for event in &mut self.events`: recompute every key from the particle it names. */
  method RefreshKeys(events: seq<Event>, bodies: seq<Body>) returns (refreshed: seq<Event>)
    requires IdsBelow(events, |bodies|)
    ensures refreshed == Refreshed(events, bodies)
  {
    refreshed := events;
    var k := 0;
    while k < |refreshed|
      invariant |refreshed| == |events|
      invariant 0 <= k <= |events|
      invariant refreshed[..k] == Refreshed(events, bodies)[..k]
      invariant refreshed[k..] == events[k..]
    {
      var e := refreshed[k];
      var b := bodies[e.id];
      if e.isEnd {
        refreshed := refreshed[k := e.(key := b.position.x + b.radius)];
      } else {
        refreshed := refreshed[k := e.(key := b.position.x - b.radius)];
      }
      assert refreshed[k] == Refreshed(events, bodies)[k];
      k := k + 1;
    }
    assert refreshed == refreshed[..k];
  }

  /** `for i in start_index..len`: push the two events of every particle not yet listed. */
  method AppendNewEvents(events: seq<Event>, bodies: seq<Body>) returns (extended: seq<Event>)
    ensures extended == events + NewEvents(bodies, |events| / 2, |bodies|)
  {
    var startIndex := |events| / 2;
    extended := events;
    var i := startIndex;
    while i < |bodies|
      invariant startIndex <= i
      invariant i <= |bodies| || i == startIndex
      invariant extended == events + NewEvents(bodies, startIndex, if |bodies| <= startIndex then 0 else i)
    {
      var b := bodies[i];
      extended := extended + [Event(b.position.x - b.radius, false, i), Event(b.position.x + b.radius, true, i)];
      i := i + 1;
    }
  }
}
