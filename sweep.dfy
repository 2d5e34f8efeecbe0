/**
 * The sweep of `find_collisions_sort_sweep`: walk the sorted event list,
 * keeping the particles whose interval is open in `active` and, for each of
 * them, its index in `active` in the reverse index `active_positions`.
 */
module SweepAndPrune {
  import opened Pairs
  import opened Particles
  import opened SweepEvents
  import opened InsertionSort
  import StableSort

  /** After the first `t` events, the last event of particle `x` is a start. */
  predicate Open(events: seq<Event>, x: nat, t: nat)
    requires t <= |events|
  {
    t > 0 && (if events[t - 1].id == x then !events[t - 1].isEnd else Open(events, x, t - 1))
  }

  /** A start event of `x` is among the first `t` events. */
  predicate StartedBefore(events: seq<Event>, x: nat, t: nat)
    requires t <= |events|
  {
    t > 0 && (IsStartOf(events[t - 1], x) || StartedBefore(events, x, t - 1))
  }

  /** Among the first `t` events, one of `a`, `b` started while the other was open. */
  predicate MetBefore(events: seq<Event>, a: nat, b: nat, t: nat)
    requires t <= |events|
  {
    t > 0 &&
      (MetBefore(events, a, b, t - 1)
       || (IsStartOf(events[t - 1], a) && Open(events, b, t - 1))
       || (IsStartOf(events[t - 1], b) && Open(events, a, t - 1)))
  }

  /**
   * `active_positions[x]` is the index of `x` in `active`, or -1 when `x`
   * is not in it; `active` lists particles below `n`.
   */
  predicate ActiveIndex(active: seq<nat>, positions: seq<int>, n: nat) {
    && |positions| == n
    && (forall k :: 0 <= k < |active| ==> active[k] < n && positions[active[k]] == k)
    && (forall x :: 0 <= x < n ==> -1 <= positions[x] < |active| && (positions[x] >= 0 ==> active[positions[x]] == x))
  }

  /** What holds of the sweep's variables after the first `t` events. */
  predicate SweepInvariant(events: seq<Event>, n: nat, t: nat, active: seq<nat>, positions: seq<int>, collisions: seq<Pair>)
    requires t <= |events|
  {
    && ActiveIndex(active, positions, n)
    && (forall x :: 0 <= x < n ==> (positions[x] >= 0 <==> Open(events, x, t)))
    && AllIndexable(collisions, n)
    && NoRepeatedPair(collisions)
    && (forall a, b :: 0 <= a < b < n ==> ((a, b) in collisions <==> MetBefore(events, a, b, t)))
  }

  lemma {:induction false} OpenHasStarted(events: seq<Event>, x: nat, t: nat)
    requires t <= |events|
    ensures Open(events, x, t) ==> StartedBefore(events, x, t)
  {
    if t > 0 {
      OpenHasStarted(events, x, t - 1);
    }
  }

  lemma {:induction false} MetHasStarted(events: seq<Event>, a: nat, b: nat, t: nat)
    requires t <= |events|
    ensures MetBefore(events, a, b, t) ==> StartedBefore(events, a, t) && StartedBefore(events, b, t)
  {
    if t > 0 {
      MetHasStarted(events, a, b, t - 1);
      OpenHasStarted(events, a, t - 1);
      OpenHasStarted(events, b, t - 1);
    }
  }

  lemma {:induction false} StartWitness(events: seq<Event>, x: nat, t: nat) returns (p: nat)
    requires t <= |events| && StartedBefore(events, x, t)
    ensures p < t && IsStartOf(events[p], x)
  {
    if IsStartOf(events[t - 1], x) {
      p := t - 1;
    } else {
      p := StartWitness(events, x, t - 1);
    }
  }

  /** With no end listed twice, a start event is the first start of its particle. */
  lemma FirstStart(events: seq<Event>, x: nat, t: nat)
    requires DistinctTags(events) && t < |events| && IsStartOf(events[t], x)
    ensures !StartedBefore(events, x, t)
    ensures !Open(events, x, t)
  {
    OpenHasStarted(events, x, t);
    if StartedBefore(events, x, t) {
      var p := StartWitness(events, x, t);
      assert SameTag(events[p], events[t]);
    }
  }

  /** `active.push(id)` with `active_positions[id] = active.len()` keeps the reverse index. */
  lemma PushKeepsIndex(active: seq<nat>, positions: seq<int>, n: nat, id: nat)
    requires ActiveIndex(active, positions, n) && id < n && positions[id] < 0
    ensures ActiveIndex(active + [id], positions[id := |active|], n)
  {
    forall k | 0 <= k < |active|
      ensures active[k] != id
    {
      assert positions[active[k]] == k;
    }
  }

  /**
   * `active.swap_remove(pos)`, then `active_positions[active[pos]] = pos`
   * when an element was moved into `pos`, then `active_positions[id] = -1`:
   * the reverse index stays exact and only `id` leaves the active set.
   */
  lemma RemoveKeepsIndex(active: seq<nat>, positions: seq<int>, n: nat, id: nat)
    requires ActiveIndex(active, positions, n) && id < n && positions[id] >= 0
    ensures var pos := positions[id];
      var rest := active[pos := active[|active| - 1]][..|active| - 1];
      var repaired := (if pos < |rest| then positions[rest[pos] := pos] else positions)[id := -1];
      && ActiveIndex(rest, repaired, n)
      && forall x :: 0 <= x < n ==> (repaired[x] >= 0 <==> x != id && positions[x] >= 0)
  {
    var pos := positions[id];
    var last := active[|active| - 1];
    var rest := active[pos := last][..|active| - 1];
    var moved := if pos < |rest| then positions[rest[pos] := pos] else positions;
    var repaired := moved[id := -1];
    assert active[pos] == id;
    assert positions[last] == |active| - 1;
    forall k | 0 <= k < |rest|
      ensures rest[k] < n && repaired[rest[k]] == k
    {
      if k == pos {
        assert rest[k] == last && last != id;
      } else {
        assert rest[k] == active[k];
        assert positions[active[k]] == k;
        assert active[k] != id && active[k] != last;
      }
    }
    forall x | 0 <= x < n
      ensures -1 <= repaired[x] < |rest| && (repaired[x] >= 0 ==> rest[repaired[x]] == x)
      ensures repaired[x] >= 0 <==> x != id && positions[x] >= 0
    {
      if x != id && pos < |rest| && x == last {
        assert repaired[x] == pos;
      } else if x != id && positions[x] >= 0 {
        var k := positions[x];
        assert active[k] == x && k != pos;
        assert k != |active| - 1;
        assert repaired[x] == k && rest[k] == x;
      }
    }
  }

  /** The pairs a start of `id` emits are `(min, max)` of `id` and each active particle. */
  lemma StartPairsIndexable(active: seq<nat>, positions: seq<int>, n: nat, id: nat)
    requires ActiveIndex(active, positions, n) && id < n && positions[id] < 0
    ensures AllIndexable(PairsWith(id, active), n)
  {
    forall k | 0 <= k < |active|
      ensures active[k] != id
    {
      assert positions[active[k]] == k;
    }
  }

  /** A pair is emitted at a start of `id` exactly when `id` is one end and the other is open. */
  lemma StartPairsMembers(events: seq<Event>, n: nat, t: nat, active: seq<nat>, positions: seq<int>, collisions: seq<Pair>)
    requires t < |events| && IdsBelow(events, n) && !events[t].isEnd
    requires SweepInvariant(events, n, t, active, positions, collisions)
    ensures forall a, b :: 0 <= a < b < n ==>
      ((a, b) in collisions + PairsWith(events[t].id, active) <==> MetBefore(events, a, b, t + 1))
  {
    var id := events[t].id;
    var added := PairsWith(id, active);
    forall a, b | 0 <= a < b < n
      ensures (a, b) in collisions + added <==> MetBefore(events, a, b, t + 1)
    {
      if (a, b) in added {
        var k :| 0 <= k < |added| && added[k] == (a, b);
        assert positions[active[k]] == k;
      }
      if IsStartOf(events[t], a) && Open(events, b, t) {
        assert added[positions[b]] == (a, b);
      }
      if IsStartOf(events[t], b) && Open(events, a, t) {
        assert added[positions[a]] == (a, b);
      }
    }
  }

  /** A start of a particle that never started before repeats no earlier pair. */
  lemma StartPairsFresh(events: seq<Event>, n: nat, t: nat, active: seq<nat>, positions: seq<int>, collisions: seq<Pair>)
    requires t < |events| && IdsBelow(events, n) && DistinctTags(events) && !events[t].isEnd
    requires SweepInvariant(events, n, t, active, positions, collisions)
    requires positions[events[t].id] < 0
    ensures NoRepeatedPair(collisions + PairsWith(events[t].id, active))
  {
    var id := events[t].id;
    FirstStart(events, id, t);
    var added := PairsWith(id, active);
    var all := collisions + added;
    forall p, q | 0 <= p < q < |all|
      ensures !SameUnordered(all[p], all[q])
    {
      if p >= |collisions| {
        assert all[p] == added[p - |collisions|] && all[q] == added[q - |collisions|];
        assert positions[active[p - |collisions|]] == p - |collisions|;
        assert positions[active[q - |collisions|]] == q - |collisions|;
        assert positions[id] < 0;
      } else if q >= |collisions| {
        var c := collisions[p];
        assert all[p] == c && all[q] == added[q - |collisions|];
        assert Indexable(c, n);
        if SameUnordered(c, all[q]) {
          assert c.0 == id || c.1 == id;
          assert c in collisions;
          MetHasStarted(events, c.0, c.1, t);
        }
      }
    }
  }

  /** A start event emits one pair per active particle and makes its particle active. */
  lemma StartStep(events: seq<Event>, n: nat, t: nat, active: seq<nat>, positions: seq<int>, collisions: seq<Pair>)
    requires t < |events| && IdsBelow(events, n) && DistinctTags(events) && !events[t].isEnd
    requires SweepInvariant(events, n, t, active, positions, collisions)
    ensures positions[events[t].id] == -1
    ensures SweepInvariant(events, n, t + 1, active + [events[t].id], positions[events[t].id := |active|],
      collisions + PairsWith(events[t].id, active))
  {
    var id := events[t].id;
    FirstStart(events, id, t);
    PushKeepsIndex(active, positions, n, id);
    StartPairsIndexable(active, positions, n, id);
    StartPairsMembers(events, n, t, active, positions, collisions);
    StartPairsFresh(events, n, t, active, positions, collisions);
    var moved := positions[id := |active|];
    forall x | 0 <= x < n
      ensures moved[x] >= 0 <==> Open(events, x, t + 1)
    {
      if x != id {
        assert moved[x] == positions[x];
      }
    }
    var all := collisions + PairsWith(id, active);
    assert AllIndexable(all, n) by {
      forall k | 0 <= k < |all|
        ensures Indexable(all[k], n)
      {
        if k >= |collisions| {
          assert all[k] == PairsWith(id, active)[k - |collisions|];
        }
      }
    }
  }

  /**
   * `find_collisions_sort_sweep`, step 3, over ids below `n`
   * (`active_positions` has `n` entries).
   */
  method Sweep(events: seq<Event>, n: nat) returns (collisions: seq<Pair>)
    requires IdsBelow(events, n) && DistinctTags(events)
    ensures AllIndexable(collisions, n)
    ensures NoRepeatedPair(collisions)
    ensures forall a, b :: 0 <= a < b < n ==> ((a, b) in collisions <==> MetBefore(events, a, b, |events|))
  {
    collisions := [];
    var active: seq<nat> := [];
    var positions: seq<int> := seq(n, _ => -1);
    var t := 0;
    while t < |events|
      invariant t <= |events|
      invariant SweepInvariant(events, n, t, active, positions, collisions)
    {
      var id := events[t].id;
      if !events[t].isEnd {
        StartStep(events, n, t, active, positions, collisions);
        collisions := PushPairsWith(collisions, id, active);
        positions := positions[id := |active|];
        active := active + [id];
      } else {
        var pos := positions[id];
        if pos >= 0 {
          RemoveKeepsIndex(active, positions, n, id);
          var last := active[|active| - 1];
          active := active[pos := last][..|active| - 1];
          if pos < |active| {
            positions := positions[active[pos] := pos];
          }
          positions := positions[id := -1];
        }
      }
      t := t + 1;
    }
  }

  /**
   * With one start at `s` and one end at `e`, particle `x` is open after
   * `t` events exactly when its start is among them and its end does not
   * come between the start and `t` (an end before the start finds `x`
   * inactive and does nothing).
   */
  lemma {:induction false} OpenBetween(events: seq<Event>, x: nat, s: nat, e: nat, t: nat)
    requires DistinctTags(events) && s < |events| && e < |events| && t <= |events|
    requires IsStartOf(events[s], x) && IsEndOf(events[e], x)
    ensures Open(events, x, t) <==> (s < t && !(s < e < t))
  {
    if t > 0 {
      OpenBetween(events, x, s, e, t - 1);
      var u := t - 1;
      if events[u].id == x {
        if u < s {
          assert !SameTag(events[u], events[s]);
        } else if s < u {
          assert !SameTag(events[s], events[u]);
        }
        if u < e {
          assert !SameTag(events[u], events[e]);
        } else if e < u {
          assert !SameTag(events[e], events[u]);
        }
      }
    }
  }

  /** A start of `a` while `b` is open is a meeting, counted from then on. */
  lemma {:induction false} MetFrom(events: seq<Event>, a: nat, b: nat, s: nat, t: nat)
    requires s < t <= |events| && IsStartOf(events[s], a) && Open(events, b, s)
    ensures MetBefore(events, a, b, t) && MetBefore(events, b, a, t)
  {
    if s < t - 1 {
      MetFrom(events, a, b, s, t - 1);
    }
  }

  /**
   * Completeness of the sweep on a list sorted from index 1 with current
   * keys: two particles whose x-intervals overlap (strictly) meet, whatever
   * `events[0]` is.
   */
  lemma SweepMeetsOverlappingIntervals(events: seq<Event>, bodies: seq<Body>, a: nat, b: nat)
    requires WellFormed(events, |bodies|) && KeysMatch(events, bodies) && Sorted(events, 1, |events|)
    requires a < b < |bodies|
    requires StartKey(bodies[a]) < EndKey(bodies[b]) && StartKey(bodies[b]) < EndKey(bodies[a])
    ensures MetBefore(events, a, b, |events|)
  {
    assert HasStart(events, a) && HasEnd(events, a) && HasStart(events, b) && HasEnd(events, b);
    var sa :| 0 <= sa < |events| && IsStartOf(events[sa], a);
    var ea :| 0 <= ea < |events| && IsEndOf(events[ea], a);
    var sb :| 0 <= sb < |events| && IsStartOf(events[sb], b);
    var eb :| 0 <= eb < |events| && IsEndOf(events[eb], b);
    assert events[sa].key == StartKey(bodies[a]) && events[ea].key == EndKey(bodies[a]);
    assert events[sb].key == StartKey(bodies[b]) && events[eb].key == EndKey(bodies[b]);
    if sa < sb {
      MeetAtLaterStart(events, a, b, sa, ea, sb);
    } else {
      assert sa != sb;
      MeetAtLaterStart(events, b, a, sb, eb, sa);
    }
  }

  /**
   * When `x` starts before `y` and `y` starts at a key below `x`'s end key,
   * `x` is still open at `y`'s start, so the two meet.
   */
  lemma MeetAtLaterStart(events: seq<Event>, x: nat, y: nat, sx: nat, ex: nat, sy: nat)
    requires DistinctTags(events) && Sorted(events, 1, |events|)
    requires sx < sy < |events| && ex < |events|
    requires IsStartOf(events[sx], x) && IsEndOf(events[ex], x) && IsStartOf(events[sy], y)
    requires events[sy].key < events[ex].key
    ensures MetBefore(events, x, y, |events|) && MetBefore(events, y, x, |events|)
  {
    OpenBetween(events, x, sx, ex, sy);
    MetFrom(events, y, x, sy, |events|);
  }

  /**
   * Every pair the naive loop reports, the sweep reports too: the sweep is
   * a conservative filter for the exact overlap test.
   */
  lemma SweepMeetsOverlapping(events: seq<Event>, bodies: seq<Body>, a: nat, b: nat)
    requires WellFormed(events, |bodies|) && KeysMatch(events, bodies) && Sorted(events, 1, |events|)
    requires a < b < |bodies| && Overlaps(bodies[a], bodies[b])
    ensures MetBefore(events, a, b, |events|)
  {
    OverlapMeetsOnX(bodies[a], bodies[b]);
    SweepMeetsOverlappingIntervals(events, bodies, a, b);
  }

  /**
   * `find_collisions_sort_sweep` as a whole: refresh keys, append the events
   * of new particles, insertion-sort from index 1, sweep. Returns the new
   * event list and the candidate pairs.
   */
  method SortSweep(events: seq<Event>, bodies: seq<Body>) returns (sorted: seq<Event>, collisions: seq<Pair>)
    requires WellFormed(events, |events| / 2) && |events| / 2 <= |bodies|
    ensures sorted == SortedFrom(Refreshed(events, bodies) + NewEvents(bodies, |events| / 2, |bodies|), 1)
    ensures WellFormed(sorted, |bodies|) && KeysMatch(sorted, bodies)
    ensures Sorted(sorted, 1, |sorted|)
    ensures |events| > 0 ==> SameTag(sorted[0], events[0])
    ensures AllIndexable(collisions, |bodies|)
    ensures NoRepeatedPair(collisions)
    ensures forall a, b :: 0 <= a < b < |bodies| ==> ((a, b) in collisions <==> MetBefore(sorted, a, b, |sorted|))
    ensures forall a, b :: 0 <= a < b < |bodies| && Overlaps(bodies[a], bodies[b]) ==> (a, b) in collisions
  {
    var m := |events| / 2;
    var refreshed := RefreshKeys(events, bodies);
    RefreshKeepsWellFormed(events, bodies, m);
    var extended := AppendNewEvents(refreshed, bodies);
    assert |refreshed| / 2 == m;
    AppendKeepsWellFormed(refreshed, bodies, m);
    sorted := SortEvents(extended, 1);
    SortedFromCorrect(extended, 1);
    PermutationKeepsWellFormed(extended, sorted, |bodies|, bodies);
    collisions := Sweep(sorted, |bodies|);
    forall a, b | 0 <= a < b < |bodies| && Overlaps(bodies[a], bodies[b])
      ensures (a, b) in collisions
    {
      SweepMeetsOverlapping(sorted, bodies, a, b);
    }
  }

  /**
   * What a sweep's output is known to be: pairs `i < j < len`, none twice,
   * and every truly overlapping pair among them.
   */
  predicate SweptPairs(ps: seq<Pair>, bodies: seq<Body>) {
    && AllIndexable(ps, |bodies|)
    && NoRepeatedPair(ps)
    && forall a, b :: 0 <= a < b < |bodies| && Overlaps(bodies[a], bodies[b]) ==> (a, b) in ps
  }

  /**
   * The event list of `new`: the two events of every particle pushed in
   * index order, then stably sorted by key, so that equal keys stay in the
   * order they were pushed.
   */
  method InitialEvents(verlets: seq<Body>) returns (sorted: seq<Event>)
    ensures multiset(sorted) == multiset(NewEvents(verlets, 0, |verlets|))
    ensures StableSort.StablySorted(sorted)
    ensures WellFormed(sorted, |verlets|) && KeysMatch(sorted, verlets) && Sorted(sorted, 0, |sorted|)
    ensures forall p, q :: 0 <= p < q < |sorted| && sorted[p].key == sorted[q].key ==> StableSort.PushRank(sorted[p]) < StableSort.PushRank(sorted[q])
  {
    var initial := AppendNewEvents([], verlets);
    assert initial == NewEvents(verlets, 0, |verlets|);
    InitialEventsWellFormed(verlets);
    sorted := StableSort.SortStably(initial);
    PermutationKeepsWellFormed(initial, sorted, |verlets|, verlets);
    StableSort.StablySortedKeys(sorted);
  }
}
