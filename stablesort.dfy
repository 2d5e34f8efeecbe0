/**
 * The sort of `new`: `events.sort_by(...)` on the key alone. The library
 * sort is stable, so events with equal keys keep the order they were
 * pushed in: start before end of each particle, particles in index order.
 * Ordering by key and then by push position is a total order on the pushed
 * list, so every stable sort of it gives the same sequence
 * (`StablySortedUnique`), and an insertion sort under that order stands for
 * the library sort.
 */
module StableSort {
  import opened Particles
  import opened SweepEvents
  import opened InsertionSort

  /** Where `new` pushes an event: the start of particle `i` at `2 * i`, its end at `2 * i + 1`. */
  function PushRank(e: Event): nat {
    2 * e.id + (if e.isEnd then 1 else 0)
  }

  /** The pushed list lists its events in push-rank order: entry `k` has rank `k`. */
  lemma PushRankIsPosition(bodies: seq<Body>, k: nat)
    requires k < |NewEvents(bodies, 0, |bodies|)|
    ensures PushRank(NewEvents(bodies, 0, |bodies|)[k]) == k
  {
    NewEventTag(bodies, 0, k);
  }

  /** `e` may come before `f` in a stable sort of the pushed list: a lower key, or the same key and pushed no later. */
  predicate StableLeq(e: Event, f: Event) {
    e.key < f.key || (e.key == f.key && PushRank(e) <= PushRank(f))
  }

  predicate StablySorted(s: seq<Event>) {
    forall p, q :: 0 <= p < q < |s| ==> StableLeq(s[p], s[q])
  }

  /** `StableLeq` is total, and two events each at or below the other are the same event. */
  lemma StableTotal(e: Event, f: Event)
    ensures StableLeq(e, f) || StableLeq(f, e)
    ensures StableLeq(e, f) && StableLeq(f, e) ==> e == f
  {
  }

  lemma StableHeadsAgree(s: seq<Event>, t: seq<Event>)
    requires StablySorted(s) && StablySorted(t)
    requires multiset(s) == multiset(t) && s != []
    ensures t != [] && s[0] == t[0]
  {
    assert s[0] in multiset(t);
    assert t[0] in multiset(s);
    var i :| 0 <= i < |s| && s[i] == t[0];
    var j :| 0 <= j < |t| && t[j] == s[0];
    assert StableLeq(s[0], s[i]) && StableLeq(t[0], t[j]);
    StableTotal(s[0], t[0]);
  }

  lemma StableTails(s: seq<Event>, t: seq<Event>)
    requires StablySorted(s) && StablySorted(t)
    requires multiset(s) == multiset(t) && s != [] && t != [] && s[0] == t[0]
    ensures StablySorted(s[1..]) && StablySorted(t[1..])
    ensures multiset(s[1..]) == multiset(t[1..])
  {
    assert s == [s[0]] + s[1..];
    assert t == [t[0]] + t[1..];
    assert multiset(s[1..]) == multiset(s) - multiset{s[0]};
    assert multiset(t[1..]) == multiset(t) - multiset{t[0]};
  }

  /**
   * Two arrangements of the same events, each in key order with equal keys
   * in push order, are the same sequence: whatever stable sort the library
   * uses, its result is fixed.
   */
  lemma {:induction false} StablySortedUnique(s: seq<Event>, t: seq<Event>)
    requires StablySorted(s) && StablySorted(t)
    requires multiset(s) == multiset(t)
    ensures s == t
  {
    if s == [] {
      assert |t| == |multiset(t)| == 0;
    } else {
      StableHeadsAgree(s, t);
      StableTails(s, t);
      StablySortedUnique(s[1..], t[1..]);
      assert s == [s[0]] + s[1..];
      assert t == [t[0]] + t[1..];
    }
  }

  /** `e` placed after every event at or below it and before the rest keeps the list sorted. */
  lemma InsertedStablySorted(s: seq<Event>, k: nat, e: Event)
    requires StablySorted(s) && k <= |s|
    requires forall m :: 0 <= m < k ==> StableLeq(s[m], e)
    requires k < |s| ==> !StableLeq(s[k], e)
    ensures StablySorted(s[..k] + [e] + s[k..])
  {
    var r := s[..k] + [e] + s[k..];
    forall a, b | 0 <= a < b < |r| ensures StableLeq(r[a], r[b]) {
      if b > k && a <= k {
        assert r[b] == s[b - 1];
        if a == k {
          assert StableLeq(s[k], s[b - 1]);
          StableTotal(s[k], e);
        } else {
          assert r[a] == s[a];
        }
      } else if b == k {
        assert r[a] == s[a];
      } else if a > k {
        assert r[a] == s[a - 1] && r[b] == s[b - 1];
      } else {
        assert r[a] == s[a] && r[b] == s[b];
      }
    }
  }

  /** A new end placed anywhere in a list without repeated ends gives a list without repeated ends. */
  lemma InsertedDistinct(s: seq<Event>, k: nat, e: Event)
    requires DistinctTags(s) && k <= |s|
    requires forall m :: 0 <= m < |s| ==> !SameTag(s[m], e)
    ensures DistinctTags(s[..k] + [e] + s[k..])
  {
    var r := s[..k] + [e] + s[k..];
    forall a, b | 0 <= a < b < |r| ensures !SameTag(r[a], r[b]) {
      var a' := if a < k then a else a - 1;
      var b' := if b < k then b else b - 1;
      if a == k {
        assert r[b] == s[b'];
      } else if b == k {
        assert r[a] == s[a'];
      } else {
        assert r[a] == s[a'] && r[b] == s[b'] && a' < b';
      }
    }
  }

  /** Inserts `e` into a sorted list after every event at or below it. */
  method InsertEvent(sorted: seq<Event>, e: Event) returns (r: seq<Event>)
    requires StablySorted(sorted)
    ensures StablySorted(r)
    ensures multiset(r) == multiset(sorted) + multiset{e}
    ensures DistinctTags(sorted) && (forall m :: 0 <= m < |sorted| ==> !SameTag(sorted[m], e)) ==> DistinctTags(r)
  {
    var k := 0;
    while k < |sorted| && StableLeq(sorted[k], e)
      invariant k <= |sorted|
      invariant forall m :: 0 <= m < k ==> StableLeq(sorted[m], e)
    {
      k := k + 1;
    }
    InsertedStablySorted(sorted, k, e);
    if DistinctTags(sorted) && (forall m :: 0 <= m < |sorted| ==> !SameTag(sorted[m], e)) {
      InsertedDistinct(sorted, k, e);
    }
    r := sorted[..k] + [e] + sorted[k..];
    assert sorted == sorted[..k] + sorted[k..];
  }

  /** The stable sort by key: the events in key order, equal keys in push order. */
  method SortStably(events: seq<Event>) returns (sorted: seq<Event>)
    ensures StablySorted(sorted)
    ensures multiset(sorted) == multiset(events)
    ensures DistinctTags(events) ==> DistinctTags(sorted)
  {
    sorted := [];
    var i := 0;
    while i < |events|
      invariant i <= |events|
      invariant StablySorted(sorted)
      invariant multiset(sorted) == multiset(events[..i])
      invariant DistinctTags(events) ==> DistinctTags(sorted)
    {
      if DistinctTags(events) {
        forall m | 0 <= m < |sorted| ensures !SameTag(sorted[m], events[i]) {
          assert sorted[m] in multiset(events[..i]);
          var j :| 0 <= j < i && events[..i][j] == sorted[m];
          assert events[j] == sorted[m];
        }
      }
      sorted := InsertEvent(sorted, events[i]);
      assert events[..i + 1] == events[..i] + [events[i]];
      i := i + 1;
    }
    assert events[..i] == events;
  }

  /**
   * A list sorted this way is in key order, and where keys tie the event
   * pushed first comes first (strictly, when no end is listed twice).
   */
  lemma StablySortedKeys(s: seq<Event>)
    requires StablySorted(s) && DistinctTags(s)
    ensures Sorted(s, 0, |s|)
    ensures forall p, q :: 0 <= p < q < |s| && s[p].key == s[q].key ==> PushRank(s[p]) < PushRank(s[q])
  {
    forall p, q | 0 <= p < q < |s| && s[p].key == s[q].key
      ensures PushRank(s[p]) < PushRank(s[q])
    {
      assert StableLeq(s[p], s[q]) && !SameTag(s[p], s[q]);
    }
  }

  /**
   * Two particles whose intervals touch: the end of particle 0 and the
   * start of particle 1 share the key 1. Whatever stable sort orders the
   * pushed list, the end of 0 stays before the start of 1.
   */
  lemma TouchingIntervalsKeepPushOrder(b0: Body, b1: Body, sorted: seq<Event>)
    requires b0.position.x == 0.0 && b0.radius == 1.0 && b1.position.x == 2.0 && b1.radius == 1.0
    requires StablySorted(sorted) && multiset(sorted) == multiset(NewEvents([b0, b1], 0, 2))
    ensures sorted == [Event(-1.0, false, 0), Event(1.0, true, 0), Event(1.0, false, 1), Event(3.0, true, 1)]
  {
    var pushed := NewEvents([b0, b1], 0, 2);
    assert pushed == [Event(-1.0, false, 0), Event(1.0, true, 0), Event(1.0, false, 1), Event(3.0, true, 1)];
    StablySortedUnique(sorted, pushed);
  }
}
