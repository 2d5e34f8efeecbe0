/**
 * The solver of `ball-engine/src/physics/solver.rs`: `subdivision`
 * substeps per `update`, each with the sort-and-sweep broad phase over a
 * persistent event list, and particles recoloured from the recorded
 * colour frames as they are added.
 */
module BallEngine {
  import opened Pairs
  import opened Particles
  import opened SweepEvents
  import opened InsertionSort
  import opened StableSort
  import opened SweepAndPrune
  import opened NarrowPhase
  import opened ColorFrames
  import opened Substeps

  class Solver {
    var verlets: seq<Body>
    const gravity: Vec2
    const constraintRadius: real
    var events: seq<Event>
    var colorFrames: seq<Color>
    var currentFrame: nat
    const subdivision: nat

    /**
     * The event list describes the first `events.len() / 2` particles
     * (particles are only ever appended), and the frame counter never
     * passes the end of the frames.
     */
    ghost predicate Valid()
      reads this
    {
      && WellFormed(events, |events| / 2) && |events| / 2 <= |verlets|
      && currentFrame <= |colorFrames|
    }

    /**
     * `new`: a start event `x - r` and an end event `x + r` for every
     * particle, in index order, then stably sorted by key (equal keys keep
     * their push order); no colour frames yet.
     */
    constructor (verlets: seq<Body>, gravity: Vec2, constraintRadius: real, subdivision: nat)
      ensures Valid()
      ensures this.verlets == verlets && this.gravity == gravity
      ensures this.constraintRadius == constraintRadius && this.subdivision == subdivision
      ensures multiset(events) == multiset(NewEvents(verlets, 0, |verlets|))
      ensures WellFormed(events, |verlets|) && KeysMatch(events, verlets) && Sorted(events, 0, |events|)
      ensures StablySorted(events)
      ensures forall p, q :: 0 <= p < q < |events| && events[p].key == events[q].key ==> PushRank(events[p]) < PushRank(events[q])
      ensures colorFrames == [] && currentFrame == 0
    {
      var sorted := InitialEvents(verlets);
      assert |sorted| / 2 == |verlets|;
      this.verlets := verlets;
      this.gravity := gravity;
      this.constraintRadius := constraintRadius;
      this.events := sorted;
      this.colorFrames := [];
      this.currentFrame := 0;
      this.subdivision := subdivision;
    }

    /**
     * `find_collisions_sort_sweep`: the keys are refreshed, the events of
     * particles added since are appended, `events[1..]` is insertion-sorted
     * and the sweep reports a pair for every two intervals that meet.
     */
    method FindCollisionsSortSweep() returns (collisions: seq<Pair>)
      requires Valid()
      modifies this
      ensures Valid() && |events| == 2 * |verlets|
      ensures verlets == old(verlets) && colorFrames == old(colorFrames) && currentFrame == old(currentFrame)
      ensures events == SortedFrom(Refreshed(old(events), verlets) + NewEvents(verlets, |old(events)| / 2, |verlets|), 1)
      ensures KeysMatch(events, verlets) && Sorted(events, 1, |events|)
      ensures |old(events)| > 0 ==> SameTag(events[0], old(events)[0])
      ensures SweptPairs(collisions, verlets)
      ensures forall a, b :: 0 <= a < b < |verlets| ==> ((a, b) in collisions <==> MetBefore(events, a, b, |events|))
    {
      events, collisions := SortSweep(events, verlets);
      assert |events| / 2 == |verlets|;
    }

    /**
     * One pass of the `update` loop, with step `dt`: the particles after
     * it are the narrow phase and integration over the swept pairs of the
     * particles after gravity and the walls.
     */
    method Substep(dt: real, stages: Stages)
      requires Valid()
      modifies this
      ensures Valid() && colorFrames == old(colorFrames) && currentFrame == old(currentFrame)
      ensures exists collisions ::
        && SweptPairs(collisions, Prepared(old(verlets), gravity, stages, dt))
        && verlets == Finished(Prepared(old(verlets), gravity, stages, dt), collisions, stages, dt)
    {
      verlets := ApplyGravity(verlets, gravity);
      verlets := ApplyWalls(verlets, stages.walls, dt);
      ghost var prepared := verlets;
      assert prepared == Prepared(old(verlets), gravity, stages, dt);
      var collisions := FindCollisionsSortSweep();
      verlets := SolveCollisions(verlets, collisions, stages.response, dt);
      verlets := UpdatePositions(verlets, stages.integrate, dt);
      assert Valid();
      assert SweptPairs(collisions, prepared) && verlets == Finished(prepared, collisions, stages, dt);
    }

    /** `update(dt)`: `subdivision` substeps of `dt / subdivision` each. */
    method Update(dt: real, stages: Stages)
      requires Valid()
      modifies this
      ensures Valid() && colorFrames == old(colorFrames) && currentFrame == old(currentFrame)
      ensures SameLooks(verlets, old(verlets))
    {
      var subDt := SubDt(dt, subdivision);
      var s := 0;
      while s < subdivision
        invariant Valid() && colorFrames == old(colorFrames) && currentFrame == old(currentFrame)
        invariant SameLooks(verlets, old(verlets))
      {
        Substep(subDt, stages);
        s := s + 1;
      }
    }

    /** `add_position`: the particle takes the next colour frame, if any, and is pushed. */
    method AddPosition(verlet: Body)
      requires Valid()
      modifies this
      ensures Valid() && events == old(events) && colorFrames == old(colorFrames)
      ensures verlets == old(verlets) + [StampOne(verlet, colorFrames, old(currentFrame))]
      ensures currentFrame == Advance(colorFrames, old(currentFrame))
    {
      var stamped := verlet;
      if |colorFrames| > 0 && currentFrame < |colorFrames| {
        stamped := stamped.(color := colorFrames[currentFrame]);
        currentFrame := currentFrame + 1;
      }
      verlets := verlets + [stamped];
    }

    /**
     * `add_positions`: the caller's particles are recoloured in place from
     * the next frames, returned, and appended in order.
     */
    method AddPositions(added: seq<Body>) returns (stamped: seq<Body>)
      requires Valid()
      modifies this
      ensures Valid() && events == old(events) && colorFrames == old(colorFrames)
      ensures stamped == Stamped(added, colorFrames, old(currentFrame))
      ensures verlets == old(verlets) + stamped
      ensures currentFrame == FrameAfter(|added|, colorFrames, old(currentFrame))
    {
      FrameAfterBound(|added|, colorFrames, currentFrame);
      stamped, currentFrame := StampAll(added, colorFrames, currentFrame);
      verlets := verlets + stamped;
    }

    /**
     * `load_colors` once the frames are read: the counter restarts at 0
     * and particle `k` takes frame `k` while there are frames.
     */
    method LoadColors(frames: seq<Color>)
      requires Valid()
      modifies this
      ensures Valid() && events == old(events) && colorFrames == frames
      ensures verlets == Stamped(old(verlets), frames, 0) && |verlets| == |old(verlets)|
      ensures currentFrame == Min(|verlets|, |frames|)
      ensures forall k :: 0 <= k < |verlets| ==>
        verlets[k] == if k < |frames| then old(verlets)[k].(color := frames[k]) else old(verlets)[k]
    {
      colorFrames := frames;
      currentFrame := 0;
      verlets, currentFrame := StampFromStart(verlets, frames);
    }
  }
}
