/**
 * What every solver does with the candidate pairs and around them in one
 * substep: `solve_collisions` splits the particle vector at `j`, takes
 * `left[i]` and `right[0]`, and moves the two apart when they truly
 * overlap; the per-particle stages (gravity, walls, integration) visit the
 * particles in order. The float maths of the response, the walls and the
 * integrator are parameters; what is modelled is the indexing, which
 * particles a stage may touch, and the order of the stages.
 */
module NarrowPhase {
  import opened Pairs
  import opened Particles

  /** The position and previous position that `set_position` and `set_velocity` leave a particle with. */
  datatype Motion = Motion(position: Vec2, lastPosition: Vec2)

  /** The float collision response of two overlapping particles, given the step length. */
  type Response = (Body, Body, real) -> (Motion, Motion)

  /**
   * A float per-particle stage giving a particle's new position and
   * previous position from the step length: the wall constraint, or the
   * Verlet step of `update_position`.
   */
  type Motions = (Body, real) -> Motion

  /** A particle moved: only its position and previous position change. */
  function Moved(b: Body, m: Motion): (r: Body)
    ensures r.radius == b.radius && r.density == b.density && r.color == b.color && r.acceleration == b.acceleration
    ensures r.lastDt == b.lastDt && r.lastAcceleration == b.lastAcceleration
  {
    b.(position := m.position, lastPosition := m.lastPosition)
  }

  /**
   * `update_position(dt)`: the particle moves, the acceleration it used is
   * kept as `last_acceleration`, `dt` as `last_dt`, and the acceleration
   * is cleared.
   */
  function Integrated(b: Body, m: Motion, dt: real): Body {
    b.(position := m.position, lastPosition := m.lastPosition, lastAcceleration := b.acceleration,
       lastDt := dt, acceleration := Vec2(0.0, 0.0))
  }

  /** The two lists hold the same number of particles, each with the radius, density and colour it had. */
  predicate SameLooks(a: seq<Body>, b: seq<Body>) {
    |a| == |b| && forall k :: 0 <= k < |a| ==>
      a[k].radius == b[k].radius && a[k].density == b[k].density && a[k].color == b[k].color
  }

  /** `let (left, right) = verlets.split_at_mut(j); &mut left[i]; &mut right[0]` is in bounds. */
  predicate SplitInBounds(i: nat, j: nat, len: nat) {
    j <= len && i < j && 0 < len - j
  }

  /** The split succeeds exactly for the pairs the broad phases promise, `i < j < len`. */
  lemma SplitNeedsIndexable(p: Pair, len: nat)
    ensures SplitInBounds(p.0, p.1, len) <==> Indexable(p, len)
  {
  }

  /**
   * The particles after the body of `for (i, j) in collisions` for one
   * pair: when `dist < min_dist` both particles take the motion the
   * response gives them, otherwise nothing changes.
   */
  function ResolvePair(bodies: seq<Body>, p: Pair, response: Response, dt: real): (r: seq<Body>)
    requires Indexable(p, |bodies|)
    ensures |r| == |bodies|
  {
    var b1, b2 := bodies[p.0], bodies[p.1];
    if Overlaps(b1, b2) then
      var m := response(b1, b2, dt);
      bodies[p.0 := Moved(b1, m.0)][p.1 := Moved(b2, m.1)]
    else bodies
  }

  /** The particles after the whole loop over `collisions`, pair by pair in order. */
  function Resolved(bodies: seq<Body>, pairs: seq<Pair>, response: Response, dt: real): (r: seq<Body>)
    requires AllIndexable(pairs, |bodies|)
    ensures |r| == |bodies|
    decreases |pairs|
  {
    if pairs == [] then bodies
    else
      var init := pairs[..|pairs| - 1];
      ResolvePair(Resolved(bodies, init, response, dt), pairs[|pairs| - 1], response, dt)
  }

  /** No particle is in the pair. */
  predicate Untouched(pairs: seq<Pair>, k: nat) {
    forall q :: 0 <= q < |pairs| ==> pairs[q].0 != k && pairs[q].1 != k
  }

  /**
   * Resolving the pairs keeps every particle's radius, density, colour and
   * acceleration, and leaves a particle that is in no pair exactly as it
   * was.
   */
  lemma {:induction false} ResolvedFrame(bodies: seq<Body>, pairs: seq<Pair>, response: Response, dt: real)
    requires AllIndexable(pairs, |bodies|)
    ensures forall k :: 0 <= k < |bodies| ==>
      var r := Resolved(bodies, pairs, response, dt);
      && r[k].radius == bodies[k].radius && r[k].density == bodies[k].density && r[k].color == bodies[k].color
      && r[k].acceleration == bodies[k].acceleration
    ensures forall k :: 0 <= k < |bodies| && Untouched(pairs, k) ==> Resolved(bodies, pairs, response, dt)[k] == bodies[k]
    decreases |pairs|
  {
    if pairs != [] {
      var init := pairs[..|pairs| - 1];
      ResolvedFrame(bodies, init, response, dt);
      forall k | 0 <= k < |bodies| && Untouched(pairs, k)
        ensures Untouched(init, k)
      {
        forall q | 0 <= q < |init| ensures init[q].0 != k && init[q].1 != k {
          assert init[q] == pairs[q];
        }
      }
    }
  }

  /** A pair whose particles do not overlap when it comes up changes nothing. */
  lemma ResolveApart(bodies: seq<Body>, p: Pair, response: Response, dt: real)
    requires Indexable(p, |bodies|) && !Overlaps(bodies[p.0], bodies[p.1])
    ensures ResolvePair(bodies, p, response, dt) == bodies
  {
  }

  /** Resolving one list of pairs, then another, is resolving the two lists one after the other. */
  lemma {:induction false} ResolvedSplit(bodies: seq<Body>, a: seq<Pair>, b: seq<Pair>, response: Response, dt: real)
    requires AllIndexable(a + b, |bodies|)
    ensures AllIndexable(a, |bodies|) && AllIndexable(b, |bodies|)
    ensures Resolved(bodies, a + b, response, dt) == Resolved(Resolved(bodies, a, response, dt), b, response, dt)
    decreases |b|
  {
    assert forall k :: 0 <= k < |a| ==> (a + b)[k] == a[k];
    assert forall k :: 0 <= k < |b| ==> (a + b)[|a| + k] == b[k];
    if b != [] {
      var init := b[..|b| - 1];
      assert (a + b)[..|a + b| - 1] == a + init;
      ResolvedSplit(bodies, a, init, response, dt);
    } else {
      assert a + b == a;
    }
  }

  /** One pass of the loop: the pairs up to `k`, then pair `k`. */
  lemma ResolvedStep(bodies: seq<Body>, pairs: seq<Pair>, k: nat, next: nat, response: Response, dt: real)
    requires AllIndexable(pairs, |bodies|) && k < |pairs| && next == k + 1
    ensures AllIndexable(pairs[..k], |bodies|) && AllIndexable(pairs[..next], |bodies|)
    ensures Resolved(bodies, pairs[..next], response, dt) == ResolvePair(Resolved(bodies, pairs[..k], response, dt), pairs[k], response, dt)
  {
    assert pairs[..next][..k] == pairs[..k];
  }

  /**
   * `solve_collisions`, with the float response as a parameter: every
   * pair is split out of the vector at `j` and both halves indexed, which
   * needs `i < j < len` of every pair.
   */
  method SolveCollisions(bodies: seq<Body>, pairs: seq<Pair>, response: Response, dt: real) returns (r: seq<Body>)
    requires AllIndexable(pairs, |bodies|)
    ensures r == Resolved(bodies, pairs, response, dt)
  {
    r := bodies;
    var k := 0;
    while k < |pairs|
      invariant k <= |pairs| && AllIndexable(pairs[..k], |bodies|)
      invariant r == Resolved(bodies, pairs[..k], response, dt)
    {
      var next := k + 1;
      ResolvedStep(bodies, pairs, k, next, response, dt);
      var (i, j) := pairs[k];
      var left, right := r[..j], r[j..];
      var verlet1, verlet2 := left[i], right[0];
      if Overlaps(verlet1, verlet2) {
        var m := response(verlet1, verlet2, dt);
        r := r[i := Moved(verlet1, m.0)][j := Moved(verlet2, m.1)];
      }
      k := next;
    }
    assert pairs[..k] == pairs;
  }

  /** `verlet.add_acceleration(gravity)`. */
  function Accelerated(b: Body, gravity: Vec2): Body {
    b.(acceleration := Vec2(b.acceleration.x + gravity.x, b.acceleration.y + gravity.y))
  }

  /** The particles after `apply_gravity`: accelerations grow by `gravity`, nothing else changes. */
  function Gravitated(bodies: seq<Body>, gravity: Vec2): (r: seq<Body>)
    ensures SameLooks(r, bodies)
    ensures forall k :: 0 <= k < |bodies| ==>
      r[k].position == bodies[k].position && r[k].lastPosition == bodies[k].lastPosition
  {
    seq(|bodies|, k requires 0 <= k < |bodies| => Accelerated(bodies[k], gravity))
  }

  /** Applying gravity `g` and then `h` is applying their sum once. */
  lemma GravityAdds(bodies: seq<Body>, g: Vec2, h: Vec2)
    ensures Gravitated(Gravitated(bodies, g), h) == Gravitated(bodies, Vec2(g.x + h.x, g.y + h.y))
  {
    var lhs, rhs := Gravitated(Gravitated(bodies, g), h), Gravitated(bodies, Vec2(g.x + h.x, g.y + h.y));
    forall k | 0 <= k < |bodies| ensures lhs[k] == rhs[k] {
      assert lhs[k].acceleration == rhs[k].acceleration;
    }
  }

  /** `apply_gravity`: `for verlet in &mut self.verlets { verlet.add_acceleration(self.gravity) }`. */
  method ApplyGravity(bodies: seq<Body>, gravity: Vec2) returns (r: seq<Body>)
    ensures r == Gravitated(bodies, gravity)
  {
    r := bodies;
    var k := 0;
    while k < |bodies|
      invariant k <= |bodies| && |r| == |bodies|
      invariant forall m :: 0 <= m < k ==> r[m] == Accelerated(bodies[m], gravity)
      invariant forall m :: k <= m < |bodies| ==> r[m] == bodies[m]
    {
      r := r[k := Accelerated(r[k], gravity)];
      k := k + 1;
    }
  }

  /** The particles after the wall constraint: each is moved by the stage, and keeps its looks and acceleration. */
  function Walled(bodies: seq<Body>, walls: Motions, dt: real): (r: seq<Body>)
    ensures SameLooks(r, bodies)
    ensures forall k :: 0 <= k < |bodies| ==> r[k].acceleration == bodies[k].acceleration
  {
    seq(|bodies|, k requires 0 <= k < |bodies| =>
      var m := walls(bodies[k], dt);
      bodies[k].(position := m.position, lastPosition := m.lastPosition))
  }

  /** The wall loop: `for verlet in &mut self.verlets { ... set_position ... set_velocity ... }`. */
  method ApplyWalls(bodies: seq<Body>, walls: Motions, dt: real) returns (r: seq<Body>)
    ensures r == Walled(bodies, walls, dt)
  {
    r := bodies;
    var k := 0;
    while k < |bodies|
      invariant k <= |bodies| && |r| == |bodies|
      invariant forall m :: 0 <= m < k ==> r[m] == Moved(bodies[m], walls(bodies[m], dt))
      invariant forall m :: k <= m < |bodies| ==> r[m] == bodies[m]
    {
      r := r[k := Moved(r[k], walls(r[k], dt))];
      k := k + 1;
    }
  }

  /**
   * The particles after `update_positions`: every acceleration is used up
   * and kept as the last one, every particle records `dt` as its last step
   * length, and looks are kept.
   */
  function Advanced(bodies: seq<Body>, integrate: Motions, dt: real): (r: seq<Body>)
    ensures SameLooks(r, bodies)
    ensures forall k :: 0 <= k < |bodies| ==>
      r[k].acceleration == Vec2(0.0, 0.0) && r[k].lastAcceleration == bodies[k].acceleration && r[k].lastDt == dt
  {
    seq(|bodies|, k requires 0 <= k < |bodies| =>
      var m := integrate(bodies[k], dt);
      bodies[k].(position := m.position, lastPosition := m.lastPosition, lastAcceleration := bodies[k].acceleration,
                 lastDt := dt, acceleration := Vec2(0.0, 0.0)))
  }

  /** `update_positions`: `for verlet in &mut self.verlets { verlet.update_position(dt) }`. */
  method UpdatePositions(bodies: seq<Body>, integrate: Motions, dt: real) returns (r: seq<Body>)
    ensures r == Advanced(bodies, integrate, dt)
  {
    r := bodies;
    var k := 0;
    while k < |bodies|
      invariant k <= |bodies| && |r| == |bodies|
      invariant forall m :: 0 <= m < k ==> r[m] == Integrated(bodies[m], integrate(bodies[m], dt), dt)
      invariant forall m :: k <= m < |bodies| ==> r[m] == bodies[m]
    {
      r := r[k := Integrated(r[k], integrate(r[k], dt), dt)];
      k := k + 1;
    }
  }

  /** The float stages of a substep, each given the step length. */
  datatype Stages = Stages(walls: Motions, response: Response, integrate: Motions)

  /** Gravity, then the walls: the particles the broad phase of a substep looks at. */
  function Prepared(bodies: seq<Body>, gravity: Vec2, stages: Stages, dt: real): (r: seq<Body>)
    ensures SameLooks(r, bodies)
  {
    Walled(Gravitated(bodies, gravity), stages.walls, dt)
  }

  /** The narrow phase over the broad phase's pairs, then `update_position` on every particle. */
  function Finished(prepared: seq<Body>, pairs: seq<Pair>, stages: Stages, dt: real): (r: seq<Body>)
    requires AllIndexable(pairs, |prepared|)
    ensures SameLooks(r, prepared)
  {
    var resolved := Resolved(prepared, pairs, stages.response, dt);
    ResolvedFrame(prepared, pairs, stages.response, dt);
    Advanced(resolved, stages.integrate, dt)
  }
}
