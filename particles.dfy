/**
 * The particle as the solvers' collision bookkeeping sees it, with the
 * exact (real-valued) overlap test of the narrow and naive phases.
 */
module Particles {
  datatype Vec2 = Vec2(x: real, y: real)

  /** An RGBA colour (`Vec4`). */
  datatype Color = Color(r: real, g: real, b: real, a: real)

  /**
   * One particle of `verlets`: its current position, the previous
   * position that stores its velocity, the acceleration gathered in this
   * substep, the acceleration and step length of the last integration
   * (`get_velocity` divides by `last_dt`), its radius, its density (which
   * `get_mass` reads) and its colour.
   */
  datatype Body = Body(position: Vec2, lastPosition: Vec2, acceleration: Vec2, lastAcceleration: Vec2,
                       lastDt: real, radius: real, density: real, color: Color)

  /**
   * `dist < min_dist` with `dist = |p - q|` and `min_dist = r_p + r_q`,
   * written without the square root: a length is never negative, so it is
   * below `min_dist` exactly when `min_dist` is positive and the squared
   * length is below its square.
   */
  predicate Overlaps(p: Body, q: Body) {
    var dx := p.position.x - q.position.x;
    var dy := p.position.y - q.position.y;
    var minDist := p.radius + q.radius;
    minDist > 0.0 && dx * dx + dy * dy < minDist * minDist
  }

  /** The left edge `x - r` of a particle's bounding interval on the x axis. */
  function StartKey(b: Body): real { b.position.x - b.radius }

  /** The right edge `x + r`. */
  function EndKey(b: Body): real { b.position.x + b.radius }

  /** A positive bound on `d * d` bounds `d` on both sides. */
  lemma SquareBound(d: real, s: real)
    requires s > 0.0 && d * d < s * s
    ensures -s < d < s
  {
  }

  /**
   * Two particles that overlap have overlapping x-intervals: the sweep's
   * intervals are a conservative filter for the true test.
   */
  lemma OverlapMeetsOnX(p: Body, q: Body)
    requires Overlaps(p, q)
    ensures StartKey(p) < EndKey(q) && StartKey(q) < EndKey(p)
  {
    var dx := p.position.x - q.position.x;
    var dy := p.position.y - q.position.y;
    var s := p.radius + q.radius;
    assert dy * dy >= 0.0;
    assert dx * dx < s * s;
    SquareBound(dx, s);
  }

  /** The overlap test does not depend on the order of the two particles. */
  lemma OverlapsSymmetric(p: Body, q: Body)
    ensures Overlaps(p, q) == Overlaps(q, p)
  {
    var dx := p.position.x - q.position.x;
    var dy := p.position.y - q.position.y;
    assert (-dx) * (-dx) == dx * dx && (-dy) * (-dy) == dy * dy;
  }
}
