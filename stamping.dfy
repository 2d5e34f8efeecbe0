/**
 * The colour-frame counter of the solvers: `add_position`, `add_positions`
 * and the loop at the end of `load_colors` hand out the recorded
 * `color_frames` in order, one frame per particle, and advance
 * `current_frame` while frames remain.
 */
module ColorFrames {
  import opened Particles

  /**
   * `!color_frames.is_empty() && current_frame < color_frames.len()`: the
   * next particle takes a frame. (`load_colors` tests only the second
   * half, which implies the first.)
   */
  predicate FrameLeft(frames: seq<Color>, current: nat) {
    |frames| > 0 && current < |frames|
  }

  /** The counter after one more particle. */
  function Advance(frames: seq<Color>, current: nat): nat {
    if FrameLeft(frames, current) then current + 1 else current
  }

  /** The counter after `n` particles, starting from `current`. */
  function FrameAfter(n: nat, frames: seq<Color>, current: nat): nat {
    if n == 0 then current else Advance(frames, FrameAfter(n - 1, frames, current))
  }

  /** One particle through the guarded `verlet.set_color(color_frames[current_frame])`. */
  function StampOne(b: Body, frames: seq<Color>, current: nat): Body {
    if FrameLeft(frames, current) then b.(color := frames[current]) else b
  }

  /** The particles after the stamping loop, stamped one after the other from `current`. */
  function Stamped(bodies: seq<Body>, frames: seq<Color>, current: nat): seq<Body>
    decreases |bodies|
  {
    if bodies == [] then []
    else
      var init := bodies[..|bodies| - 1];
      Stamped(init, frames, current) + [StampOne(bodies[|bodies| - 1], frames, FrameAfter(|init|, frames, current))]
  }

  function Min(a: nat, b: nat): nat {
    if a <= b then a else b
  }

  /**
   * The counter moves on by one per particle until it reaches the number
   * of frames, and never moves when it starts at or past it.
   */
  lemma {:induction false} FrameAfterClosed(n: nat, frames: seq<Color>, current: nat)
    ensures FrameAfter(n, frames, current) == if current < |frames| then Min(current + n, |frames|) else current
  {
    if n > 0 {
      FrameAfterClosed(n - 1, frames, current);
    }
  }

  /** A counter within the frames stays within them: `current_frame <= color_frames.len()` is kept. */
  lemma FrameAfterBound(n: nat, frames: seq<Color>, current: nat)
    requires current <= |frames|
    ensures current <= FrameAfter(n, frames, current) <= |frames|
  {
    FrameAfterClosed(n, frames, current);
  }

  /**
   * Particle `k` takes frame `current + k` when there is one and keeps its
   * colour otherwise; nothing else about a particle changes.
   */
  lemma {:induction false} StampedClosed(bodies: seq<Body>, frames: seq<Color>, current: nat)
    ensures |Stamped(bodies, frames, current)| == |bodies|
    ensures forall k :: 0 <= k < |bodies| ==>
      Stamped(bodies, frames, current)[k] == if current + k < |frames| then bodies[k].(color := frames[current + k]) else bodies[k]
    decreases |bodies|
  {
    if bodies != [] {
      var init := bodies[..|bodies| - 1];
      StampedClosed(init, frames, current);
      FrameAfterClosed(|init|, frames, current);
    }
  }

  /** Counting `m` particles, then `n` more, is counting `m + n`. */
  lemma {:induction false} FrameAfterSplit(m: nat, n: nat, frames: seq<Color>, current: nat)
    ensures FrameAfter(m + n, frames, current) == FrameAfter(n, frames, FrameAfter(m, frames, current))
  {
    if n > 0 {
      FrameAfterSplit(m, n - 1, frames, current);
      assert m + n - 1 == m + (n - 1);
    }
  }

  /**
   * Stamping two batches one after the other, the second from where the
   * first left the counter, is stamping them together: calling
   * `add_position` once per particle is `add_positions` on all of them.
   */
  lemma {:induction false} StampedSplit(a: seq<Body>, b: seq<Body>, frames: seq<Color>, current: nat)
    ensures Stamped(a + b, frames, current) == Stamped(a, frames, current) + Stamped(b, frames, FrameAfter(|a|, frames, current))
    ensures FrameAfter(|a + b|, frames, current) == FrameAfter(|b|, frames, FrameAfter(|a|, frames, current))
    decreases |b|
  {
    var mid := FrameAfter(|a|, frames, current);
    FrameAfterSplit(|a|, |b|, frames, current);
    if b == [] {
      assert a + b == a;
    } else {
      var init, last := b[..|b| - 1], b[|b| - 1];
      StampedSplit(a, init, frames, current);
      FrameAfterSplit(|a|, |init|, frames, current);
      assert (a + b)[..|a + b| - 1] == a + init;
      assert (a + b)[|a + b| - 1] == last;
      var one := StampOne(last, frames, FrameAfter(|init|, frames, mid));
      assert Stamped(a + b, frames, current) == Stamped(a + init, frames, current) + [one];
      assert Stamped(b, frames, mid) == Stamped(init, frames, mid) + [one];
    }
  }

  /** The counter before the first `i` particles were stamped, and the counter after. */
  lemma FrameStep(i: nat, next: nat, frames: seq<Color>, current: nat)
    requires next == i + 1
    ensures FrameAfter(next, frames, current) == Advance(frames, FrameAfter(i, frames, current))
  {
  }

  /** Stamping one more particle extends the stamped prefix by that particle. */
  lemma StampedStep(bodies: seq<Body>, i: nat, next: nat, frames: seq<Color>, current: nat)
    requires i < |bodies| && next == i + 1
    ensures Stamped(bodies[..next], frames, current) ==
      Stamped(bodies[..i], frames, current) + [StampOne(bodies[i], frames, FrameAfter(i, frames, current))]
  {
    assert bodies[..next][..i] == bodies[..i];
  }

  /** Overwriting the first element after a prefix. */
  lemma ReplaceAt(pre: seq<Body>, rest: seq<Body>, x: Body)
    requires |rest| > 0
    ensures (pre + rest)[|pre| := x] == pre + [x] + rest[1..]
  {
  }

  /**
   * `for verlet in verlets.iter_mut() { if ... { verlet.set_color(...);
   * current_frame += 1; } }`: the particles are recoloured in place, one
   * after the other, and the new counter is returned.
   */
  method StampAll(bodies: seq<Body>, frames: seq<Color>, current: nat) returns (stamped: seq<Body>, next: nat)
    ensures stamped == Stamped(bodies, frames, current)
    ensures next == FrameAfter(|bodies|, frames, current)
  {
    stamped := bodies;
    next := current;
    var i := 0;
    while i < |bodies|
      invariant 0 <= i <= |bodies| && |stamped| == |bodies|
      invariant stamped == Stamped(bodies[..i], frames, current) + bodies[i..]
      invariant next == FrameAfter(i, frames, current)
    {
      var step := i + 1;
      ghost var done := Stamped(bodies[..i], frames, current);
      StampedStep(bodies, i, step, frames, current);
      FrameStep(i, step, frames, current);
      if |frames| > 0 && next < |frames| {
        stamped := stamped[i := stamped[i].(color := frames[next])];
        next := next + 1;
      }
      ReplaceAt(done, bodies[i..], stamped[i]);
      assert bodies[i..][1..] == bodies[step..];
      i := step;
    }
    assert bodies[..i] == bodies;
  }

  /**
   * The loop at the end of `load_colors`: with the counter reset to zero,
   * particle `k` takes frame `k` while frames remain, and the counter ends
   * at the smaller of the two counts.
   */
  method StampFromStart(bodies: seq<Body>, frames: seq<Color>) returns (stamped: seq<Body>, next: nat)
    ensures stamped == Stamped(bodies, frames, 0) && |stamped| == |bodies|
    ensures next == FrameAfter(|bodies|, frames, 0) == Min(|bodies|, |frames|)
    ensures forall k :: 0 <= k < |bodies| ==>
      stamped[k] == if k < |frames| then bodies[k].(color := frames[k]) else bodies[k]
  {
    FrameAfterClosed(|bodies|, frames, 0);
    StampedClosed(bodies, frames, 0);
    stamped, next := StampAll(bodies, frames, 0);
  }
}
