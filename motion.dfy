/**
 * The tile-to-pixel interpolation step that every mobile agent runs while
 * `moving`: each axis moves by the remaining delta clamped to
 * `[-speed, speed]`, and once both deltas are within `speed` the position
 * snaps onto the target and the agent stops.
 */
module Motion {
  import opened Settings

  /** `max(-speed, min(speed, d))`. */
  function Clamp(d: int, speed: int): (r: int)
    requires speed > 0
    ensures -speed <= r <= speed
    ensures Abs(d) <= speed ==> r == d
    ensures Abs(d) > speed ==> Abs(r) == speed && (r > 0 <==> d > 0)
  {
    if d < -speed then -speed else if d > speed then speed else d
  }

  /** Chebyshev distance: the larger of the two axis deltas. */
  function Distance(a: Point, b: Point): nat
  {
    var dx := Abs(a.x - b.x);
    var dy := Abs(a.y - b.y);
    if dx < dy then dy else dx
  }

  /** `b` lies on the closed segment from `a` to `c` (no overshoot). */
  predicate Between(a: int, b: int, c: int)
  {
    (a <= b <= c) || (c <= b <= a)
  }

  /** One tick of interpolation: the new position and whether it arrived. */
  datatype Step = Step(pos: Point, arrived: bool)

  /**
   * One tick of the motion loop: step each axis by the clamped delta, then
   * snap onto the target when both deltas were already within `speed`.
   */
  function Advance(pos: Point, target: Point, speed: nat): (r: Step)
    requires speed > 0
    ensures r.arrived <==> Distance(pos, target) <= speed
    ensures r.arrived ==> r.pos == target
    ensures !r.arrived ==> Distance(r.pos, target) == Distance(pos, target) - speed
    ensures Between(pos.x, r.pos.x, target.x) && Between(pos.y, r.pos.y, target.y)
    ensures Abs(r.pos.x - pos.x) <= speed && Abs(r.pos.y - pos.y) <= speed
  {
    var dx := target.x - pos.x;
    var dy := target.y - pos.y;
    var moved := Point(pos.x + Clamp(dx, speed), pos.y + Clamp(dy, speed));
    if Abs(dx) <= speed && Abs(dy) <= speed then Step(target, true) else Step(moved, false)
  }

  /** On the arrival tick the clamped step already lands on the target: the snap never jumps. */
  lemma SnapIsExact(pos: Point, target: Point, speed: nat)
    requires speed > 0 && Distance(pos, target) <= speed
    ensures Point(pos.x + Clamp(target.x - pos.x, speed), pos.y + Clamp(target.y - pos.y, speed)) == target
  {
  }

  /** `n` ticks of motion, stopping at the tick that arrives. */
  function Run(pos: Point, target: Point, speed: nat, n: nat): Step
    requires speed > 0 && n >= 1
    decreases n
  {
    var s := Advance(pos, target, speed);
    if n == 1 || s.arrived then s else Run(s.pos, target, speed, n - 1)
  }

  /** The number of ticks a motion from distance `d` takes. */
  function Ticks(d: nat, speed: nat): (t: nat)
    requires speed > 0
    ensures t >= 1
  {
    if d <= speed then 1 else 1 + Ticks(d - speed, speed)
  }

  /**
   * `Ticks` is ceil(d / speed), at least one: the least t >= 1 with
   * t * speed >= d.
   */
  lemma {:induction false} TicksIsCeiling(d: nat, speed: nat)
    requires speed > 0
    ensures Ticks(d, speed) * speed >= d
    ensures d > 0 ==> (Ticks(d, speed) - 1) * speed < d
  {
    if d > speed {
      var t' := Ticks(d - speed, speed);
      TicksIsCeiling(d - speed, speed);
      assert (1 + t') * speed == speed + t' * speed;
      assert (1 + t' - 1) * speed == t' * speed;
    }
  }

  /**
   * Termination and exactness of the interpolation: starting at distance `d`
   * the agent has not arrived after any k < Ticks(d) ticks, and after exactly
   * Ticks(d) ticks it stands on the target.
   */
  lemma {:induction false} ArrivesAfterTicks(pos: Point, target: Point, speed: nat, k: nat)
    requires speed > 0 && 1 <= k <= Ticks(Distance(pos, target), speed)
    ensures Run(pos, target, speed, k).arrived <==> k == Ticks(Distance(pos, target), speed)
    ensures k == Ticks(Distance(pos, target), speed) ==> Run(pos, target, speed, k).pos == target
    decreases k
  {
    var d := Distance(pos, target);
    var s := Advance(pos, target, speed);
    if d > speed && k > 1 {
      ArrivesAfterTicks(s.pos, target, speed, k - 1);
    }
  }
}
