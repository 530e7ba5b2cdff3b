/**
 * The time-gated ping-pong frame animator shared by enemies and fruit
 * (`BaseEnemy.animate`, `Enemy2.animate_frustration`, `BaseFruit.animate`,
 * the pineapple's walk cycle), and the opaque image handles the renderer
 * draws.
 */
module Animation {
  import opened Settings

  /** Which frame list an image is taken from. */
  datatype Strip =
    | WalkStrip(d: Direction)      // frames[direction]
    | ActionStrip(d: Direction)    // the player's action_frames[direction]
    | IdleStrip                    // Enemy2.frustration_frames
    | FruitStrip                   // a fruit's single frame list
    | DepartStrip | FlyStrip | LandStrip   // the pineapple's phase frames

  /** An image handle: `frames[...][index]`. */
  datatype Image = Image(strip: Strip, index: int)

  /** Frame cursor: `frame_index`, `anim_dir` and `last_anim_time`. */
  datatype Animator = Animator(frameIndex: int, animDir: int, lastAnimTime: int)

  /** The cursor points into a list of `count` frames and moves by +1 or -1. */
  predicate Valid(a: Animator, count: int)
  {
    0 <= a.frameIndex < count && (a.animDir == 1 || a.animDir == -1)
  }

  /** A fresh cursor: frame 0, moving forward, timed from `now`. */
  function Start(now: int): (a: Animator)
    ensures forall count :: count >= 1 ==> Valid(a, count)
  {
    Animator(0, 1, now)
  }

  /**
   * One ping-pong step: the direction becomes -1 at the last index and +1 at
   * index 0, then the index moves by the direction.
   */
  function PingPong(index: int, dir: int, count: int): (r: (int, int))
    requires count >= 2 && 0 <= index < count && (dir == 1 || dir == -1)
    ensures 0 <= r.0 < count && (r.1 == 1 || r.1 == -1)
    ensures r.0 == index + r.1
    ensures index == count - 1 ==> r.1 == -1
    ensures index == 0 ==> r.1 == 1
    ensures 0 < index < count - 1 ==> r.1 == dir
  {
    var d := if index == count - 1 then -1 else if index == 0 then 1 else dir;
    (index + d, d)
  }

  /** The cursor after `k` ping-pong steps from frame 0 moving forward. */
  function Sweep(count: int, k: nat): (r: (int, int))
    requires count >= 2
    ensures 0 <= r.0 < count && (r.1 == 1 || r.1 == -1)
  {
    if k == 0 then (0, 1)
    else
      var p := Sweep(count, k - 1);
      PingPong(p.0, p.1, count)
  }

  /**
   * The ping-pong cycle: the index climbs 0, 1, ..., count-1 and then walks
   * back down to 0, so after k <= 2(count-1) steps it is k or 2(count-1)-k.
   */
  lemma {:induction false} SweepShape(count: int, k: nat)
    requires count >= 2 && k <= 2 * (count - 1)
    ensures Sweep(count, k) == if k <= count - 1 then (k, 1) else (2 * (count - 1) - k, -1)
  {
    if k > 0 {
      SweepShape(count, k - 1);
    }
  }

  /** The cycle repeats with period 2(count-1). */
  lemma {:induction false} SweepPeriodic(count: int, k: nat)
    requires count >= 2 && k >= 1
    ensures Sweep(count, k + 2 * (count - 1)) == Sweep(count, k)
  {
    if k == 1 {
      SweepShape(count, 2 * (count - 1));
      assert Sweep(count, 1) == (1, 1);
    } else {
      SweepPeriodic(count, k - 1);
    }
  }

  /**
   * `animate()`: nothing changes before `interval` ms have passed since the
   * last frame; otherwise the time is recorded and the cursor ping-pongs.
   */
  function Tick(a: Animator, now: int, interval: int, count: int): (r: Animator)
    requires count >= 2 && Valid(a, count)
    ensures Valid(r, count)
    ensures now - a.lastAnimTime < interval ==> r == a
    ensures now - a.lastAnimTime >= interval ==>
              r.lastAnimTime == now && Abs(r.frameIndex - a.frameIndex) == 1
  {
    if now - a.lastAnimTime >= interval then
      var p := PingPong(a.frameIndex, a.animDir, count);
      Animator(p.0, p.1, now)
    else a
  }

  /**
   * `animate()` on a strip of `count` frames: the cursor ticks, and when a
   * frame advances the image becomes `frames[index]` of that strip.
   */
  function Animate(a: Animator, img: Image, now: int, interval: int, strip: Strip, count: int): (r: (Animator, Image))
    requires count >= 2 && Valid(a, count)
    ensures r.0 == Tick(a, now, interval, count)
    ensures now - a.lastAnimTime >= interval ==> r.1 == Image(strip, r.0.frameIndex)
    ensures now - a.lastAnimTime < interval ==> r == (a, img)
  {
    var t := Tick(a, now, interval, count);
    if now - a.lastAnimTime >= interval then (t, Image(strip, t.frameIndex)) else (a, img)
  }
}
