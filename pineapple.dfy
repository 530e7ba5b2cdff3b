/**
 * The pineapple: it walks one tile at a time in its current direction,
 * turns (to a random direction, passed in as `turn`) at the edge of the
 * grid or in front of a wall it cannot clear, and flies over a single wall
 * onto an empty cell beyond it. It reads the grid and never writes it.
 */
module Pineapple {
  import opened Wrappers
  import opened Settings
  import opened Motion
  import opened Animation

  const WalkFrames: int := 3
  const DepartFrames: int := 3
  const FlyFrames: int := 2
  const LandFrames: int := 3
  const WalkInterval: int := 100
  const DepartInterval: int := 350
  const FlyInterval: int := 75
  const LandInterval: int := 350
  const Speed: int := 2
  const FlySpeed: int := 1

  /** What the decide branch does with the cells ahead. */
  datatype Choice = Turn | Fly(far: Pos) | Walk(next: Pos)

  /**
   * The decision of `update` when no phase is running: out of the grid ahead
   * means turn; a wall ahead with an in-grid empty cell behind it means fly
   * there; any other wall means turn; anything else (empty, reserved, the
   * player) means walk.
   */
  function Decide(grid: array2<int>, at: Pos, d: Direction): (c: Choice)
    reads grid
    ensures var n := Shift(at, d);
      && (c == Walk(n) <==> InGrid(grid, n) && grid[n.0, n.1] != Wall)
      && (c == Fly(Shift(n, d)) <==>
            (InGrid(grid, n) && grid[n.0, n.1] == Wall &&
             InGrid(grid, Shift(n, d)) && grid[Shift(n, d).0, Shift(n, d).1] == Empty))
      && (c.Walk? ==> c == Walk(n)) && (c.Fly? ==> c == Fly(Shift(n, d)))
    ensures c.Walk? ==> InGrid(grid, c.next) && Adjacent(at, c.next)
    ensures c.Fly? ==> InGrid(grid, c.far) && grid[c.far.0, c.far.1] == Empty
  {
    var n := Shift(at, d);
    if !InGrid(grid, n) then Turn
    else if grid[n.0, n.1] == Wall then
      var f := Shift(n, d);
      if InGrid(grid, f) && grid[f.0, f.1] == Empty then Fly(f) else Turn
    else Walk(n)
  }

  /** A turn is the remaining case: the grid ends ahead, or a wall stands ahead with no empty cell behind it. */
  lemma TurnWhenStuck(grid: array2<int>, at: Pos, d: Direction)
    ensures var n := Shift(at, d); var f := Shift(n, d);
      Decide(grid, at, d) == Turn <==>
        !InGrid(grid, n) || (grid[n.0, n.1] == Wall && !(InGrid(grid, f) && grid[f.0, f.1] == Empty))
  {
  }

  /** The state of a pineapple, as a value: every field but the grid it reads. */
  datatype Pose = Pose(collectable: bool, image: Image, topLeft: Point, gridPos: Pos, targetPos: Point, direction: Direction,
                       moving: bool, flying: bool, departing: bool, landing: bool, flyTarget: Option<Point>,
                       frameIndex: int, animTime: int, animDir: int)

  /** The departure and the landing keep the pineapple's place, direction and flight target. */
  predicate Kept(was: Pose, became: Pose)
  {
    became.topLeft == was.topLeft && became.gridPos == was.gridPos && became.targetPos == was.targetPos &&
    became.flyTarget == was.flyTarget && became.direction == was.direction
  }

  /**
   * One tick of the departure: not collectable, in place; a new frame
   * every 350 ms, and after the third the flight starts on its first frame.
   */
  predicate Departed(was: Pose, became: Pose, now: int)
  {
    && !became.collectable && Kept(was, became)
    && became.moving == was.moving && became.landing == was.landing && became.animDir == was.animDir
    && (now - was.animTime < DepartInterval ==>
          became.departing && !became.flying && became.frameIndex == was.frameIndex &&
          became.animTime == was.animTime && became.image == was.image)
    && (now - was.animTime >= DepartInterval && was.frameIndex + 1 < DepartFrames ==>
          became.departing && !became.flying && became.animTime == now && became.frameIndex == was.frameIndex + 1 &&
          became.image == Image(DepartStrip, became.frameIndex))
    && (now - was.animTime >= DepartInterval && was.frameIndex + 1 >= DepartFrames ==>
          !became.departing && became.flying && became.animTime == now && became.frameIndex == 0 &&
          became.image == Image(FlyStrip, 0))
  }

  /**
   * One tick of the flight: one pixel per axis towards the flight target,
   * a new frame every 75 ms, and on arrival the landing starts on its
   * first frame.
   */
  predicate Flown(was: Pose, became: Pose, now: int)
    requires was.flyTarget.Some?
  {
    var s := Advance(was.topLeft, was.flyTarget.value, FlySpeed);
    && became.topLeft == s.pos && became.flying == !s.arrived && became.landing == s.arrived
    && (s.arrived ==> became.frameIndex == 0 && became.animTime == now && became.image == Image(LandStrip, 0))
    && (!s.arrived && now - was.animTime >= FlyInterval ==>
          became.animTime == now && became.frameIndex == (was.frameIndex + 1) % FlyFrames &&
          became.image == Image(FlyStrip, became.frameIndex))
    && (!s.arrived && now - was.animTime < FlyInterval ==>
          became.animTime == was.animTime && became.frameIndex == was.frameIndex && became.image == was.image)
    && became.collectable == was.collectable && became.gridPos == was.gridPos && became.targetPos == was.targetPos
    && became.flyTarget == was.flyTarget && became.direction == was.direction
    && became.moving == was.moving && became.departing == was.departing && became.animDir == was.animDir
  }

  /**
   * One tick of the landing: collectable again, in place; a new frame
   * every 350 ms, and after the third the still fruit frame, ready to
   * decide.
   */
  predicate Landed(was: Pose, became: Pose, now: int)
  {
    && became.collectable && Kept(was, became)
    && became.moving == was.moving && became.flying == was.flying && became.departing == was.departing
    && became.animDir == was.animDir
    && (now - was.animTime < LandInterval ==>
          became.landing && became.frameIndex == was.frameIndex && became.animTime == was.animTime &&
          became.image == was.image)
    && (now - was.animTime >= LandInterval && was.frameIndex + 1 < LandFrames ==>
          became.landing && became.animTime == now && became.frameIndex == was.frameIndex + 1 &&
          became.image == Image(LandStrip, became.frameIndex))
    && (now - was.animTime >= LandInterval && was.frameIndex + 1 >= LandFrames ==>
          !became.landing && became.animTime == now && became.frameIndex == 0 && became.image == Image(FruitStrip, 0))
  }

  /**
   * One tick of the walk: two pixels per axis towards the target tile, the
   * ping-pong walk frame every 100 ms, and frame 0 once it arrives.
   */
  predicate Walked(was: Pose, became: Pose, now: int)
    requires 0 <= was.frameIndex < WalkFrames && (was.animDir == 1 || was.animDir == -1)
  {
    var s := Advance(was.topLeft, was.targetPos, Speed);
    var p := PingPong(was.frameIndex, was.animDir, WalkFrames);
    var elapsed := now - was.animTime >= WalkInterval;
    && became.topLeft == s.pos && became.moving == !s.arrived
    && became.animTime == (if elapsed then now else was.animTime)
    && became.animDir == (if elapsed then p.1 else was.animDir)
    && (s.arrived ==> became.frameIndex == 0 && became.image == Image(FruitStrip, 0))
    && (!s.arrived && elapsed ==> became.frameIndex == p.0 && became.image == Image(FruitStrip, p.0))
    && (!s.arrived && !elapsed ==> became.frameIndex == was.frameIndex && became.image == was.image)
    && became.collectable == was.collectable && became.gridPos == was.gridPos && became.targetPos == was.targetPos
    && became.flyTarget == was.flyTarget && became.direction == was.direction
    && became.flying == was.flying && became.departing == was.departing && became.landing == was.landing
  }

  /**
   * The decision when no phase runs, on `grid`: a turn to `turn` in place;
   * or the departure over the wall towards the empty cell beyond it; or the
   * walk to the next tile. The flight and the walk start on their first
   * frame at `now`.
   */
  ghost predicate Chosen(grid: array2<int>, was: Pose, became: Pose, now: int, turn: Direction)
    reads grid
  {
    match Decide(grid, was.gridPos, was.direction)
    case Turn => became == was.(direction := turn)
    case Fly(far) =>
      became == was.(departing := true, flyTarget := Some(TileTopLeft(far)), gridPos := far,
                     frameIndex := 0, animTime := now, image := Image(DepartStrip, 0))
    case Walk(next) =>
      became == was.(gridPos := next, targetPos := TileTopLeft(next), moving := true,
                     frameIndex := 0, animTime := now, image := Image(FruitStrip, 0))
  }

  /**
   * A departure that starts on its first frame and is ticked three times,
   * each at least 350 ms after the last frame, is a flight after the third
   * tick and not before: in place, not collectable, on the first flight
   * frame.
   */
  lemma DepartsInThreeFrames(p0: Pose, p1: Pose, p2: Pose, p3: Pose, t1: int, t2: int, t3: int)
    requires p0.departing && p0.frameIndex == 0
    requires t1 - p0.animTime >= DepartInterval && t2 - t1 >= DepartInterval && t3 - t2 >= DepartInterval
    requires Departed(p0, p1, t1) && Departed(p1, p2, t2) && Departed(p2, p3, t3)
    ensures p1.departing && p2.departing && !p1.flying && !p2.flying
    ensures !p3.departing && p3.flying && p3.frameIndex == 0 && p3.animTime == t3 && p3.image == Image(FlyStrip, 0)
    ensures Kept(p0, p3) && !p3.collectable
  {
  }

  /**
   * A landing that starts on its first frame and is ticked three times,
   * each at least 350 ms after the last frame, ends after the third tick:
   * in place, collectable, on the still fruit frame, and (when it neither
   * walks nor flies) ready to decide its next step on the next tick.
   */
  lemma LandsInThreeFrames(p0: Pose, p1: Pose, p2: Pose, p3: Pose, t1: int, t2: int, t3: int)
    requires p0.landing && p0.frameIndex == 0 && !p0.departing && !p0.flying && !p0.moving
    requires t1 - p0.animTime >= LandInterval && t2 - t1 >= LandInterval && t3 - t2 >= LandInterval
    requires Landed(p0, p1, t1) && Landed(p1, p2, t2) && Landed(p2, p3, t3)
    ensures p1.landing && p2.landing
    ensures !p3.landing && !p3.departing && !p3.flying && !p3.moving
    ensures p3.frameIndex == 0 && p3.image == Image(FruitStrip, 0) && Kept(p0, p3) && p3.collectable
  {
  }

  class Pineapple {
    var collectable: bool
    var image: Image
    var topLeft: Point
    const grid: array2<int>
    var gridPos: Pos
    var targetPos: Point
    var direction: Direction
    var moving: bool
    var flying: bool
    var departing: bool
    var landing: bool
    var flyTarget: Option<Point>
    var frameIndex: int
    var animTime: int
    var animDir: int

    /** At most one phase runs, and each phase's frame index points into its own frames. */
    ghost predicate Valid()
      reads this
    {
      (departing ==> !flying && !landing && !moving && 0 <= frameIndex < DepartFrames && flyTarget.Some?) &&
      (flying ==> !landing && !moving && 0 <= frameIndex < FlyFrames && flyTarget.Some?) &&
      (landing ==> !moving && 0 <= frameIndex < LandFrames) &&
      (moving ==> 0 <= frameIndex < WalkFrames) &&
      (animDir == 1 || animDir == -1)
    }

    /** `Pineapple(x, y, grid)` facing `initial`, the constructor's random direction. */
    constructor (x: int, y: int, grid: array2<int>, initial: Direction, now: int)
      ensures Valid()
      ensures collectable && image == Image(FruitStrip, 0) && topLeft == Point(x, y)
      ensures this.grid == grid && gridPos == TileOf(x, y) && targetPos == Point(x, y)
      ensures direction == initial && !moving && !flying && !departing && !landing
      ensures flyTarget == None && frameIndex == 0 && animTime == now && animDir == 1
    {
      collectable := true;
      image := Image(FruitStrip, 0);
      topLeft := Point(x, y);
      this.grid := grid;
      gridPos := TileOf(x, y);
      targetPos := Point(x, y);
      direction := initial;
      moving := false;
      flying := false;
      departing := false;
      landing := false;
      flyTarget := None;
      frameIndex := 0;
      animTime := now;
      animDir := 1;
    }

    /** Departure: not collectable; a frame every 350 ms; after the third, the flight starts. */
    method Depart(now: int)
      requires Valid() && departing
      modifies this
      ensures Valid() && Departed(old(State()), State(), now)
    {
      collectable := false;
      if now - animTime >= DepartInterval {
        animTime := now;
        frameIndex := frameIndex + 1;
        if frameIndex < DepartFrames {
          image := Image(DepartStrip, frameIndex);
        } else {
          departing := false;
          flying := true;
          frameIndex := 0;
          image := Image(FlyStrip, 0);
        }
      }
    }

    /** Flight: one pixel per axis per tick towards `fly_target`, a frame every 75 ms; on arrival, landing starts. */
    method Fly(now: int)
      requires Valid() && flying
      modifies this
      ensures Valid() && Flown(old(State()), State(), now)
    {
      var s := Advance(topLeft, flyTarget.value, FlySpeed);
      topLeft := s.pos;
      if now - animTime >= FlyInterval {
        animTime := now;
        frameIndex := (frameIndex + 1) % FlyFrames;
        image := Image(FlyStrip, frameIndex);
      }
      if s.arrived {
        flying := false;
        landing := true;
        frameIndex := 0;
        animTime := now;
        image := Image(LandStrip, 0);
      }
    }

    /** Landing: collectable again; a frame every 350 ms; after the third, the walk frame. */
    method Land(now: int)
      requires Valid() && landing
      modifies this
      ensures Valid() && Landed(old(State()), State(), now)
    {
      collectable := true;
      if now - animTime >= LandInterval {
        animTime := now;
        frameIndex := frameIndex + 1;
        if frameIndex < LandFrames {
          image := Image(LandStrip, frameIndex);
        } else {
          landing := false;
          frameIndex := 0;
          image := Image(FruitStrip, 0);
        }
      }
    }

    /** Walking: two pixels per axis per tick, the ping-pong walk frame every 100 ms, frame 0 on arrival. */
    method Walk(now: int)
      requires Valid() && moving
      modifies this
      ensures Valid() && Walked(old(State()), State(), now)
    {
      var s := Advance(topLeft, targetPos, Speed);
      topLeft := s.pos;
      if now - animTime >= WalkInterval {
        animTime := now;
        var p := PingPong(frameIndex, animDir, WalkFrames);
        frameIndex, animDir := p.0, p.1;
        image := Image(FruitStrip, frameIndex);
      }
      if s.arrived {
        moving := false;
        frameIndex := 0;
        image := Image(FruitStrip, 0);
      }
    }

    /** The decide branch, with `turn` as `_change_direction`'s random choice. */
    method Choose(now: int, turn: Direction)
      requires Valid() && !departing && !flying && !landing && !moving
      modifies this
      ensures Valid() && var chosen := Chosen(grid, old(State()), State(), now, turn); chosen
    {
      var c := Decide(grid, gridPos, direction);
      match c {
        case Turn =>
          direction := turn;
        case Fly(f) =>
          departing := true;
          flyTarget := Some(TileTopLeft(f));
          gridPos := f;
          frameIndex := 0;
          animTime := now;
          image := Image(DepartStrip, 0);
        case Walk(n) =>
          gridPos := n;
          targetPos := TileTopLeft(n);
          moving := true;
          frameIndex := 0;
          animTime := now;
          image := Image(FruitStrip, 0);
      }
    }

    /** The pineapple's state. */
    ghost function State(): Pose
      reads this
    {
      Pose(collectable, image, topLeft, gridPos, targetPos, direction, moving, flying, departing, landing, flyTarget,
           frameIndex, animTime, animDir)
    }

    /**
     * One `update` from state `was` to state `became` at time `now`: the
     * first phase that runs (departing, flying, landing, walking) takes its
     * tick, and when none runs the pineapple decides on this pineapple's
     * grid, turning by `turn`.
     */
    ghost predicate UpdatedFrom(was: Pose, became: Pose, now: int, turn: Direction)
      reads grid
    {
      if was.departing then Departed(was, became, now)
      else if was.flying then was.flyTarget.Some? && Flown(was, became, now)
      else if was.landing then Landed(was, became, now)
      else if was.moving then
        0 <= was.frameIndex < WalkFrames && (was.animDir == 1 || was.animDir == -1) && Walked(was, became, now)
      else Chosen(grid, was, became, now, turn)
    }

    /**
     * `update(obstacles)`: departing, then flying, then landing, then
     * walking, then deciding; exactly one of them runs. The grid is only
     * read (this method may not modify it).
     */
    method Update(now: int, turn: Direction)
      requires Valid()
      modifies this
      ensures Valid() && UpdatedFrom(old(State()), State(), now, turn)
    {
      if departing {
        Depart(now);
      } else if flying {
        Fly(now);
      } else if landing {
        Land(now);
      } else if moving {
        Walk(now);
      } else {
        Choose(now, turn);
      }
    }
  }
}
