/**
 * `Enemy2`: a chasing enemy. When idle it searches a shortest path to the
 * player's tile and, unless the next cell is reserved by another enemy,
 * reserves that cell and walks into it; otherwise it plays its frustration
 * animation.
 */
module Enemy2 {
  import opened Wrappers
  import opened Settings
  import opened Motion
  import opened Animation
  import PathFinder

  /** Frames per walking direction, and frustration frames. */
  const WalkFrames: int := 3
  const FrustrationFrames: int := 4

  /**
   * The facing chosen from a step delta, column first: dc < 0 left, dc > 0
   * right, dr < 0 up, dr > 0 down; a zero delta keeps the current facing.
   */
  function StepDirection(dr: int, dc: int, current: Direction): (d: Direction)
    ensures Abs(dr) + Abs(dc) == 1 ==> Vector(d) == (dr, dc)
    ensures dr == 0 && dc == 0 ==> d == current
  {
    if dc < 0 then Left
    else if dc > 0 then Right
    else if dr < 0 then Up
    else if dr > 0 then Down
    else current
  }

  /** The facing recovered from a unit step is the direction of that step. */
  lemma StepDirectionOfShift(p: Pos, d: Direction, current: Direction)
    ensures var q := Shift(p, d); StepDirection(q.0 - p.0, q.1 - p.1, current) == d
  {
  }

  /** The tile under the player's centre, `((centery - 25)//50, (centerx - 25)//50)`. */
  function GoalTile(playerCentre: Point): Pos
  {
    TileOf(playerCentre.x, playerCentre.y)
  }

  /** A player standing still on its tile's centre is chased to that tile. */
  lemma GoalTileOfCentre(p: Pos)
    ensures GoalTile(TileCentre(p)) == p
  {
    TileOfCentre(p);
  }

  /** The moving state of an enemy, as a value: what one tick starts from. */
  datatype Pose = Pose(gridPos: Pos, targetPos: Option<Point>, moving: bool, rect: Point, direction: Direction,
                       anim: Animator, image: Image, path: seq<Pos>)

  class Enemy2 {
    const grid: array2<int>
    const speed: int
    const animInterval: int
    const frustrInterval: int
    var gridPos: Pos
    var targetPos: Option<Point>
    var moving: bool
    var rect: Point
    var direction: Direction
    var path: seq<Pos>
    var anim: Animator
    var image: Image

    /**
     * Its own cell is in the grid; the frame cursor fits the frustration
     * strip, and the walking strip while moving.
     */
    ghost predicate Valid()
      reads this
    {
      speed > 0 && InGrid(grid, gridPos) && Animation.Valid(anim, FrustrationFrames) &&
      (moving ==> Animation.Valid(anim, WalkFrames) && targetPos == Some(TileTopLeft(gridPos)))
    }

    /** `Enemy2(x, y, grid)`: the tile under (x, y) becomes reserved, facing down, with no path. */
    constructor (x: int, y: int, grid: array2<int>, now: int)
      requires InGrid(grid, TileOf(x, y))
      modifies grid
      ensures Valid() && this.grid == grid
      ensures speed == 1 && animInterval == 200 && frustrInterval == 600
      ensures gridPos == TileOf(x, y) && rect == Point(x, y)
      ensures !moving && targetPos == None && path == []
      ensures direction == Down && anim == Start(now) && image == Image(WalkStrip(Down), 0)
      ensures grid[gridPos.0, gridPos.1] == Reserved && GridUnchangedExcept(grid, gridPos, gridPos)
    {
      this.grid := grid;
      speed := 1;
      animInterval := 200;
      frustrInterval := 600;
      gridPos := TileOf(x, y);
      targetPos := None;
      moving := false;
      rect := Point(x, y);
      direction := Down;
      path := [];
      anim := Start(now);
      image := Image(WalkStrip(Down), 0);
      new;
      grid[gridPos.0, gridPos.1] := Reserved;
    }

    /** `animate_frustration()`: the ping-pong cursor over the four frustration frames, every `frustr_interval` ms. */
    method AnimateFrustration(now: int)
      requires Valid() && !moving
      modifies this
      ensures Valid() && !moving
      ensures (anim, image) == Animate(old(anim), old(image), now, frustrInterval, IdleStrip, FrustrationFrames)
      ensures gridPos == old(gridPos) && targetPos == old(targetPos) && rect == old(rect)
      ensures direction == old(direction) && path == old(path)
    {
      var r := Animate(anim, image, now, frustrInterval, IdleStrip, FrustrationFrames);
      anim, image := r.0, r.1;
    }

    /**
     * A moving tick of `update`: one interpolation step; on arrival the enemy
     * stops on the target, shows walking frame 0 and forgets its path,
     * otherwise the walk animation ticks. The grid is not touched.
     */
    method Glide(now: int)
      requires Valid() && moving
      modifies this
      ensures Valid()
      ensures var s := Advance(old(rect), TileTopLeft(gridPos), speed);
              && rect == s.pos && moving == !s.arrived
              && (s.arrived ==> anim == old(anim).(frameIndex := 0) && image == Image(WalkStrip(direction), 0) && path == [])
              && (!s.arrived ==>
                    (anim, image) == Animate(old(anim), old(image), now, animInterval, WalkStrip(direction), WalkFrames) &&
                    path == old(path))
      ensures gridPos == old(gridPos) && targetPos == old(targetPos) && direction == old(direction)
    {
      var s := Advance(rect, targetPos.value, speed);
      rect := s.pos;
      if s.arrived {
        moving := false;
        anim := anim.(frameIndex := 0);
        image := Image(WalkStrip(direction), 0);
        path := [];
      } else {
        var r := Animate(anim, image, now, animInterval, WalkStrip(direction), WalkFrames);
        anim, image := r.0, r.1;
      }
    }

    /**
     * Reserve-before-move: free the own cell, reserve `next`, head for its
     * top-left pixel facing the step, and restart the walk frames.
     */
    method Commit(next: Pos)
      requires Valid() && !moving && InGrid(grid, next) && Adjacent(gridPos, next)
      modifies this, grid
      ensures Valid() && moving
      ensures gridPos == next && targetPos == Some(TileTopLeft(next)) && Shift(old(gridPos), direction) == next
      ensures grid[old(gridPos).0, old(gridPos).1] == Empty && grid[next.0, next.1] == Reserved
      ensures GridUnchangedExcept(grid, old(gridPos), next)
      ensures rect == old(rect) && path == old(path)
      ensures anim == old(anim).(frameIndex := 0) && image == Image(WalkStrip(direction), 0)
    {
      var (r, c) := gridPos;
      var dr, dc := next.0 - r, next.1 - c;
      grid[r, c] := Empty;
      grid[next.0, next.1] := Reserved;
      gridPos := next;
      targetPos := Some(TileTopLeft(next));
      AdjacentIsShift((r, c), next);
      direction := StepDirection(dr, dc, direction);
      anim := anim.(frameIndex := 0);
      image := Image(WalkStrip(direction), 0);
      moving := true;
    }

    /**
     * An idle tick of `update`: search a path to the player's tile; step onto
     * its second cell unless that cell is reserved; with no second cell, or a
     * reserved one, only animate the frustration.
     */
    method Decide(now: int, playerCentre: Point)
      requires Valid() && !moving
      modifies this, grid
      ensures Valid()
      ensures var goal, p := GoalTile(playerCentre), path;
        && (p == [] <==> old(!PathFinder.Reachable(grid, PathFinder.NotWall, gridPos, goal)))
        && (p != [] ==> old(allocated(p)) && old(PathFinder.IsShortestPath(grid, PathFinder.NotWall, gridPos, goal, p)))
      ensures var p := path;
        var commit := |p| > 1 && InGrid(grid, p[1]) && old(grid[p[1].0, p[1].1]) != Reserved;
        && (commit ==>
              gridPos == p[1] && Adjacent(old(gridPos), gridPos) && Shift(old(gridPos), direction) == gridPos &&
              grid[old(gridPos).0, old(gridPos).1] == Empty && grid[gridPos.0, gridPos.1] == Reserved &&
              GridUnchangedExcept(grid, old(gridPos), gridPos) &&
              moving && targetPos == Some(TileTopLeft(gridPos)) && rect == old(rect) &&
              anim == old(anim).(frameIndex := 0) && image == Image(WalkStrip(direction), 0))
        && (!commit ==>
              GridUnchanged(grid) && gridPos == old(gridPos) && !moving && direction == old(direction) &&
              rect == old(rect) &&
              (anim, image) == Animate(old(anim), old(image), now, frustrInterval, IdleStrip, FrustrationFrames))
    {
      var start := gridPos;
      var goal := GoalTile(playerCentre);
      var found := PathFinder.Bfs(grid, PathFinder.NotWall, start, goal);
      forall i | 0 <= i < |found| ensures old(allocated(found[i])) {
        var (r, c) := found[i];
        assert found[i] == (r, c);
      }
      path := found;
      if |found| > 1 {
        var next := found[1];
        PathFinder.ChainStep(grid, PathFinder.NotWall, goal, found, 0);
        if grid[next.0, next.1] == Reserved {
          AnimateFrustration(now);
        } else {
          Commit(next);
        }
      } else {
        AnimateFrustration(now);
      }
    }

    /** The enemy's moving state. */
    ghost function State(): Pose
      reads this
    {
      Pose(gridPos, targetPos, moving, rect, direction, anim, image, path)
    }

    /**
     * What one `update` did, stated from the enemy's state `was` before it
     * and `became` after it, and from `pre` and `post`, records of the grid just
     * before and just after it: the outcome `Update` ensures, for a level
     * that runs other agents on the same grid in between.
     */
    ghost predicate Chased(was: Pose, became: Pose, pre: array2<int>, post: array2<int>, now: int, playerCentre: Point)
      reads pre, post
    {
      && speed > 0 && Animation.Valid(was.anim, FrustrationFrames)
      && (was.moving ==> Animation.Valid(was.anim, WalkFrames))
      && (was.moving ==> SameCells(post, pre) && became.gridPos == was.gridPos && became.direction == was.direction)
      && (was.moving ==>
            var s := Advance(was.rect, TileTopLeft(became.gridPos), speed);
            && became.rect == s.pos && became.moving == !s.arrived
            && (s.arrived ==> became.anim == was.anim.(frameIndex := 0) && became.image == Image(WalkStrip(became.direction), 0) && became.path == [])
            && (!s.arrived ==>
                  (became.anim, became.image) == Animate(was.anim, was.image, now, animInterval, WalkStrip(became.direction), WalkFrames) &&
                  became.path == was.path))
      && (!was.moving ==>
            var goal, p := GoalTile(playerCentre), became.path;
            && (p == [] <==> !PathFinder.Reachable(pre, PathFinder.NotWall, was.gridPos, goal))
            && (p != [] ==> PathFinder.IsShortestPath(pre, PathFinder.NotWall, was.gridPos, goal, p)))
      && (!was.moving ==>
            var p := became.path;
            var commit := |p| > 1 && InGrid(pre, p[1]) && pre[p[1].0, p[1].1] != Reserved;
            && (commit ==>
                  became.gridPos == p[1] && Adjacent(was.gridPos, became.gridPos) && Shift(was.gridPos, became.direction) == became.gridPos &&
                  InGrid(post, was.gridPos) && InGrid(post, became.gridPos) &&
                  post[was.gridPos.0, was.gridPos.1] == Empty && post[became.gridPos.0, became.gridPos.1] == Reserved &&
                  KeptExcept(pre, post, was.gridPos, became.gridPos) &&
                  became.moving && became.targetPos == Some(TileTopLeft(became.gridPos)) && became.rect == was.rect &&
                  became.anim == was.anim.(frameIndex := 0) && became.image == Image(WalkStrip(became.direction), 0))
            && (!commit ==>
                  SameCells(post, pre) && became.gridPos == was.gridPos && !became.moving && became.direction == was.direction &&
                  became.rect == was.rect &&
                  (became.anim, became.image) == Animate(was.anim, was.image, now, frustrInterval, IdleStrip, FrustrationFrames)))
    }

    /** One frame of `update`: glide while moving, otherwise decide. */
    method Update(now: int, playerCentre: Point)
      requires Valid()
      modifies this, grid
      ensures Valid()
      ensures old(moving) ==> GridUnchanged(grid) && gridPos == old(gridPos) && direction == old(direction)
      ensures old(moving) ==>
        var s := Advance(old(rect), TileTopLeft(gridPos), speed);
        && rect == s.pos && moving == !s.arrived
        && (s.arrived ==> anim == old(anim).(frameIndex := 0) && image == Image(WalkStrip(direction), 0) && path == [])
        && (!s.arrived ==>
              (anim, image) == Animate(old(anim), old(image), now, animInterval, WalkStrip(direction), WalkFrames) &&
              path == old(path))
      ensures old(!moving) ==>
        var goal, p := GoalTile(playerCentre), path;
        && (p == [] <==> old(!PathFinder.Reachable(grid, PathFinder.NotWall, gridPos, goal)))
        && (p != [] ==> old(allocated(p)) && old(PathFinder.IsShortestPath(grid, PathFinder.NotWall, gridPos, goal, p)))
      ensures old(!moving) ==>
        var p := path;
        var commit := |p| > 1 && InGrid(grid, p[1]) && old(grid[p[1].0, p[1].1]) != Reserved;
        && (commit ==>
              gridPos == p[1] && Adjacent(old(gridPos), gridPos) && Shift(old(gridPos), direction) == gridPos &&
              grid[old(gridPos).0, old(gridPos).1] == Empty && grid[gridPos.0, gridPos.1] == Reserved &&
              GridUnchangedExcept(grid, old(gridPos), gridPos) &&
              moving && targetPos == Some(TileTopLeft(gridPos)) && rect == old(rect) &&
              anim == old(anim).(frameIndex := 0) && image == Image(WalkStrip(direction), 0))
        && (!commit ==>
              GridUnchanged(grid) && gridPos == old(gridPos) && !moving && direction == old(direction) &&
              rect == old(rect) &&
              (anim, image) == Animate(old(anim), old(image), now, frustrInterval, IdleStrip, FrustrationFrames))
    {
      if moving {
        Glide(now);
      } else {
        Decide(now, playerCentre);
      }
    }
  }
}
