/**
 * `Enemy1`: a patrol enemy that walks straight ahead, reserving each cell
 * before it enters it, and picks a new direction when the way is blocked.
 * The random choice of `random.choice(DIRECTIONS)` is the `turn` argument.
 */
module Enemy1 {
  import opened Wrappers
  import opened Settings
  import opened Motion
  import opened Animation
  import PathFinder

  /** Frames per walking direction. */
  const WalkFrames: int := 3

  /** The patrol enters a cell that is in the grid and neither a wall nor reserved; the player's cell is enterable. */
  predicate CanEnter(grid: array2<int>, p: Pos)
    reads grid
  {
    InGrid(grid, p) && grid[p.0, p.1] != Wall && grid[p.0, p.1] != Reserved
  }

  /** The patrol's test is the chaser's passability short of the goal, less the reserved cells. */
  lemma CanEnterIsPassable(grid: array2<int>, p: Pos, goal: Pos)
    requires p != goal
    ensures CanEnter(grid, p) <==>
      PathFinder.Passable(grid, PathFinder.NotWall, goal, p) && grid[p.0, p.1] != Reserved
  {
  }

  /** The moving state of an enemy, as a value: what one tick starts from. */
  datatype Pose = Pose(gridPos: Pos, targetPos: Option<Point>, moving: bool, rect: Point, direction: Direction,
                       anim: Animator, image: Image)

  class Enemy1 {
    const grid: array2<int>
    const speed: int
    const animInterval: int
    var gridPos: Pos
    var targetPos: Option<Point>
    var moving: bool
    var rect: Point
    var direction: Direction
    var anim: Animator
    var image: Image

    /** Its own cell is in the grid, and while moving it heads for that cell's top-left pixel. */
    ghost predicate Valid()
      reads this
    {
      speed > 0 && InGrid(grid, gridPos) && Animation.Valid(anim, WalkFrames) &&
      (moving ==> targetPos == Some(TileTopLeft(gridPos)))
    }

    /** `Enemy1(x, y, grid)`: the tile under (x, y) becomes reserved, facing up. */
    constructor (x: int, y: int, grid: array2<int>, now: int)
      requires InGrid(grid, TileOf(x, y))
      modifies grid
      ensures Valid() && this.grid == grid
      ensures speed == 1 && animInterval == 200
      ensures gridPos == TileOf(x, y) && rect == Point(x, y)
      ensures !moving && targetPos == None
      ensures direction == Up && anim == Start(now) && image == Image(WalkStrip(Up), 0)
      ensures grid[gridPos.0, gridPos.1] == Reserved && GridUnchangedExcept(grid, gridPos, gridPos)
    {
      this.grid := grid;
      speed := 1;
      animInterval := 200;
      gridPos := TileOf(x, y);
      targetPos := None;
      moving := false;
      rect := Point(x, y);
      direction := Up;
      anim := Start(now);
      image := Image(WalkStrip(Up), 0);
      new;
      grid[gridPos.0, gridPos.1] := Reserved;
    }

    /** The enemy's moving state. */
    ghost function State(): Pose
      reads this
    {
      Pose(gridPos, targetPos, moving, rect, direction, anim, image)
    }

    /**
     * What one `update` did, stated from the enemy's state `was` before it
     * and `became` after it, and from `pre` and `post`, records of the grid just
     * before and just after it: the outcome `Update` ensures, for a level
     * that runs other agents on the same grid in between.
     */
    ghost predicate Patrolled(was: Pose, became: Pose, pre: array2<int>, post: array2<int>, now: int, turn: Direction)
      reads pre, post
    {
      var ahead := Shift(was.gridPos, was.direction);
      var commit := !was.moving && CanEnter(pre, ahead);
      var blocked := !was.moving && !commit;
      && speed > 0 && Animation.Valid(was.anim, WalkFrames)
      && (commit ==>
            became.gridPos == ahead && became.direction == was.direction &&
            InGrid(post, was.gridPos) && InGrid(post, ahead) &&
            post[was.gridPos.0, was.gridPos.1] == Empty && post[ahead.0, ahead.1] == Reserved &&
            KeptExcept(pre, post, was.gridPos, ahead))
      && (!commit ==> became.gridPos == was.gridPos && SameCells(post, pre))
      && (blocked ==> became.direction == turn && became.rect == was.rect && !became.moving && became.targetPos == was.targetPos)
      && (was.moving ==> became.direction == was.direction && became.targetPos == was.targetPos)
      && (!blocked ==>
            became.targetPos == Some(TileTopLeft(became.gridPos)) &&
            became.rect == Advance(was.rect, TileTopLeft(became.gridPos), speed).pos &&
            became.moving == !Advance(was.rect, TileTopLeft(became.gridPos), speed).arrived)
      && (var a := if blocked then was.anim.(frameIndex := 0) else was.anim;
          (became.anim, became.image) == Animate(a, was.image, now, animInterval, WalkStrip(became.direction), WalkFrames))
    }

    /**
     * One frame of `update`. When idle it tries the cell ahead: if enterable,
     * its old cell is freed, the new one reserved and the move begins; if not,
     * it faces `turn` and restarts its frame. A move in progress (or just
     * begun) then advances one interpolation step, and the walk animation ticks.
     */
    method Update(now: int, turn: Direction)
      requires Valid()
      modifies this, grid
      ensures Valid()
      ensures var ahead := Shift(old(gridPos), old(direction));
              var commit := old(!moving) && old(CanEnter(grid, ahead));
              var blocked := old(!moving) && !commit;
              && (commit ==>
                    gridPos == ahead && direction == old(direction) &&
                    grid[old(gridPos).0, old(gridPos).1] == Empty && grid[ahead.0, ahead.1] == Reserved &&
                    GridUnchangedExcept(grid, old(gridPos), ahead))
              && (!commit ==> gridPos == old(gridPos) && GridUnchanged(grid))
              && (blocked ==> direction == turn && rect == old(rect) && !moving && targetPos == old(targetPos))
              && (old(moving) ==> direction == old(direction) && targetPos == old(targetPos))
              && (!blocked ==>
                    targetPos == Some(TileTopLeft(gridPos)) &&
                    rect == Advance(old(rect), TileTopLeft(gridPos), speed).pos &&
                    moving == !Advance(old(rect), TileTopLeft(gridPos), speed).arrived)
              && (var a := if blocked then old(anim).(frameIndex := 0) else old(anim);
                  (anim, image) == Animate(a, old(image), now, animInterval, WalkStrip(direction), WalkFrames))
    {
      if !moving {
        var ahead := Shift(gridPos, direction);
        if CanEnter(grid, ahead) {
          grid[gridPos.0, gridPos.1] := Empty;
          grid[ahead.0, ahead.1] := Reserved;
          gridPos := ahead;
          targetPos := Some(TileTopLeft(ahead));
          moving := true;
        } else {
          direction := turn;
          anim := anim.(frameIndex := 0);
        }
      }
      if moving {
        var s := Advance(rect, targetPos.value, speed);
        rect := s.pos;
        if s.arrived {
          moving := false;
        }
      }
      var r := Animate(anim, image, now, animInterval, WalkStrip(direction), WalkFrames);
      anim, image := r.0, r.1;
    }
  }
}
