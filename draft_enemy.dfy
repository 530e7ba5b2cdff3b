/**
 * The draft enemies of `Enemy.py`: `Enemy`, which slides `speed` pixels in
 * a named direction and steps back when it then overlaps an obstacle, and
 * `Enemy1`, which follows a breadth-first path over free cells towards the
 * player's tile, reserving one cell at a time and searching again every
 * tenth idle tick or whenever it has no path.
 */
module DraftEnemy {
  import opened Wrappers
  import opened Settings
  import opened Motion
  import opened Animation
  import opened Obstacles
  import PathFinder

  /** `Enemy1.REPATH_INTERVAL`: idle ticks between searches. */
  const RepathInterval: int := 10

  /** The rectangle's top-left after sliding `speed` pixels in direction `d`. */
  function Slide(p: Point, d: Direction, speed: int): (q: Point)
    ensures (d == Left || d == Right) ==> q.y == p.y && Abs(q.x - p.x) == Abs(speed)
    ensures (d == Up || d == Down) ==> q.x == p.x && Abs(q.y - p.y) == Abs(speed)
    ensures speed > 0 ==> (q.x < p.x <==> d == Left) && (q.x > p.x <==> d == Right)
    ensures speed > 0 ==> (q.y < p.y <==> d == Up) && (q.y > p.y <==> d == Down)
  {
    Point(p.x + speed * Vector(d).1, p.y + speed * Vector(d).0)
  }

  /**
   * The draft's start tile, `((y - 25 + 25)//50, (x - 25 + 25)//50)`: the
   * tile whose top-left corner is nearest to the pixel, half a tile either way.
   */
  function NearestTile(x: int, y: int): (p: Pos)
    ensures TileTopLeft(p).x - TileSize / 2 <= x < TileTopLeft(p).x + TileSize / 2
    ensures TileTopLeft(p).y - TileSize / 2 <= y < TileTopLeft(p).y + TileSize / 2
  {
    ((y - MapOffset + TileSize / 2) / TileSize, (x - MapOffset + TileSize / 2) / TileSize)
  }

  /** At a tile's own top-left corner the rounding start tile is that tile. */
  lemma NearestTileOfTopLeft(p: Pos)
    ensures NearestTile(TileTopLeft(p).x, TileTopLeft(p).y) == p
  {
    var q := TileTopLeft(p);
    assert q.x - MapOffset + TileSize / 2 == p.1 * TileSize + 25;
    assert q.y - MapOffset + TileSize / 2 == p.0 * TileSize + 25;
  }

  /**
   * The rounding start tile against the `(v - 25)//50` floor the rest of
   * the game uses: on each axis it is the floor tile when the pixel lies in
   * the first half of that tile, and the next tile when it lies in the
   * second half (so the pixel (50, 50), in tile (0, 0), starts at (1, 1)).
   */
  lemma NearestTileVsFloor(x: int, y: int)
    ensures NearestTile(x, y).1 == TileOf(x, y).1 + (if (x - MapOffset) % TileSize >= TileSize / 2 then 1 else 0)
    ensures NearestTile(x, y).0 == TileOf(x, y).0 + (if (y - MapOffset) % TileSize >= TileSize / 2 then 1 else 0)
  {
    RoundVsFloor(x - MapOffset);
    RoundVsFloor(y - MapOffset);
  }

  lemma RoundVsFloor(v: int)
    ensures (v + TileSize / 2) / TileSize == v / TileSize + (if v % TileSize >= TileSize / 2 then 1 else 0)
  {
    var q, r := v / TileSize, v % TileSize;
    assert v == TileSize * q + r && 0 <= r < TileSize;
    if r >= TileSize / 2 {
      assert v + TileSize / 2 == TileSize * (q + 1) + (r - TileSize / 2);
    } else {
      assert v + TileSize / 2 == TileSize * q + (r + TileSize / 2);
    }
  }

  /**
   * The facing from a step delta as the draft writes it: dc == -1 left,
   * dc == 1 right, dr == -1 up, dr == 1 down, and otherwise unchanged.
   */
  function DeltaDirection(dr: int, dc: int, current: Direction): (d: Direction)
    ensures Abs(dr) + Abs(dc) == 1 ==> Vector(d) == (dr, dc)
    ensures dr == 0 && dc == 0 ==> d == current
  {
    if dc == -1 then Left
    else if dc == 1 then Right
    else if dr == -1 then Up
    else if dr == 1 then Down
    else current
  }

  /** Every cell of a breadth-first path from an in-grid start is in the grid. */
  lemma PathInGrid(grid: array2<int>, start: Pos, goal: Pos, path: seq<Pos>)
    requires InGrid(grid, start) && PathFinder.IsPath(grid, PathFinder.FreeOnly, start, goal, path)
    ensures forall i :: 0 <= i < |path| ==> InGrid(grid, path[i])
    ensures |path| > 1 ==> Adjacent(path[0], path[1])
  {
    forall i | 0 < i < |path|
      ensures InGrid(grid, path[i])
    {
      PathFinder.ChainStep(grid, PathFinder.FreeOnly, goal, path, i - 1);
    }
    if |path| > 1 {
      PathFinder.ChainStep(grid, PathFinder.FreeOnly, goal, path, 0);
    }
  }

  /** `Enemy(x, y, player)`: a sprite that slides by pixels. */
  class Enemy {
    var direction: Direction
    var image: Image
    var rect: Point       // rect.topleft
    const speed: int

    constructor (x: int, y: int)
      ensures direction == Down && image == Image(WalkStrip(Down), 0) && rect == Point(x, y) && speed == 1
    {
      direction := Down;
      image := Image(WalkStrip(Down), 0);
      rect := Point(x, y);
      speed := 1;
    }

    /**
     * `move(obstacles, direction)`: a direction name turns the enemy and
     * slides it; if it then overlaps an obstacle it goes back to where it
     * was. Any other name changes nothing. The enemy never ends a move on a
     * new position that overlaps an obstacle.
     */
    method Move(obstacles: ObstacleGroup, name: string, hits: (Point, seq<Obstacle>) -> bool)
      modifies this
      ensures rect == old(rect) || (rect == Slide(old(rect), direction, speed) && !hits(rect, obstacles.items))
      ensures ParseDirection(name).None? ==> direction == old(direction) && image == old(image) && rect == old(rect)
      ensures ParseDirection(name).Some? ==>
        var d := ParseDirection(name).value;
        && direction == d && image == Image(WalkStrip(d), 0)
        && (rect == old(rect) <==> hits(Slide(old(rect), d, speed), obstacles.items) || speed == 0)
    {
      var start := rect;
      var parsed := ParseDirection(name);
      if parsed.Some? {
        ParseDirectionNames(name, parsed.value);
        rect := Slide(rect, parsed.value, speed);
        direction := parsed.value;
      }
      if hits(rect, obstacles.items) {
        rect := start;
      }
      if parsed.Some? {
        image := Image(WalkStrip(direction), 0);
      }
    }
  }

  /** An `Enemy1`'s moving state: everything but its grid and its speed. */
  datatype Pose = Pose(gridPos: Pos, path: seq<Pos>, moving: bool, nextGridPos: Option<Pos>, targetPos: Point,
                       clock: int, direction: Direction, image: Image, centre: Point)

  /**
   * An update from `p` reads `self.player`: an idle tick reads the player's
   * tile when it searches (the count reaching a multiple of ten, or no
   * path) and when the path has a second cell to check.
   */
  predicate ReadsPlayer(p: Pose)
  {
    !p.moving && ((p.clock + 1) % RepathInterval == 0 || p.path == [] || |p.path| > 1)
  }

  /** The draft `Enemy1(x, y, player, grid)`: a path follower on the shared grid. */
  class Enemy1 {
    const grid: array2<int>
    const moveSpeed: int
    var direction: Direction
    var image: Image
    var centre: Point          // rect.center
    var gridPos: Pos
    var path: seq<Pos>
    var moving: bool
    var nextGridPos: Option<Pos>
    var targetPos: Point
    var clock: int

    /**
     * The enemy's cell and every cell of its path are in the grid; the
     * path's second cell is next to the enemy or is its own cell; while
     * moving it heads for the centre of that second cell.
     */
    ghost predicate Valid()
      reads this
    {
      moveSpeed > 0 && InGrid(grid, gridPos) &&
      (forall i :: 0 <= i < |path| ==> InGrid(grid, path[i])) &&
      (|path| > 1 ==> Adjacent(gridPos, path[1]) || path[1] == gridPos) &&
      (moving ==> |path| > 1 && nextGridPos == Some(path[1]) && targetPos == TileCentre(path[1]))
    }

    function State(): Pose
      reads this
    {
      Pose(gridPos, path, moving, nextGridPos, targetPos, clock, direction, image, centre)
    }

    /**
     * What one update did, from `was` to `became`, with `pre` and `post`
     * records of the grid before and after it: a moving enemy glides and,
     * on arrival, stands on the cell it reserved; an idle one counts the
     * tick, searches a path over free cells to the tile of `playerCentre`
     * when the count is a multiple of ten or it has no path, and reserves
     * the path's second cell when that cell is free or is the player's tile.
     */
    ghost predicate Followed(was: Pose, became: Pose, pre: array2<int>, post: array2<int>, playerCentre: Point)
      reads pre, post
    {
      && moveSpeed > 0
      && (was.moving ==>
            && SameCells(post, pre) && became.path == was.path && became.clock == was.clock
            && became.direction == was.direction && became.image == was.image
            && became.targetPos == was.targetPos && became.nextGridPos == was.nextGridPos
            && var s := Advance(was.centre, was.targetPos, moveSpeed);
            && became.centre == s.pos && became.moving == !s.arrived
            && (s.arrived ==> was.nextGridPos == Some(became.gridPos))
            && (!s.arrived ==> became.gridPos == was.gridPos))
      && (!was.moving ==>
            && became.clock == was.clock + 1 && became.gridPos == was.gridPos && became.centre == was.centre
            && var repath := became.clock % RepathInterval == 0 || was.path == [];
            var goal := TileOf(playerCentre.x, playerCentre.y);
            && (!repath ==> became.path == was.path)
            && (repath ==> (became.path == [] <==> !PathFinder.Reachable(pre, PathFinder.FreeOnly, was.gridPos, goal)))
            && (repath && became.path != [] ==> PathFinder.IsShortestPath(pre, PathFinder.FreeOnly, was.gridPos, goal, became.path)))
      && (!was.moving ==>
            var p := became.path;
            var commit := |p| > 1 && InGrid(pre, p[1]) &&
                          (pre[p[1].0, p[1].1] == Empty || p[1] == TileOf(playerCentre.x, playerCentre.y));
            && (commit ==>
                  && became.moving && became.nextGridPos == Some(p[1]) && became.targetPos == TileCentre(p[1])
                  && InGrid(post, p[1]) && post[p[1].0, p[1].1] == Reserved
                  && (p[1] != was.gridPos ==>
                        InGrid(post, was.gridPos) && post[was.gridPos.0, was.gridPos.1] == Empty &&
                        Shift(was.gridPos, became.direction) == p[1])
                  && (p[1] == was.gridPos ==> became.direction == was.direction)
                  && KeptExcept(pre, post, was.gridPos, p[1])
                  && became.image == Image(WalkStrip(became.direction), 0))
            && (!commit ==>
                  && !became.moving && SameCells(post, pre) && became.direction == was.direction
                  && became.image == was.image && became.targetPos == was.targetPos
                  && became.nextGridPos == was.nextGridPos))
    }

    /**
     * The constructor: the start tile rounds the pixel (x, y), the sprite
     * is centred on it, with no path, idle, facing down. The grid is not
     * written here; the level marks the cell.
     */
    constructor (x: int, y: int, grid: array2<int>)
      requires InGrid(grid, NearestTile(x, y))
      ensures Valid() && this.grid == grid
      ensures gridPos == NearestTile(x, y) && centre == TileCentre(gridPos) && targetPos == centre
      ensures path == [] && moveSpeed == 1 && !moving && nextGridPos == None && clock == 0
      ensures direction == Down && image == Image(WalkStrip(Down), 0)
    {
      this.grid := grid;
      moveSpeed := 1;
      direction := Down;
      image := Image(WalkStrip(Down), 0);
      gridPos := NearestTile(x, y);
      centre := TileCentre(NearestTile(x, y));
      path := [];
      moving := false;
      nextGridPos := None;
      targetPos := TileCentre(NearestTile(x, y));
      clock := 0;
    }

    /**
     * A moving tick: one interpolation step; on arrival the enemy stands on
     * the cell it reserved. The path is kept as it was, so its second cell
     * is now the enemy's own.
     */
    method Glide()
      requires Valid() && moving
      modifies this
      ensures Valid()
      ensures var s := Advance(old(centre), old(targetPos), moveSpeed);
        && centre == s.pos && moving == !s.arrived
        && (s.arrived ==> gridPos == old(path)[1] && gridPos == old(nextGridPos).value)
        && (!s.arrived ==> gridPos == old(gridPos))
      ensures path == old(path) && clock == old(clock) && direction == old(direction) && image == old(image)
      ensures targetPos == old(targetPos) && nextGridPos == old(nextGridPos)
    {
      var s := Advance(centre, targetPos, moveSpeed);
      centre := s.pos;
      if s.arrived {
        moving := false;
        gridPos := nextGridPos.value;
      }
    }

    /**
     * The reservation: free the own cell, reserve `next`, head for its
     * centre facing the step, and start moving. `grid_pos` stays until the
     * enemy arrives.
     */
    method Commit()
      requires Valid() && !moving && |path| > 1
      modifies this, grid
      ensures Valid() && moving
      ensures var next := path[1];
        && nextGridPos == Some(next) && targetPos == TileCentre(next)
        && grid[next.0, next.1] == Reserved
        && (next != old(gridPos) ==> grid[old(gridPos).0, old(gridPos).1] == Empty && Shift(old(gridPos), direction) == next)
        && (next == old(gridPos) ==> direction == old(direction))
        && GridUnchangedExcept(grid, old(gridPos), next)
      ensures image == Image(WalkStrip(direction), 0)
      ensures gridPos == old(gridPos) && path == old(path) && centre == old(centre) && clock == old(clock)
    {
      var next := path[1];
      grid[gridPos.0, gridPos.1] := Empty;
      nextGridPos := Some(next);
      grid[next.0, next.1] := Reserved;
      targetPos := TileCentre(next);
      direction := DeltaDirection(next.0 - gridPos.0, next.1 - gridPos.1, direction);
      image := Image(WalkStrip(direction), 0);
      moving := true;
    }

    /**
     * An idle tick: count the tick; search a path over free cells to the
     * player's tile when the count is a multiple of ten or there is no
     * path; then, with a second path cell that is free or is the player's
     * tile, reserve it and start moving.
     */
    method Decide(playerCentre: Point)
      requires Valid() && !moving
      modifies this, grid
      ensures Valid() && clock == old(clock) + 1
      ensures var repath := clock % RepathInterval == 0 || old(path) == [];
        var goal, p := TileOf(playerCentre.x, playerCentre.y), path;
        && (!repath ==> p == old(path))
        && (repath ==> (p == [] <==> old(!PathFinder.Reachable(grid, PathFinder.FreeOnly, gridPos, goal))))
        && (repath && p != [] ==> old(allocated(p)) && old(PathFinder.IsShortestPath(grid, PathFinder.FreeOnly, gridPos, goal, p)))
      ensures var p, playerTile := path, TileOf(playerCentre.x, playerCentre.y);
        var commit := |p| > 1 && (old(grid[p[1].0, p[1].1]) == Empty || p[1] == playerTile);
        && gridPos == old(gridPos) && centre == old(centre)
        && (commit ==>
              moving && nextGridPos == Some(p[1]) && targetPos == TileCentre(p[1]) &&
              grid[p[1].0, p[1].1] == Reserved &&
              (p[1] != gridPos ==> grid[gridPos.0, gridPos.1] == Empty && Shift(gridPos, direction) == p[1]) &&
              (p[1] == gridPos ==> direction == old(direction)) &&
              GridUnchangedExcept(grid, gridPos, p[1]) && image == Image(WalkStrip(direction), 0))
        && (!commit ==>
              !moving && GridUnchanged(grid) && direction == old(direction) && image == old(image) &&
              targetPos == old(targetPos) && nextGridPos == old(nextGridPos))
    {
      clock := clock + 1;
      if clock % RepathInterval == 0 || path == [] {
        var goal := TileOf(playerCentre.x, playerCentre.y);
        var found := PathFinder.Bfs(grid, PathFinder.FreeOnly, gridPos, goal);
        forall i | 0 <= i < |found| ensures old(allocated(found[i])) {
          var (r, c) := found[i];
          assert found[i] == (r, c);
        }
        if found != [] {
          PathInGrid(grid, gridPos, goal, found);
        }
        path := found;
      }
      if |path| > 1 {
        var next := path[1];
        var playerTile := TileOf(playerCentre.x, playerCentre.y);
        if grid[next.0, next.1] != Empty && next != playerTile {
          return;
        }
        Commit();
      }
    }

    /**
     * The first line of an idle tick, `self.clock += 1`, on its own: all an
     * enemy holding no player does before its read of `self.player` raises.
     */
    method CountTick()
      requires Valid() && !moving
      modifies this
      ensures Valid() && State() == old(State()).(clock := old(clock) + 1)
    {
      clock := clock + 1;
    }

    /** One frame of `update(obstacles)`: glide while moving, otherwise decide. */
    method Update(playerCentre: Point)
      requires Valid()
      modifies this, grid
      ensures Valid()
      ensures old(moving) ==> GridUnchanged(grid) && path == old(path) && clock == old(clock)
      ensures old(moving) ==>
        direction == old(direction) && image == old(image) && targetPos == old(targetPos) && nextGridPos == old(nextGridPos)
      ensures old(moving) ==>
        var s := Advance(old(centre), old(targetPos), moveSpeed);
        && centre == s.pos && moving == !s.arrived
        && (s.arrived ==> gridPos == path[1] && old(nextGridPos) == Some(gridPos))
        && (!s.arrived ==> gridPos == old(gridPos))
      ensures !old(moving) ==> clock == old(clock) + 1 && gridPos == old(gridPos) && centre == old(centre)
      ensures !old(moving) ==>
        var repath := clock % RepathInterval == 0 || old(path) == [];
        var goal, p := TileOf(playerCentre.x, playerCentre.y), path;
        && (!repath ==> p == old(path))
        && (repath ==> (p == [] <==> old(!PathFinder.Reachable(grid, PathFinder.FreeOnly, gridPos, goal))))
        && (repath && p != [] ==> old(allocated(p)) && old(PathFinder.IsShortestPath(grid, PathFinder.FreeOnly, gridPos, goal, p)))
      ensures !old(moving) ==>
        var p, playerTile := path, TileOf(playerCentre.x, playerCentre.y);
        var commit := |p| > 1 && (old(grid[p[1].0, p[1].1]) == Empty || p[1] == playerTile);
        && (commit ==>
              moving && nextGridPos == Some(p[1]) && targetPos == TileCentre(p[1]) && grid[p[1].0, p[1].1] == Reserved &&
              (p[1] != gridPos ==> grid[gridPos.0, gridPos.1] == Empty && Shift(gridPos, direction) == p[1]) &&
              (p[1] == gridPos ==> direction == old(direction)) &&
              GridUnchangedExcept(grid, gridPos, p[1]) && image == Image(WalkStrip(direction), 0))
        && (!commit ==>
              !moving && GridUnchanged(grid) && direction == old(direction) && image == old(image) &&
              targetPos == old(targetPos) && nextGridPos == old(nextGridPos))
    {
      if moving {
        Glide();
      } else {
        Decide(playerCentre);
      }
    }
  }

  /**
   * An update that does not read `self.player` does the same whatever the
   * player's centre: an enemy holding no player has a well-defined tick
   * while it glides or follows a one-cell path between searches.
   */
  lemma FollowedIgnoresPlayer(e: Enemy1, was: Pose, became: Pose, pre: array2<int>, post: array2<int>, c: Point, c': Point)
    requires !ReadsPlayer(was)
    ensures e.Followed(was, became, pre, post, c) <==> e.Followed(was, became, pre, post, c')
  {
  }
}
