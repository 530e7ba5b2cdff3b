/**
 * The draft game of `Main.py`: its `Player`, which moves on the first
 * arrow press and drains its build/clear queue even while walking, and its
 * `Level`, which reads a map in the draft alphabet, lets the player and
 * the draft enemies move, stops on an enemy collision and removes every
 * fruit the player touches.
 *
 * `overlaps(p, o)` stands for "the walking frame placed with its top-left
 * at `p` overlaps obstacle `o`" (`colliderect`).
 */
module DraftLevel {
  import opened Wrappers
  import opened Settings
  import opened Motion
  import opened Animation
  import opened Obstacles
  import opened LevelMap
  import Player
  import DraftEnemy
  import PathFinder
  import PackageLevel = Level

  const WalkFrames: int := 3

  /** `any(test_rect.colliderect(o.rect) for o in obstacles)` for a frame placed at `p`. */
  predicate Collides(p: Point, items: seq<Obstacle>, overlaps: (Point, Obstacle) -> bool)
  {
    exists j :: 0 <= j < |items| && overlaps(p, items[j])
  }

  /**
   * The border strips keep the player on the grid: every step off the
   * grid from `p` lands on an obstacle that stands on no grid tile.
   */
  predicate BordersHold(grid: array2<int>, items: seq<Obstacle>, overlaps: (Point, Obstacle) -> bool, p: Pos)
  {
    forall d :: !InGrid(grid, Shift(p, d)) ==>
      exists j :: 0 <= j < |items| && !InGrid(grid, TileOfObstacle(items[j])) && overlaps(TileTopLeft(Shift(p, d)), items[j])
  }

  /** Every obstacle off the grid tiles is still in the group. */
  predicate KeepsOffGrid(grid: array2<int>, items: seq<Obstacle>, items': seq<Obstacle>)
  {
    forall j :: 0 <= j < |items| && !InGrid(grid, TileOfObstacle(items[j])) ==> items[j] in items'
  }

  /** A group that keeps the off-grid obstacles keeps the borders' hold. */
  lemma BordersKept(grid: array2<int>, items: seq<Obstacle>, items': seq<Obstacle>, overlaps: (Point, Obstacle) -> bool, p: Pos)
    requires BordersHold(grid, items, overlaps, p) && KeepsOffGrid(grid, items, items')
    ensures BordersHold(grid, items', overlaps, p)
  {
    forall d | !InGrid(grid, Shift(p, d))
      ensures exists k :: 0 <= k < |items'| && !InGrid(grid, TileOfObstacle(items'[k])) && overlaps(TileTopLeft(Shift(p, d)), items'[k])
    {
      var j :| 0 <= j < |items| && !InGrid(grid, TileOfObstacle(items[j])) && overlaps(TileTopLeft(Shift(p, d)), items[j]);
      assert items[j] in items';
      var k :| 0 <= k < |items'| && items'[k] == items[j];
    }
  }

  /** Removing the first obstacle on an in-grid tile keeps every off-grid obstacle. */
  lemma RemovalKeepsOffGrid(grid: array2<int>, items: seq<Obstacle>, t: Pos, i: int)
    requires FirstOnTile(items, t, i) && InGrid(grid, t)
    ensures KeepsOffGrid(grid, items, items[..i] + items[i + 1..])
  {
    var rest := items[..i] + items[i + 1..];
    forall j | 0 <= j < |items| && !InGrid(grid, TileOfObstacle(items[j]))
      ensures items[j] in rest
    {
      if j < i {
        assert rest[j] == items[j];
      } else {
        assert rest[j - 1] == items[j];
      }
    }
  }

  /** The draft player's state apart from its queues. */
  datatype Pose = Pose(direction: Direction, frameIndex: int, lastAnimTime: int, image: Image, centre: Point,
                       gridPos: Pos, targetPos: Point, moving: bool, spacePressed: bool)

  /** The build/clear queues and the time the next queue step is due. */
  datatype Queues = Queues(create: seq<Pos>, destroy: seq<Pos>, nextChange: int)

  class DraftPlayer {
    var direction: Direction
    var frameIndex: int
    var lastAnimTime: int
    const animInterval: int
    var image: Image
    var centre: Point          // rect.center
    var gridPos: Pos
    var targetPos: Point
    var moving: bool
    const moveSpeed: int
    var pendingCreate: seq<Pos>
    var pendingDestroy: seq<Pos>
    var nextChangeTime: int
    const changeInterval: int
    var spacePressedLastFrame: bool

    /** The player's cell and every queued cell are in the grid, and the walk frame is in range. */
    ghost predicate Valid(grid: array2<int>)
      reads this
    {
      moveSpeed > 0 && InGrid(grid, gridPos) &&
      (forall i :: 0 <= i < |pendingCreate| ==> InGrid(grid, pendingCreate[i])) &&
      (forall i :: 0 <= i < |pendingDestroy| ==> InGrid(grid, pendingDestroy[i])) &&
      0 <= frameIndex < WalkFrames
    }

    /** `Player(x, y)` with a walking frame of `w` x `h` pixels placed at top-left (x, y). */
    constructor (x: int, y: int, w: nat, h: nat, now: int)
      ensures direction == Down && frameIndex == 0 && lastAnimTime == now && animInterval == 200
      ensures image == Image(WalkStrip(Down), 0) && centre == Point(x + w / 2, y + h / 2)
      ensures gridPos == TileOf(x, y) && targetPos == Point(x, y) && !moving && moveSpeed == 3
      ensures pendingCreate == [] && pendingDestroy == [] && nextChangeTime == 0 && changeInterval == 100
      ensures !spacePressedLastFrame
    {
      direction := Down;
      frameIndex := 0;
      lastAnimTime := now;
      animInterval := 200;
      image := Image(WalkStrip(Down), 0);
      centre := Point(x + w / 2, y + h / 2);
      gridPos := TileOf(x, y);
      targetPos := Point(x, y);
      moving := false;
      moveSpeed := 3;
      pendingCreate := [];
      pendingDestroy := [];
      nextChangeTime := 0;
      changeInterval := 100;
      spacePressedLastFrame := false;
    }

    ghost function State(): Pose
      reads this
    {
      Pose(direction, frameIndex, lastAnimTime, image, centre, gridPos, targetPos, moving, spacePressedLastFrame)
    }

    ghost function Queued(): Queues
      reads this
    {
      Queues(pendingCreate, pendingDestroy, nextChangeTime)
    }

    /** Nothing but the two queues and the change time differs from the old state. */
    twostate predicate QueuesOnly()
      reads this
    {
      direction == old(direction) && frameIndex == old(frameIndex) && lastAnimTime == old(lastAnimTime) &&
      image == old(image) && centre == old(centre) && gridPos == old(gridPos) &&
      targetPos == old(targetPos) && moving == old(moving) && spacePressedLastFrame == old(spacePressedLastFrame)
    }

    /** `create_obs`: both queues restart, the create queue as the run of empty cells ahead. */
    method CreateObs(grid: array2<int>, now: int)
      requires Valid(grid)
      modifies this
      ensures Valid(grid) && QueuesOnly()
      ensures pendingDestroy == [] && Player.IsRun(grid, gridPos, direction, Empty, pendingCreate)
      ensures nextChangeTime == now + changeInterval
    {
      pendingDestroy := [];
      pendingCreate := [];
      pendingCreate := Player.ScanRun(grid, gridPos, direction, Empty);
      nextChangeTime := now + changeInterval;
    }

    /**
     * `destroy_obs`: the destroy queue becomes the run of box cells ahead;
     * the create queue and the change time are left as they were.
     */
    method DestroyObs(grid: array2<int>)
      requires Valid(grid)
      modifies this
      ensures Valid(grid) && QueuesOnly()
      ensures Player.IsRun(grid, gridPos, direction, Wall, pendingDestroy)
      ensures pendingCreate == old(pendingCreate) && nextChangeTime == old(nextChangeTime)
    {
      pendingDestroy := Player.ScanRun(grid, gridPos, direction, Wall);
    }

    /**
     * `change_obs` with the facing cell bounds-checked: a box ahead starts a
     * destroy run, an empty cell ahead a create run, anything else (or the
     * edge of the grid) changes nothing.
     */
    method ChangeObs(grid: array2<int>, now: int)
      requires Valid(grid)
      modifies this
      ensures Valid(grid) && QueuesOnly()
      ensures var ahead := Shift(gridPos, direction);
        && (InGrid(grid, ahead) && grid[ahead.0, ahead.1] == Wall ==>
              Player.IsRun(grid, gridPos, direction, Wall, pendingDestroy) &&
              pendingCreate == old(pendingCreate) && nextChangeTime == old(nextChangeTime))
        && (InGrid(grid, ahead) && grid[ahead.0, ahead.1] == Empty ==>
              pendingDestroy == [] && Player.IsRun(grid, gridPos, direction, Empty, pendingCreate) &&
              nextChangeTime == now + changeInterval)
        && (!InGrid(grid, ahead) || (grid[ahead.0, ahead.1] != Wall && grid[ahead.0, ahead.1] != Empty) ==>
              pendingCreate == old(pendingCreate) && pendingDestroy == old(pendingDestroy) &&
              nextChangeTime == old(nextChangeTime))
    {
      var ahead := Shift(gridPos, direction);
      if InGrid(grid, ahead) && grid[ahead.0, ahead.1] == Wall {
        DestroyObs(grid);
      } else if InGrid(grid, ahead) && grid[ahead.0, ahead.1] == Empty {
        CreateObs(grid, now);
      }
    }

    /**
     * The queue block at the top of `update`, with `mid` a record of the
     * grid and `q` the queues after it. When a queue is non-empty and the
     * step is due, the first destroy cell is cleared if an obstacle stands
     * on it, otherwise the first create cell gets a new box, and the next
     * step is due `change_interval` ms from now; otherwise nothing changes.
     */
    twostate predicate Drained(grid: array2<int>, new mid: array2<int>, obstacles: ObstacleGroup, now: int, q: Queues)
      reads mid, obstacles
    {
      var due := old(pendingDestroy != [] || pendingCreate != []) && now >= old(nextChangeTime);
      && (!due ==> q == old(Queued()) && obstacles.items == old(obstacles.items) && KeptFromOld(grid, mid))
      && (due ==> q.nextChange == now + changeInterval)
      && (due && old(pendingDestroy) != [] ==>
            var t := old(pendingDestroy)[0];
            var items := old(obstacles.items);
            var hit := exists j :: 0 <= j < |items| && TileOfObstacle(items[j]) == t;
            && q.destroy == old(pendingDestroy)[1..] && q.create == old(pendingCreate)
            && (hit ==> (exists i :: FirstOnTile(items, t, i) && obstacles.items == items[..i] + items[i + 1..]) &&
                        InGrid(mid, t) && mid[t.0, t.1] == Empty && KeptFromOldExcept(grid, mid, t, t))
            && (!hit ==> obstacles.items == items && KeptFromOld(grid, mid)))
      && (due && old(pendingDestroy) == [] ==>
            var t := old(pendingCreate)[0];
            && q.create == old(pendingCreate)[1..] && q.destroy == old(pendingDestroy)
            && obstacles.items == old(obstacles.items) + [Obstacle(TileTopLeft(t))]
            && InGrid(mid, t) && mid[t.0, t.1] == Wall && KeptFromOldExcept(grid, mid, t, t))
    }

    /** The draining block at the top of `update`, when a queue is non-empty and the step is due. */
    method DrainIfDue(grid: array2<int>, obstacles: ObstacleGroup, now: int)
      requires Valid(grid)
      modifies this, grid, obstacles
      ensures Valid(grid) && QueuesOnly()
      ensures KeepsOffGrid(grid, old(obstacles.items), obstacles.items)
      ensures Drained(grid, grid, obstacles, now, Queued())
    {
      if (pendingDestroy != [] || pendingCreate != []) && now >= nextChangeTime {
        if pendingDestroy != [] {
          var t := pendingDestroy[0];
          pendingDestroy := pendingDestroy[1..];
          var found := obstacles.RemoveFirstOnTile(t);
          if found {
            grid[t.0, t.1] := Empty;
            ghost var i :| FirstOnTile(old(obstacles.items), t, i) && obstacles.items == old(obstacles.items)[..i] + old(obstacles.items)[i + 1..];
            RemovalKeepsOffGrid(grid, old(obstacles.items), t, i);
          }
        } else {
          var t := pendingCreate[0];
          pendingCreate := pendingCreate[1..];
          obstacles.Add(Obstacle(TileTopLeft(t)));
          grid[t.0, t.1] := Wall;
        }
        nextChangeTime := now + changeInterval;
      }
    }

    /** The glide from `was`: the centre moves towards the target and the walk frame cycles modulo three. */
    ghost predicate Glided(was: Pose, now: int)
      reads this
    {
      var s := Advance(was.centre, was.targetPos, if moveSpeed > 0 then moveSpeed else 1);
      var elapsed := now - was.lastAnimTime >= animInterval;
      centre == s.pos && moving == !s.arrived &&
      direction == was.direction && gridPos == was.gridPos && targetPos == was.targetPos &&
      spacePressedLastFrame == was.spacePressed &&
      (!elapsed ==> lastAnimTime == was.lastAnimTime && frameIndex == was.frameIndex && image == was.image) &&
      (elapsed ==> lastAnimTime == now && frameIndex == (was.frameIndex + 1) % WalkFrames &&
                   image == Image(WalkStrip(direction), frameIndex))
    }

    method Glide(grid: array2<int>, now: int)
      requires Valid(grid) && moving
      modifies this
      ensures Valid(grid) && Glided(old(State()), now) && Queued() == old(Queued())
    {
      var s := Advance(centre, targetPos, moveSpeed);
      centre := s.pos;
      if s.arrived {
        moving := false;
      }
      if now - lastAnimTime >= animInterval {
        lastAnimTime := now;
        frameIndex := (frameIndex + 1) % WalkFrames;
        image := Image(WalkStrip(direction), frameIndex);
      }
    }

    /**
     * The space key: a press not held last frame runs `change_obs`;
     * `space_pressed_last_frame` ends up equal to the key's state.
     */
    method SpaceInput(keys: Player.Keys, grid: array2<int>, now: int)
      requires Valid(grid)
      modifies this
      ensures Valid(grid) && spacePressedLastFrame == keys.space
      ensures direction == old(direction) && frameIndex == old(frameIndex) && lastAnimTime == old(lastAnimTime)
      ensures image == old(image) && centre == old(centre) && gridPos == old(gridPos)
      ensures targetPos == old(targetPos) && moving == old(moving)
      ensures var fire, ahead := keys.space && !old(spacePressedLastFrame), Shift(gridPos, direction);
        && (fire && InGrid(grid, ahead) && grid[ahead.0, ahead.1] == Wall ==>
              Player.IsRun(grid, gridPos, direction, Wall, pendingDestroy) &&
              pendingCreate == old(pendingCreate) && nextChangeTime == old(nextChangeTime))
        && (fire && InGrid(grid, ahead) && grid[ahead.0, ahead.1] == Empty ==>
              pendingDestroy == [] && Player.IsRun(grid, gridPos, direction, Empty, pendingCreate) &&
              nextChangeTime == now + changeInterval)
        && (!fire || !InGrid(grid, ahead) || (grid[ahead.0, ahead.1] != Wall && grid[ahead.0, ahead.1] != Empty) ==>
              pendingCreate == old(pendingCreate) && pendingDestroy == old(pendingDestroy) &&
              nextChangeTime == old(nextChangeTime))
    {
      if keys.space {
        if !spacePressedLastFrame {
          ChangeObs(grid, now);
          spacePressedLastFrame := true;
        }
      } else {
        spacePressedLastFrame := false;
      }
    }

    /**
     * The arrows, left before right before up before down: the player turns
     * to the pressed arrow and steps one tile that way unless the walking
     * frame placed on that tile collides; its cell is then marked `3`.
     */
    method Steer(keys: Player.Keys, grid: array2<int>, obstacles: ObstacleGroup, overlaps: (Point, Obstacle) -> bool)
      requires Valid(grid) && BordersHold(grid, obstacles.items, overlaps, gridPos)
      modifies this, grid
      ensures Valid(grid)
      ensures Player.Pressed(keys).None? ==>
        direction == old(direction) && gridPos == old(gridPos) && targetPos == old(targetPos) &&
        moving == old(moving) && GridUnchanged(grid)
      ensures Player.Pressed(keys).Some? ==>
        var d := Player.Pressed(keys).value;
        var n := Shift(old(gridPos), d);
        && direction == d
        && (Collides(TileTopLeft(n), obstacles.items, overlaps) ==>
              gridPos == old(gridPos) && targetPos == old(targetPos) && moving == old(moving) &&
              grid[gridPos.0, gridPos.1] == PlayerCell && GridUnchangedExcept(grid, gridPos, gridPos))
        && (!Collides(TileTopLeft(n), obstacles.items, overlaps) ==>
              gridPos == n && targetPos == TileCentre(n) && moving &&
              grid[old(gridPos).0, old(gridPos).1] == Empty && grid[n.0, n.1] == PlayerCell &&
              GridUnchangedExcept(grid, old(gridPos), n))
      ensures frameIndex == old(frameIndex) && lastAnimTime == old(lastAnimTime) && image == old(image)
      ensures centre == old(centre) && spacePressedLastFrame == old(spacePressedLastFrame)
      ensures pendingCreate == old(pendingCreate) && pendingDestroy == old(pendingDestroy)
      ensures nextChangeTime == old(nextChangeTime)
    {
      var pressed := Player.Pressed(keys);
      if pressed.Some? {
        direction := pressed.value;
        var n := Shift(gridPos, direction);
        if !Collides(TileTopLeft(n), obstacles.items, overlaps) {
          assert n != gridPos;
          grid[gridPos.0, gridPos.1] := Empty;
          gridPos := n;
          targetPos := TileCentre(n);
          moving := true;
        }
        grid[gridPos.0, gridPos.1] := PlayerCell;
      }
    }

    /** The end of `update`: a player at rest on another frame shows walking frame 0. */
    method ShowStanding()
      modifies this
      ensures !moving ==> frameIndex == 0
      ensures moving || old(frameIndex) == 0 ==> frameIndex == old(frameIndex) && image == old(image)
      ensures !moving && old(frameIndex) != 0 ==> image == Image(WalkStrip(direction), 0)
      ensures direction == old(direction) && centre == old(centre) && gridPos == old(gridPos)
      ensures targetPos == old(targetPos) && moving == old(moving) && lastAnimTime == old(lastAnimTime)
      ensures pendingCreate == old(pendingCreate) && pendingDestroy == old(pendingDestroy)
      ensures nextChangeTime == old(nextChangeTime) && spacePressedLastFrame == old(spacePressedLastFrame)
    {
      if !moving && frameIndex != 0 {
        frameIndex := 0;
        image := Image(WalkStrip(direction), 0);
      }
    }

    /**
     * The rest of `update` after the queue step, from the state `was` and
     * the queues `q` it left, with `mid` a record of the grid it left and
     * `post` one of the grid after: the glide while moving; otherwise the
     * space key (deciding on `mid`), the arrows, in the order left, right,
     * up, down, and the standing frame.
     */
    ghost predicate Acted(keys: Player.Keys, was: Pose, q: Queues, mid: array2<int>, post: array2<int>,
                          obstacles: ObstacleGroup, overlaps: (Point, Obstacle) -> bool, now: int)
      reads this, mid, post, obstacles
    {
      && (was.moving ==> Glided(was, now) && SameCells(post, mid) && Queued() == q)
      && (!was.moving ==> Handled(keys, was, q, mid, post, obstacles, overlaps, now))
    }

    /**
     * The key handling of an idle player from `was` with queues `q`: the
     * space key (deciding on `mid`), the arrows, in the order left, right,
     * up, down, taking the grid from `mid` to `post`, and the standing frame.
     */
    ghost predicate Handled(keys: Player.Keys, was: Pose, q: Queues, mid: array2<int>, post: array2<int>,
                            obstacles: ObstacleGroup, overlaps: (Point, Obstacle) -> bool, now: int)
      reads this, mid, post, obstacles
    {
      SpaceHandled(keys, was, q, mid, now) && Steered(keys, was, mid, post, obstacles, overlaps)
    }

    /** The space key's part of the key handling from `was` and the queues `q`, deciding on the grid `mid`. */
    ghost predicate SpaceHandled(keys: Player.Keys, was: Pose, q: Queues, mid: array2<int>, now: int)
      reads this, mid
    {
      && spacePressedLastFrame == keys.space && centre == was.centre && lastAnimTime == was.lastAnimTime
      && var fire, ahead := keys.space && !was.spacePressed, Shift(was.gridPos, was.direction);
      && (fire && InGrid(mid, ahead) && mid[ahead.0, ahead.1] == Wall ==>
            Player.IsRun(mid, was.gridPos, was.direction, Wall, pendingDestroy) &&
            pendingCreate == q.create && nextChangeTime == q.nextChange)
      && (fire && InGrid(mid, ahead) && mid[ahead.0, ahead.1] == Empty ==>
            pendingDestroy == [] && Player.IsRun(mid, was.gridPos, was.direction, Empty, pendingCreate) &&
            nextChangeTime == now + changeInterval)
      && (!fire || !InGrid(mid, ahead) || (mid[ahead.0, ahead.1] != Wall && mid[ahead.0, ahead.1] != Empty) ==>
            Queued() == q)
    }

    /** The arrows and the standing frame from `was`, taking the grid from `mid` to `post`. */
    ghost predicate Steered(keys: Player.Keys, was: Pose, mid: array2<int>, post: array2<int>,
                            obstacles: ObstacleGroup, overlaps: (Point, Obstacle) -> bool)
      reads this, mid, post, obstacles
    {
      && (Player.Pressed(keys).None? ==>
            direction == was.direction && gridPos == was.gridPos && targetPos == was.targetPos && !moving &&
            SameCells(post, mid))
      && (Player.Pressed(keys).Some? ==>
            var d := Player.Pressed(keys).value;
            var n := Shift(was.gridPos, d);
            && direction == d
            && (Collides(TileTopLeft(n), obstacles.items, overlaps) ==>
                  gridPos == was.gridPos && targetPos == was.targetPos && !moving &&
                  InGrid(post, gridPos) && post[gridPos.0, gridPos.1] == PlayerCell && KeptExcept(mid, post, gridPos, gridPos))
            && (!Collides(TileTopLeft(n), obstacles.items, overlaps) ==>
                  gridPos == n && targetPos == TileCentre(n) && moving &&
                  InGrid(post, was.gridPos) && InGrid(post, n) &&
                  post[was.gridPos.0, was.gridPos.1] == Empty && post[n.0, n.1] == PlayerCell &&
                  KeptExcept(mid, post, was.gridPos, n)))
      && ((moving || was.frameIndex == 0) ==> frameIndex == was.frameIndex && image == was.image)
      && (!moving && was.frameIndex != 0 ==> frameIndex == 0 && image == Image(WalkStrip(direction), 0))
    }

    /** The glide or the key handling on the grid `mid` records, leaving the record `post`. */
    method Act(keys: Player.Keys, grid: array2<int>, obstacles: ObstacleGroup, overlaps: (Point, Obstacle) -> bool, now: int,
               ghost mid: array2<int>)
      returns (ghost post: array2<int>)
      requires Valid(grid) && BordersHold(grid, obstacles.items, overlaps, gridPos)
      requires mid != grid && SameCells(mid, grid)
      modifies this, grid
      ensures Valid(grid) && fresh(post) && SameCells(post, grid)
      ensures Acted(keys, old(State()), old(Queued()), mid, post, obstacles, overlaps, now)
    {
      if moving {
        Glide(grid, now);
        post := Snapshot(grid);
      } else {
        post := Handle(keys, grid, obstacles, overlaps, now, mid);
      }
    }

    /** The key handling of an idle player, leaving the record `post` of the grid. */
    method Handle(keys: Player.Keys, grid: array2<int>, obstacles: ObstacleGroup, overlaps: (Point, Obstacle) -> bool, now: int,
                  ghost mid: array2<int>)
      returns (ghost post: array2<int>)
      requires Valid(grid) && BordersHold(grid, obstacles.items, overlaps, gridPos) && !moving
      requires mid != grid && SameCells(mid, grid)
      modifies this, grid
      ensures Valid(grid) && fresh(post) && SameCells(post, grid)
      ensures Handled(keys, old(State()), old(Queued()), mid, post, obstacles, overlaps, now)
    {
      ghost var was := State();
      Space(keys, grid, now, mid);
      SteeredIgnoresSpace(keys, was, mid, obstacles, overlaps);
      label Spaced:
      post := SteerAndStand(keys, grid, obstacles, overlaps, mid);
      assert unchanged@Spaced(mid);
    }

    /** The space key on the grid `mid` records. */
    method Space(keys: Player.Keys, grid: array2<int>, now: int, ghost mid: array2<int>)
      requires Valid(grid) && SameCells(mid, grid)
      modifies this
      ensures Valid(grid) && SpaceHandled(keys, old(State()), old(Queued()), mid, now)
      ensures State() == old(State()).(spacePressed := keys.space)
    {
      SpaceInput(keys, grid, now);
      Player.RunOnRecord(mid, grid, gridPos, direction, Wall, pendingDestroy);
      Player.RunOnRecord(mid, grid, gridPos, direction, Empty, pendingCreate);
    }

    /** `Steered` does not look at the space flag of `was`. */
    lemma SteeredIgnoresSpace(keys: Player.Keys, was: Pose, mid: array2<int>, obstacles: ObstacleGroup,
                              overlaps: (Point, Obstacle) -> bool)
      ensures forall post: array2<int>, b: bool {:trigger Steered(keys, was.(spacePressed := b), mid, post, obstacles, overlaps)} ::
        Steered(keys, was.(spacePressed := b), mid, post, obstacles, overlaps) <==> Steered(keys, was, mid, post, obstacles, overlaps)
    {
    }

    /** The arrows and the standing frame, on the grid `mid` records, leaving the record `post`. */
    method SteerAndStand(keys: Player.Keys, grid: array2<int>, obstacles: ObstacleGroup, overlaps: (Point, Obstacle) -> bool,
                         ghost mid: array2<int>)
      returns (ghost post: array2<int>)
      requires Valid(grid) && BordersHold(grid, obstacles.items, overlaps, gridPos) && !moving
      requires mid != grid && SameCells(mid, grid)
      modifies this, grid
      ensures Valid(grid) && fresh(post) && SameCells(post, grid)
      ensures Steered(keys, old(State()), mid, post, obstacles, overlaps)
      ensures Queued() == old(Queued()) && spacePressedLastFrame == old(spacePressedLastFrame)
      ensures centre == old(centre) && lastAnimTime == old(lastAnimTime)
    {
      Steer(keys, grid, obstacles, overlaps);
      ShowStanding();
      post := Snapshot(grid);
    }

    /**
     * `update(keys, obstacles, grid)`: one step of the queues when it is
     * due, then, in the same frame, the glide or the key handling. `mid`
     * and `q` record the grid and the queues the queue step left, `post`
     * the grid at the end.
     */
    method Update(keys: Player.Keys, grid: array2<int>, obstacles: ObstacleGroup, overlaps: (Point, Obstacle) -> bool, now: int)
      returns (ghost mid: array2<int>, ghost q: Queues, ghost post: array2<int>)
      requires Valid(grid) && BordersHold(grid, obstacles.items, overlaps, gridPos)
      modifies this, grid, obstacles
      ensures Valid(grid) && KeepsOffGrid(grid, old(obstacles.items), obstacles.items)
      ensures fresh(mid) && fresh(post) && mid != post && SameCells(post, grid)
      ensures Drained(grid, mid, obstacles, now, q)
      ensures Acted(keys, old(State()), q, mid, post, obstacles, overlaps, now)
    {
      ghost var items0 := obstacles.items;
      DrainIfDue(grid, obstacles, now);
      mid := Snapshot(grid);
      q := Queued();
      assert Drained(grid, mid, obstacles, now, q);
      BordersKept(grid, items0, obstacles.items, overlaps, gridPos);
      label Mid:
      post := Act(keys, grid, obstacles, overlaps, now, mid);
      assert unchanged@Mid(mid, obstacles);
    }
  }

  // ---------------------------------------------------------------------
  // The draft level.

  type Enemy = DraftEnemy.Enemy1

  function EnemySet(es: seq<Enemy>): set<Enemy>
  {
    set k | 0 <= k < |es| :: es[k]
  }

  /** Every enemy is valid on `grid` and no enemy object appears twice. */
  ghost predicate EnemiesValid(es: seq<Enemy>, grid: array2<int>)
    reads EnemySet(es)
  {
    (forall k :: 0 <= k < |es| ==> es[k].Valid() && es[k].grid == grid) &&
    (forall k, m :: 0 <= k < m < |es| ==> es[k] != es[m])
  }

  /** The player touches fruit `k`. */
  predicate Hit(touching: int -> bool, k: int)
  {
    touching(k)
  }

  /** The fruits among the first `n` that the player does not touch, in order. */
  function Untouched(fs: seq<Point>, touching: int -> bool, n: nat): seq<Point>
    requires n <= |fs|
  {
    if n == 0 then [] else Untouched(fs, touching, n - 1) + (if Hit(touching, n - 1) then [] else [fs[n - 1]])
  }

  /**
   * `idx` is an increasing choice of indices of untouched fruits among the
   * first `n` that picks out `kept` and misses none of them.
   */
  ghost predicate Picks(fs: seq<Point>, touching: int -> bool, n: nat, kept: seq<Point>, idx: seq<nat>)
    requires n <= |fs|
  {
    |idx| == |kept| &&
    (forall a :: 0 <= a < |idx| ==> idx[a] < n && kept[a] == fs[idx[a]] && !Hit(touching, idx[a])) &&
    (forall a, b :: 0 <= a < b < |idx| ==> idx[a] < idx[b]) &&
    (forall k :: 0 <= k < n && !Hit(touching, k) ==> k in idx)
  }

  /**
   * `spritecollide(player, fruits, dokill=True)` keeps exactly the fruits
   * not touched, in their order: an increasing choice of indices of
   * untouched fruits picks them out, and every untouched fruit is picked.
   */
  lemma {:induction false} UntouchedPicks(fs: seq<Point>, touching: int -> bool, n: nat) returns (idx: seq<nat>)
    requires n <= |fs|
    ensures Picks(fs, touching, n, Untouched(fs, touching, n), idx)
  {
    if n == 0 {
      idx := [];
    } else {
      var prev := UntouchedPicks(fs, touching, n - 1);
      if Hit(touching, n - 1) {
        idx := prev;
        PickSkip(fs, touching, n, Untouched(fs, touching, n - 1), idx);
      } else {
        idx := prev + [n - 1];
        PickTake(fs, touching, n, Untouched(fs, touching, n - 1), prev);
      }
    }
  }

  /** A touched fruit adds nothing to the picks. */
  lemma PickSkip(fs: seq<Point>, touching: int -> bool, n: nat, kept: seq<Point>, idx: seq<nat>)
    requires 0 < n <= |fs| && Hit(touching, n - 1)
    requires Picks(fs, touching, n - 1, kept, idx)
    ensures Picks(fs, touching, n, kept, idx)
  {
  }

  /** An untouched fruit is picked at the end. */
  lemma PickTake(fs: seq<Point>, touching: int -> bool, n: nat, kept: seq<Point>, idx: seq<nat>)
    requires 0 < n <= |fs| && !Hit(touching, n - 1)
    requires Picks(fs, touching, n - 1, kept, idx)
    ensures Picks(fs, touching, n, kept + [fs[n - 1]], idx + [n - 1])
  {
    var idx' := idx + [n - 1];
    assert forall a :: 0 <= a < |idx| ==> idx'[a] == idx[a];
    assert idx'[|idx|] == n - 1;
  }

  /** The grid holds the codes a draft map leaves in an empty 13 x 19 grid. */
  ghost predicate DraftGrid(grid: array2<int>, rows: seq<string>)
    reads grid
  {
    grid.Length0 == 13 && grid.Length1 == 19 &&
    forall i, j :: 0 <= i < 13 && 0 <= j < 19 ==> grid[i, j] == CodeAt(Draft, rows, i, j)
  }

  /** The players the enemies hold. */
  function Holders(chased: seq<DraftPlayer?>): set<DraftPlayer?>
  {
    set k | 0 <= k < |chased| && chased[k] != null :: chased[k]
  }

  /** The centre of the player each enemy holds, in order; `None` for an enemy holding none. */
  function Targets(chased: seq<DraftPlayer?>): (t: seq<Option<Point>>)
    reads Holders(chased)
    ensures |t| == |chased|
    ensures forall k :: 0 <= k < |chased| ==> t[k] == if chased[k] == null then None else Some(chased[k].centre)
  {
    seq(|chased|, k requires 0 <= k < |chased| reads Holders(chased) =>
      if chased[k] == null then None else Some(chased[k].centre))
  }

  /**
   * The centre an enemy's update is given: the held player's, or the
   * origin for an enemy holding none, whose tick then does not depend on
   * it (`DraftEnemy.FollowedIgnoresPlayer`).
   */
  function Aim(t: Option<Point>): Point
  {
    if t.Some? then t.value else Point(0, 0)
  }

  /** The states of all enemies, in order. */
  ghost function EnemyPoses(es: seq<Enemy>): seq<DraftEnemy.Pose>
    reads EnemySet(es)
  {
    seq(|es|, k requires 0 <= k < |es| reads EnemySet(es) => es[k].State())
  }

  /**
   * Enemy `j`'s update in a record of updates: it went from `was[j]` to
   * `became[j]`, on the grid recorded in `boards[j]` before it and in
   * `boards[j + 1]` after it, towards the centre of the player it holds;
   * an enemy holding none did not read it.
   */
  ghost predicate FollowedAt(es: seq<Enemy>, was: seq<DraftEnemy.Pose>, became: seq<DraftEnemy.Pose>,
                             boards: seq<array2<int>>, targets: seq<Option<Point>>, j: int)
    reads boards
  {
    0 <= j < |was| && j < |became| && j < |es| && j < |targets| && j + 1 < |boards| &&
    (targets[j].None? ==> !DraftEnemy.ReadsPlayer(was[j])) &&
    es[j].Followed(was[j], became[j], boards[j], boards[j + 1], Aim(targets[j]))
  }

  /** The updates of the first `|was|` enemies, in order, each on the grid the ones before it left. */
  ghost predicate EnemiesFollowed(es: seq<Enemy>, was: seq<DraftEnemy.Pose>, became: seq<DraftEnemy.Pose>,
                                  boards: seq<array2<int>>, targets: seq<Option<Point>>)
    reads boards
  {
    |became| == |was| <= |es| && |boards| == |was| + 1 &&
    forall j :: 0 <= j < |was| ==> FollowedAt(es, was, became, boards, targets, j)
  }

  /**
   * The draft `Level`: the grid, the obstacles, the player, the enemies
   * with the player each was given when it was created, and the fruits'
   * positions.
   */
  class Level {
    const grid: array2<int>
    const obstacles: ObstacleGroup
    const player: DraftPlayer?
    const enemies: seq<Enemy>
    const chased: seq<DraftPlayer?>   // enemy k's `self.player`
    var fruits: seq<Point>     // each fruit's top-left pixel
    var running: bool

    ghost predicate Valid()
      reads this, player, EnemySet(enemies)
    {
      grid.Length0 == 13 && grid.Length1 == 19 &&
      (player != null ==> player.Valid(grid)) && EnemiesValid(enemies, grid) && |chased| == |enemies|
    }

    /** A running level over agents already created on `grid`. */
    constructor (grid: array2<int>, obstacles: ObstacleGroup, player: DraftPlayer?, enemies: seq<Enemy>,
                 chased: seq<DraftPlayer?>, fruits: seq<Point>)
      requires grid.Length0 == 13 && grid.Length1 == 19 && |chased| == |enemies|
      requires (player != null ==> player.Valid(grid)) && EnemiesValid(enemies, grid)
      ensures Valid() && running
      ensures this.grid == grid && this.obstacles == obstacles && this.player == player
      ensures this.enemies == enemies && this.chased == chased && this.fruits == fruits
    {
      this.grid := grid;
      this.obstacles := obstacles;
      this.player := player;
      this.enemies := enemies;
      this.chased := chased;
      this.fruits := fruits;
      running := true;
    }

    /**
     * `Level.update(keys)`: the player, then every enemy, in order, towards
     * the centre of the player it holds; an enemy touching the player stops
     * the level; every fruit the player touches is removed. `enemyHit` and
     * `touching(k)` are the collision tests after the agents have moved.
     * Without a player the first line raises `AttributeError`; an enemy
     * holding no player raises it when its update reads the player, and
     * the enemies after it do not move. A failed update leaves the flag
     * and the fruits as they were. `mid`, `q` and `boards[0]` record the
     * player's update as `DraftPlayer.Update` does; `boards[k]` records the
     * grid before enemy `k`'s update, of which the first `n` ran whole.
     */
    method Update(keys: Player.Keys, now: int, overlaps: (Point, Obstacle) -> bool, enemyHit: bool, touching: int -> bool)
      returns (failure: Option<Error>, ghost mid: array2<int>, ghost q: Queues, n: nat, ghost boards: seq<array2<int>>)
      requires Valid() && (player != null ==> BordersHold(grid, obstacles.items, overlaps, player.gridPos))
      modifies this, grid, obstacles, player, EnemySet(enemies)
      ensures Valid()
      ensures player == null ==>
        failure == Some(AttributeError("'NoneType' object has no attribute 'update'")) && GridUnchanged(grid) &&
        EnemyPoses(enemies) == old(EnemyPoses(enemies))
      ensures player != null ==>
        var ticked := AgentsTicked(player, enemies, chased, grid, obstacles, keys, now, overlaps, mid, q, n, boards, failure);
        ticked
      ensures failure.None? ==> running == (old(running) && !enemyHit) && fruits == Untouched(old(fruits), touching, |old(fruits)|)
      ensures failure.Some? ==> running == old(running) && fruits == old(fruits)
    {
      if player == null {
        failure := Some(AttributeError("'NoneType' object has no attribute 'update'"));
        mid, q, n, boards := grid, Queues([], [], 0), 0, [];
        return;
      }
      failure, mid, q, n, boards := TickAgents(grid, obstacles, player, enemies, chased, keys, now, overlaps);
      label Ticked:
      if failure.None? {
        if enemyHit {
          running := false;
        }
        fruits := Untouched(fruits, touching, |fruits|);
      }
      assert unchanged@Ticked(player, obstacles, grid, mid);
      assert unchanged@Ticked(EnemySet(enemies), Holders(chased), boards);
    }
  }

  /**
   * How the enemies' updates stopped at enemy `n`: it holds no player, its
   * update reads one, and it raised right after counting the tick; the
   * enemies after it kept their state.
   */
  ghost predicate Stalled(es: seq<Enemy>, was: seq<DraftEnemy.Pose>, became: seq<DraftEnemy.Pose>,
                          targets: seq<Option<Point>>, n: nat, error: Error)
  {
    n < |was| == |became| == |targets| &&
    error == AttributeError("'NoneType' object has no attribute 'rect'") && targets[n].None? &&
    DraftEnemy.ReadsPlayer(was[n]) && became[n] == was[n].(clock := was[n].clock + 1) &&
    became[n + 1..] == was[n + 1..]
  }

  /**
   * What the agents' tick did: the player's update, with `mid`, `q` and
   * `boards[0]` its records as `DraftPlayer.Update` gives them; then the
   * updates of the first `n` enemies, in order, each towards the centre
   * of the player it holds; the tick fails exactly when an enemy holding
   * no player reads it, and that enemy is the `n`-th.
   */
  twostate predicate AgentsTicked(player: DraftPlayer, enemies: seq<Enemy>, chased: seq<DraftPlayer?>, grid: array2<int>,
                                  obstacles: ObstacleGroup, keys: Player.Keys, now: int, overlaps: (Point, Obstacle) -> bool,
                                  new mid: array2<int>, q: Queues, n: nat, new boards: seq<array2<int>>, new failure: Option<Error>)
    reads player, mid, obstacles, boards, EnemySet(enemies), Holders(chased)
  {
    && |boards| == n + 1 && n <= |enemies|
    && player.Drained(grid, mid, obstacles, now, q)
    && player.Acted(keys, old(player.State()), q, mid, boards[0], obstacles, overlaps, now)
    && EnemiesFollowed(enemies, old(EnemyPoses(enemies))[..n], EnemyPoses(enemies)[..n], boards, Targets(chased))
    && (failure.None? <==> n == |enemies|)
    && (failure.Some? ==> Stalled(enemies, old(EnemyPoses(enemies)), EnemyPoses(enemies), Targets(chased), n, failure.value))
  }

  /**
   * The player's update, then every enemy's, in order, towards the centre
   * of the player it holds, until one holding none reads it.
   */
  method TickAgents(grid: array2<int>, obstacles: ObstacleGroup, player: DraftPlayer, enemies: seq<Enemy>,
                    chased: seq<DraftPlayer?>, keys: Player.Keys, now: int, overlaps: (Point, Obstacle) -> bool)
    returns (failure: Option<Error>, ghost mid: array2<int>, ghost q: Queues, n: nat, ghost boards: seq<array2<int>>)
    requires player.Valid(grid) && EnemiesValid(enemies, grid) && |chased| == |enemies|
    requires BordersHold(grid, obstacles.items, overlaps, player.gridPos)
    modifies grid, obstacles, player, EnemySet(enemies)
    ensures player.Valid(grid) && EnemiesValid(enemies, grid)
    ensures var ticked := AgentsTicked(player, enemies, chased, grid, obstacles, keys, now, overlaps, mid, q, n, boards, failure);
            ticked
  {
    ghost var post;
    ghost var was := EnemyPoses(enemies);
    mid, q, post := player.Update(keys, grid, obstacles, overlaps, now);
    assert unchanged(EnemySet(enemies));
    assert EnemyPoses(enemies) == was;
    label Played:
    var targets := Targets(chased);
    failure, n, boards := TickEnemies(grid, enemies, targets, post);
    assert unchanged@Played(player, obstacles, mid, post);
    assert unchanged@Played(Holders(chased));
    assert targets == Targets(chased);
  }

  /**
   * `self.enemies.update(self.obstacles)`: every enemy's update, in order,
   * each on the grid the ones before it left, towards the target it is
   * given, until one holding no player reads it. `boards[k]` records the
   * grid before enemy `k`'s update, the first being `first`.
   */
  method TickEnemies(grid: array2<int>, es: seq<Enemy>, targets: seq<Option<Point>>, ghost first: array2<int>)
    returns (failure: Option<Error>, n: nat, ghost boards: seq<array2<int>>)
    requires EnemiesValid(es, grid) && |targets| == |es| && first != grid && SameCells(first, grid)
    modifies grid, EnemySet(es)
    ensures EnemiesValid(es, grid)
    ensures n <= |es| && |boards| == n + 1 && boards[0] == first && SameCells(boards[n], grid)
    ensures forall k :: 0 <= k <= n ==> boards[k] != grid
    ensures EnemiesFollowed(es, old(EnemyPoses(es))[..n], EnemyPoses(es)[..n], boards, targets)
    ensures failure.None? <==> n == |es|
    ensures failure.Some? ==> Stalled(es, old(EnemyPoses(es)), EnemyPoses(es), targets, n, failure.value)
  {
    boards := [first];
    ghost var was, became := [], [];
    n, failure := 0, None;
    while n < |es|
      invariant n <= |es| && EnemiesValid(es, grid)
      invariant |boards| == n + 1 && (forall j :: 0 <= j <= n ==> boards[j] != grid)
      invariant boards[0] == first && SameCells(boards[n], grid)
      invariant |was| == |became| == n
      invariant was == old(EnemyPoses(es))[..n] && became == EnemyPoses(es)[..n] && EnemyPoses(es)[n..] == old(EnemyPoses(es))[n..]
      invariant EnemiesFollowed(es, was, became, boards, targets)
      decreases |es| - n
    {
      if targets[n].None? && DraftEnemy.ReadsPlayer(es[n].State()) {
        Stall(grid, es, n);
        failure := Some(AttributeError("'NoneType' object has no attribute 'rect'"));
        assert old(EnemyPoses(es))[n] == old(EnemyPoses(es))[n..][0];
        assert EnemyPoses(es)[n + 1..] == old(EnemyPoses(es))[n..][1..];
        return;
      }
      ghost var mid := EnemyPoses(es);
      boards, was, became := FollowNth(grid, es, n, targets, boards, was, became);
      PackageLevel.PrefixStep(old(EnemyPoses(es)), mid, EnemyPoses(es), n, was, became);
      n := n + 1;
    }
    assert was == old(EnemyPoses(es)) && became == EnemyPoses(es);
  }

  /** An enemy holding no player counts its tick and goes no further. */
  method Stall(grid: array2<int>, es: seq<Enemy>, k: nat)
    requires k < |es| && EnemiesValid(es, grid) && !es[k].moving
    modifies es[k]
    ensures EnemiesValid(es, grid)
    ensures EnemyPoses(es) == old(EnemyPoses(es))[k := old(es[k].State()).(clock := old(es[k].clock) + 1)]
  {
    es[k].CountTick();
    assert EnemyPoses(es) == old(EnemyPoses(es))[k := es[k].State()];
  }

  /** Enemy `k`'s update, within the list: the updates before it are kept, and the other enemies keep their state. */
  method FollowNth(grid: array2<int>, es: seq<Enemy>, k: nat, targets: seq<Option<Point>>,
                   ghost boards: seq<array2<int>>, ghost was: seq<DraftEnemy.Pose>, ghost became: seq<DraftEnemy.Pose>)
    returns (ghost boards': seq<array2<int>>, ghost was': seq<DraftEnemy.Pose>, ghost became': seq<DraftEnemy.Pose>)
    requires k < |es| == |targets| && EnemiesValid(es, grid)
    requires targets[k].None? ==> !DraftEnemy.ReadsPlayer(es[k].State())
    requires |boards| == k + 1 && (forall j :: 0 <= j <= k ==> boards[j] != grid) && SameCells(boards[k], grid)
    requires EnemiesFollowed(es, was, became, boards, targets)
    modifies grid, es[k]
    ensures EnemiesValid(es, grid)
    ensures EnemyPoses(es) == old(EnemyPoses(es))[k := es[k].State()]
    ensures |boards'| == k + 2 && boards'[..k + 1] == boards && SameCells(boards'[k + 1], grid)
    ensures boards'[0] == boards[0] && forall j :: 0 <= j <= k + 1 ==> boards'[j] != grid
    ensures was' == was + [old(es[k].State())] && became' == became + [es[k].State()]
    ensures EnemiesFollowed(es, was', became', boards', targets)
  {
    boards', was', became' := RecordFollow(grid, es, k, targets, boards, was, became);
    assert EnemyPoses(es) == old(EnemyPoses(es))[k := es[k].State()];
  }

  /** Enemy `k`'s update, added to the record of the updates before it. */
  method RecordFollow(grid: array2<int>, es: seq<Enemy>, k: nat, targets: seq<Option<Point>>,
                      ghost boards: seq<array2<int>>, ghost was: seq<DraftEnemy.Pose>, ghost became: seq<DraftEnemy.Pose>)
    returns (ghost boards': seq<array2<int>>, ghost was': seq<DraftEnemy.Pose>, ghost became': seq<DraftEnemy.Pose>)
    requires k < |es| == |targets| && es[k].Valid() && es[k].grid == grid
    requires targets[k].None? ==> !DraftEnemy.ReadsPlayer(es[k].State())
    requires |boards| == k + 1 && (forall j :: 0 <= j <= k ==> boards[j] != grid) && SameCells(boards[k], grid)
    requires EnemiesFollowed(es, was, became, boards, targets)
    modifies grid, es[k]
    ensures es[k].Valid()
    ensures |boards'| == k + 2 && boards'[..k + 1] == boards && SameCells(boards'[k + 1], grid)
    ensures boards'[0] == boards[0] && forall j :: 0 <= j <= k + 1 ==> boards'[j] != grid
    ensures was' == was + [old(es[k].State())] && became' == became + [es[k].State()]
    ensures EnemiesFollowed(es, was', became', boards', targets)
  {
    assert forall j :: 0 <= j < |boards| ==> boards[j] as object != es[k];
    ghost var p := es[k].State();
    label Before:
    var after := Follow(grid, es[k], Aim(targets[k]), boards[k]);
    assert forall j :: 0 <= j < |boards| ==> unchanged@Before(boards[j]);
    assert EnemiesFollowed(es, was, became, boards, targets);
    boards', was', became' := boards + [after], was + [p], became + [es[k].State()];
    forall j | 0 <= j <= k
      ensures FollowedAt(es, was', became', boards', targets, j)
    {
      if j < k {
        assert FollowedAt(es, was, became, boards, targets, j);
      }
    }
  }

  /** One enemy's update towards `playerCentre`, with the grid recorded after it. */
  method Follow(grid: array2<int>, e: Enemy, playerCentre: Point, ghost pre: array2<int>)
    returns (ghost post: array2<int>)
    requires e.Valid() && e.grid == grid && pre != grid && SameCells(pre, grid)
    modifies grid, e
    ensures e.Valid()
    ensures fresh(post) && SameCells(post, grid)
    ensures e.Followed(old(e.State()), e.State(), pre, post, playerCentre)
  {
    if e.moving {
      post := FollowMoving(grid, e, playerCentre, pre);
    } else {
      post := FollowIdle(grid, e, playerCentre, pre);
    }
  }

  /** `Follow` for a moving enemy: the glide, which leaves the grid alone. */
  method FollowMoving(grid: array2<int>, e: Enemy, playerCentre: Point, ghost pre: array2<int>)
    returns (ghost post: array2<int>)
    requires e.Valid() && e.grid == grid && pre != grid && SameCells(pre, grid) && e.moving
    modifies grid, e
    ensures e.Valid()
    ensures fresh(post) && SameCells(post, grid)
    ensures e.Followed(old(e.State()), e.State(), pre, post, playerCentre)
  {
    e.Update(playerCentre);
    post := Snapshot(grid);
  }

  /** `Follow` for an idle enemy: the path search on the grid `pre` records, and the commitment to its next step. */
  method FollowIdle(grid: array2<int>, e: Enemy, playerCentre: Point, ghost pre: array2<int>)
    returns (ghost post: array2<int>)
    requires e.Valid() && e.grid == grid && pre != grid && SameCells(pre, grid) && !e.moving
    modifies grid, e
    ensures e.Valid()
    ensures fresh(post) && SameCells(post, grid)
    ensures e.Followed(old(e.State()), e.State(), pre, post, playerCentre)
  {
    PathFinder.SameCellsPaths(pre, grid, PathFinder.FreeOnly);
    e.Update(playerCentre);
    post := Snapshot(grid);
  }

  /** The number of player spawns in `ss`. */
  function PlayerSpawns(ss: seq<Spawn>): nat
  {
    if ss == [] then 0 else PlayerSpawns(ss[..|ss| - 1]) + (if ss[|ss| - 1].PlayerSpawn? then 1 else 0)
  }

  /**
   * For each enemy spawn of `ss`, in order, the number of player spawns
   * before it: `load_map` gives each `Enemy1` the player the last of those
   * created, or `None` when there is none.
   */
  function PlayersBefore(ss: seq<Spawn>): seq<nat>
  {
    if ss == [] then []
    else PlayersBefore(ss[..|ss| - 1]) + (if ss[|ss| - 1].EnemySpawn? then [PlayerSpawns(ss[..|ss| - 1])] else [])
  }

  /** No player spawn means no player spawned. */
  lemma {:induction false} NoPlayerSpawns(ss: seq<Spawn>)
    ensures PlayerSpawns(ss) == 0 <==> PackageLevel.NoPlayer(ss)
  {
    if ss != [] {
      var init := ss[..|ss| - 1];
      NoPlayerSpawns(init);
      if PackageLevel.NoPlayer(ss) {
        assert forall k :: 0 <= k < |init| ==> init[k] == ss[k];
      }
    }
  }

  /** What one more spawn adds to the counts. */
  lemma SpawnsStep(spawns: seq<Spawn>, k: nat)
    requires k < |spawns|
    ensures PlayerSpawns(spawns[..k + 1]) == PlayerSpawns(spawns[..k]) + if spawns[k].PlayerSpawn? then 1 else 0
    ensures PlayersBefore(spawns[..k + 1]) ==
      if spawns[k].EnemySpawn? then PlayersBefore(spawns[..k]) + [PlayerSpawns(spawns[..k])] else PlayersBefore(spawns[..k])
  {
    assert spawns[..k + 1][..k] == spawns[..k];
    assert PlayersBefore(spawns[..k]) + [] == PlayersBefore(spawns[..k]);
  }

  /**
   * `Level(level_data)`: an empty 13 x 19 grid, the draft map read into it,
   * its player, enemies and fruits created in map order, the borders
   * added, and the level running. The player's frame is `w` x `h` pixels.
   * The agents are created here after the borders, which touch neither the
   * grid nor any agent, so the level is the same. An enemy holds no player
   * when no 'P' comes before its 'O', and holds the level's player exactly
   * when every 'P' comes before it; between two 'P's it holds the earlier
   * player, which the level no longer updates.
   */
  method NewLevel(rows: seq<string>, w: nat, h: nat, now: int) returns (l: Level)
    requires PackageLevel.Fits(rows)
    ensures fresh(l) && l.Valid() && l.running
    ensures DraftGrid(l.grid, rows)
    ensures l.obstacles.items == MapBoxes(rows, |rows|) + PackageLevel.Borders
    ensures |l.fruits| == MapFruits(Draft, rows, |rows|)
    ensures l.player == null <==> PackageLevel.NoPlayer(MapSpawns(Draft, rows, |rows|))
    ensures var before, total := PlayersBefore(MapSpawns(Draft, rows, |rows|)), PlayerSpawns(MapSpawns(Draft, rows, |rows|));
      && |l.chased| == |before|
      && (forall k :: 0 <= k < |before| ==> before[k] <= total)
      && (forall k :: 0 <= k < |before| ==> (l.chased[k] == null <==> before[k] == 0))
      && (forall k :: 0 <= k < |before| ==> (l.chased[k] != null && l.chased[k] == l.player <==> 0 < before[k] == total))
    ensures var ss := MapSpawns(Draft, rows, |rows|);
      var ps, es, fs, before := PlayerSpawnsOf(ss), EnemySpawnsOf(ss), FruitSpawnsOf(ss), PlayersBefore(ss);
      && (l.player != null ==> ps != [] && l.player.gridPos == ps[|ps| - 1].at)
      && |l.enemies| == |es| && (forall k :: 0 <= k < |es| ==> l.enemies[k].gridPos == es[k].at)
      && |l.fruits| == |fs| && (forall k :: 0 <= k < |fs| ==> l.fruits[k] == TileTopLeft(fs[k].at))
      && |l.chased| == |before|
      && (forall k :: 0 <= k < |before| && l.chased[k] != null ==>
            0 < before[k] <= |ps| && l.chased[k].gridPos == ps[before[k] - 1].at)
  {
    var grid, obstacles, spawns := LoadMap(rows);
    PackageLevel.CreateBorders(obstacles);
    var player, enemies, chased, fruits, players := Populate(spawns, grid, w, h, now);
    NoPlayerSpawns(spawns);
    HoldsLevelPlayer(chased, players, PlayersBefore(spawns));
    label Populated:
    l := new Level(grid, obstacles, player, enemies, chased, fruits);
    assert unchanged@Populated(EnemySet(enemies), players);
  }

  /** `load_map`'s reading of the draft map into a fresh empty grid and obstacle group. */
  method LoadMap(rows: seq<string>) returns (grid: array2<int>, obstacles: ObstacleGroup, spawns: seq<Spawn>)
    requires PackageLevel.Fits(rows)
    ensures fresh(grid) && fresh(obstacles) && DraftGrid(grid, rows)
    ensures obstacles.items == MapBoxes(rows, |rows|)
    ensures spawns == MapSpawns(Draft, rows, |rows|) && FruitSpawns(spawns) == MapFruits(Draft, rows, |rows|)
    ensures forall k :: 0 <= k < |spawns| ==> InGrid(grid, spawns[k].at)
  {
    grid := new int[13, 19]((i, j) => Empty);
    obstacles := new ObstacleGroup([]);
    var count;
    spawns, count := Load(Draft, rows, grid, obstacles);
    MapSpawnsPlaced(Draft, rows, |rows|);
    FruitCountMatchesSpawns(Draft, rows, |rows|);
  }

  /**
   * What `load_map` has created after the spawns `ss`: a player for every
   * 'P' (the level keeps the last), an `Enemy1` for every 'O', holding the
   * player created last before it, and a fruit for every 'A'. `players`
   * lists the players created, in order.
   */
  ghost predicate Built(ss: seq<Spawn>, grid: array2<int>, player: DraftPlayer?, enemies: seq<Enemy>,
                        chased: seq<DraftPlayer?>, fruits: seq<Point>, players: seq<DraftPlayer>)
    reads player, EnemySet(enemies), players
  {
    && SpawnedAt(ss, enemies, fruits, players)
    && (player != null ==> player.Valid(grid)) && EnemiesValid(enemies, grid)
    && |fruits| == FruitSpawns(ss)
    && |players| == PlayerSpawns(ss) && Distinct(players)
    && player == (if players == [] then null else players[|players| - 1])
    && |chased| == |enemies|
    && Chasing(chased, players, PlayersBefore(ss))
  }

  /**
   * Where `load_map` has put what it created for the spawns `ss`, by
   * index: player `j` on the tile of the `j`-th 'P', enemy `k` on the tile
   * of the `k`-th 'O', and fruit `k` at the top-left pixel of the tile of
   * the `k`-th 'A'.
   */
  ghost predicate SpawnedAt(ss: seq<Spawn>, enemies: seq<Enemy>, fruits: seq<Point>, players: seq<DraftPlayer>)
    reads EnemySet(enemies), players
  {
    var ps, es, fs := PlayerSpawnsOf(ss), EnemySpawnsOf(ss), FruitSpawnsOf(ss);
    && |players| == |ps| && (forall j :: 0 <= j < |ps| ==> players[j].gridPos == ps[j].at)
    && |enemies| == |es| && (forall k :: 0 <= k < |es| ==> enemies[k].gridPos == es[k].at)
    && |fruits| == |fs| && (forall k :: 0 <= k < |fs| ==> fruits[k] == TileTopLeft(fs[k].at))
  }

  /** A player spawn adds a player on its tile. */
  lemma SpawnedAtPlayer(ss: seq<Spawn>, s: Spawn, enemies: seq<Enemy>, fruits: seq<Point>, players: seq<DraftPlayer>,
                        p: DraftPlayer)
    requires SpawnedAt(ss, enemies, fruits, players) && s.PlayerSpawn? && p.gridPos == s.at
    ensures SpawnedAt(ss + [s], enemies, fruits, players + [p])
  {
    SpawnsOfAppend(ss, s);
    var ps := PlayerSpawnsOf(ss + [s]);
    forall j | 0 <= j < |ps|
      ensures (players + [p])[j].gridPos == ps[j].at
    {
      if j < |players| {
        assert (players + [p])[j] == players[j];
      }
    }
  }

  /** An enemy spawn adds an enemy on its tile. */
  lemma SpawnedAtEnemy(ss: seq<Spawn>, s: Spawn, enemies: seq<Enemy>, fruits: seq<Point>, players: seq<DraftPlayer>,
                       e: Enemy)
    requires SpawnedAt(ss, enemies, fruits, players) && s.EnemySpawn? && e.gridPos == s.at
    ensures SpawnedAt(ss + [s], enemies + [e], fruits, players)
  {
    SpawnsOfAppend(ss, s);
    var es := EnemySpawnsOf(ss + [s]);
    forall k | 0 <= k < |es|
      ensures (enemies + [e])[k].gridPos == es[k].at
    {
      if k < |enemies| {
        assert (enemies + [e])[k] == enemies[k];
      }
    }
  }

  /** A fruit spawn adds the top-left pixel of its tile. */
  lemma SpawnedAtFruit(ss: seq<Spawn>, s: Spawn, enemies: seq<Enemy>, fruits: seq<Point>, players: seq<DraftPlayer>)
    requires SpawnedAt(ss, enemies, fruits, players) && s.FruitSpawn?
    ensures SpawnedAt(ss + [s], enemies, fruits + [TileTopLeft(s.at)], players)
  {
    SpawnsOfAppend(ss, s);
  }

  /**
   * The objects `load_map` creates as it meets their characters, in map
   * order. No constructor writes the grid.
   */
  method Populate(spawns: seq<Spawn>, grid: array2<int>, w: nat, h: nat, now: int)
    returns (player: DraftPlayer?, enemies: seq<Enemy>, chased: seq<DraftPlayer?>, fruits: seq<Point>,
             ghost players: seq<DraftPlayer>)
    requires forall k :: 0 <= k < |spawns| ==> InGrid(grid, spawns[k].at)
    ensures Built(spawns, grid, player, enemies, chased, fruits, players)
  {
    player, enemies, chased, fruits, players := null, [], [], [], [];
    for k := 0 to |spawns|
      invariant Built(spawns[..k], grid, player, enemies, chased, fruits, players)
    {
      player, enemies, chased, fruits, players := SpawnOne(spawns, k, grid, w, h, now, player, enemies, chased, fruits, players);
    }
    assert spawns[..|spawns|] == spawns;
  }

  /** No object occurs twice in `xs`. */
  ghost predicate Distinct<T>(xs: seq<T>)
  {
    forall i, j :: 0 <= i < j < |xs| ==> xs[i] != xs[j]
  }

  /**
   * An enemy holds no player exactly when no player came before it, and
   * holds the last player created exactly when all of them came before it.
   */
  lemma HoldsLevelPlayer(chased: seq<DraftPlayer?>, players: seq<DraftPlayer>, before: seq<nat>)
    requires Chasing(chased, players, before) && Distinct(players)
    ensures forall k :: 0 <= k < |before| ==> before[k] <= |players|
    ensures forall k :: 0 <= k < |before| ==> (chased[k] == null <==> before[k] == 0)
    ensures forall k :: 0 <= k < |before| ==>
      (chased[k] != null && chased[k] == (if players == [] then null else players[|players| - 1]) <==>
       0 < before[k] == |players|)
  {
    forall k | 0 <= k < |before|
      ensures chased[k] != null && chased[k] == (if players == [] then null else players[|players| - 1]) ==>
              before[k] == |players|
    {
      if chased[k] != null && chased[k] == (if players == [] then null else players[|players| - 1]) {
        assert players[before[k] - 1] == players[|players| - 1];
      }
    }
  }

  /** A new object keeps a list distinct. */
  lemma DistinctAppend<T>(xs: seq<T>, x: T)
    requires Distinct(xs) && x !in xs
    ensures Distinct(xs + [x])
  {
  }

  /** Enemy `k` holds the last of the first `before[k]` players, or none. */
  ghost predicate Chasing(chased: seq<DraftPlayer?>, players: seq<DraftPlayer>, before: seq<nat>)
  {
    |chased| == |before| &&
    forall k :: 0 <= k < |chased| ==>
      before[k] <= |players| && chased[k] == if before[k] == 0 then null else players[before[k] - 1]
  }

  /** A new player leaves every enemy's player in place; a new enemy holds the player created last. */
  lemma ChasingStep(chased: seq<DraftPlayer?>, players: seq<DraftPlayer>, before: seq<nat>,
                    chased': seq<DraftPlayer?>, players': seq<DraftPlayer>, before': seq<nat>)
    requires Chasing(chased, players, before)
    requires (chased' == chased && before' == before && |players'| == |players| + 1 && players'[..|players|] == players) ||
             (players' == players && chased' == chased + [if players == [] then null else players[|players| - 1]] &&
              before' == before + [|players|])
    ensures Chasing(chased', players', before')
  {
    forall k | 0 <= k < |chased'|
      ensures before'[k] <= |players'| && chased'[k] == if before'[k] == 0 then null else players'[before'[k] - 1]
    {
      if k < |chased| {
        assert chased'[k] == chased[k] && before'[k] == before[k];
        if before[k] != 0 {
          assert players'[before[k] - 1] == players'[..|players|][before[k] - 1];
        }
      }
    }
  }

  /** The object one draft spawn creates, added to what `load_map` has created so far. */
  method SpawnOne(spawns: seq<Spawn>, k: nat, grid: array2<int>, w: nat, h: nat, now: int,
                  player: DraftPlayer?, enemies: seq<Enemy>, chased: seq<DraftPlayer?>, fruits: seq<Point>,
                  ghost players: seq<DraftPlayer>)
    returns (player': DraftPlayer?, enemies': seq<Enemy>, chased': seq<DraftPlayer?>, fruits': seq<Point>,
             ghost players': seq<DraftPlayer>)
    requires k < |spawns| && InGrid(grid, spawns[k].at)
    requires Built(spawns[..k], grid, player, enemies, chased, fruits, players)
    ensures Built(spawns[..k + 1], grid, player', enemies', chased', fruits', players')
  {
    PackageLevel.SpawnsPrefix(spawns, k);
    SpawnsStep(spawns, k);
    var s := spawns[k];
    assert spawns[..k + 1] == spawns[..k] + [s];
    ghost var before := PlayersBefore(spawns[..k]);
    player', enemies', chased', fruits', players' := player, enemies, chased, fruits, players;
    if s.PlayerSpawn? {
      label Before:
      player' := PlayerAt(s.at, grid, w, h, now);
      assert unchanged@Before(if player == null then {} else {player}, EnemySet(enemies), players);
      players' := players + [player'];
      DistinctAppend(players, player');
      assert players'[..|players|] == players;
      ChasingStep(chased, players, before, chased', players', before);
      SpawnedAtPlayer(spawns[..k], s, enemies, fruits, players, player');
    } else if s.EnemySpawn? {
      label Before:
      var e := EnemyAt(s.at, grid);
      assert unchanged@Before(if player == null then {} else {player}, EnemySet(enemies), players);
      enemies' := enemies + [e];
      chased' := chased + [player];
      ChasingStep(chased, players, before, chased', players', before + [|players|]);
      SpawnedAtEnemy(spawns[..k], s, enemies, fruits, players, e);
    } else {
      fruits' := fruits + [TileTopLeft(s.at)];
      SpawnedAtFruit(spawns[..k], s, enemies, fruits, players);
    }
  }

  /** A player created at the top-left pixel of tile `at`, on that tile. */
  method PlayerAt(at: Pos, grid: array2<int>, w: nat, h: nat, now: int) returns (p: DraftPlayer)
    requires InGrid(grid, at)
    ensures fresh(p) && p.Valid(grid) && p.gridPos == at && !p.moving
  {
    var tl := TileTopLeft(at);
    TileOfTopLeft(at);
    p := new DraftPlayer(tl.x, tl.y, w, h, now);
  }

  /** An `Enemy1` created at the top-left pixel of tile `at`, on that tile of `grid`. */
  method EnemyAt(at: Pos, grid: array2<int>) returns (e: Enemy)
    requires InGrid(grid, at)
    ensures fresh(e) && e.Valid() && e.grid == grid && e.gridPos == at && !e.moving && e.path == []
  {
    var tl := TileTopLeft(at);
    DraftEnemy.NearestTileOfTopLeft(at);
    e := new DraftEnemy.Enemy1(tl.x, tl.y, grid);
  }
}
