/**
 * The player: tile-to-tile walking with turn-before-move arrows, and the
 * space-bar action that queues a straight run of cells ahead to be built
 * into boxes or cleared of boxes, one cell per `change_interval` ms.
 *
 * `now` stands for `pygame.time.get_ticks()`, `Keys` for the pressed-key
 * table, and `hits(p, items)` for "the walking frame placed with its
 * top-left at `p` overlaps some obstacle of `items`" (`colliderect`).
 */
module Player {
  import opened Wrappers
  import opened Settings
  import opened Motion
  import opened Animation
  import opened Obstacles

  const WalkFrames: int := 3
  const ActionFrames: int := 3

  datatype State = Idle | Action

  /** The keys the update reads. */
  datatype Keys = Keys(space: bool, left: bool, right: bool, up: bool, down: bool)

  /** The arrow that counts this frame: left, then right, then up, then down. */
  function Pressed(keys: Keys): (r: Option<Direction>)
    ensures r == None <==> !keys.left && !keys.right && !keys.up && !keys.down
    ensures r == Some(Left) <==> keys.left
    ensures r == Some(Right) <==> keys.right && !keys.left
    ensures r == Some(Up) <==> keys.up && !keys.left && !keys.right
    ensures r == Some(Down) <==> keys.down && !keys.left && !keys.right && !keys.up
  {
    if keys.left then Some(Left)
    else if keys.right then Some(Right)
    else if keys.up then Some(Up)
    else if keys.down then Some(Down)
    else None
  }

  /** The cell `k` steps from `p` in direction `d`. */
  function Ray(p: Pos, d: Direction, k: int): (r: Pos)
    ensures r == (p.0 + k * Vector(d).0, p.1 + k * Vector(d).1)
  {
    match d
    case Left => (p.0, p.1 - k)
    case Right => (p.0, p.1 + k)
    case Up => (p.0 - k, p.1)
    case Down => (p.0 + k, p.1)
  }

  /**
   * `run` is the maximal run of in-grid cells holding `code` that starts at
   * the cell next to `from` and goes outward in direction `d`.
   */
  ghost predicate IsRun(grid: array2<int>, from: Pos, d: Direction, code: int, run: seq<Pos>)
    reads grid
  {
    (forall i :: 0 <= i < |run| ==> run[i] == Ray(from, d, i + 1) && InGrid(grid, run[i]) && grid[run[i].0, run[i].1] == code) &&
    var stop := Ray(from, d, |run| + 1); !InGrid(grid, stop) || grid[stop.0, stop.1] != code
  }

  /** Stepping once and then `k` times is stepping `k + 1` times. */
  lemma RayShift(p: Pos, d: Direction, k: int)
    ensures Ray(Shift(p, d), d, k) == Ray(p, d, k + 1)
  {
  }

  /** The run of cells holding `code` from `p` onwards, by recursion on the ray. */
  function RunFrom(grid: array2<int>, p: Pos, d: Direction, code: int): seq<Pos>
    reads grid
    decreases Reach(grid, p, d)
  {
    if InGrid(grid, p) && grid[p.0, p.1] == code then [p] + RunFrom(grid, Shift(p, d), d, code) else []
  }

  /** Every maximal run is the recursive one. */
  lemma {:induction false} IsRunIsRunFrom(grid: array2<int>, from: Pos, d: Direction, code: int, run: seq<Pos>)
    requires IsRun(grid, from, d, code, run)
    ensures run == RunFrom(grid, Shift(from, d), d, code)
    decreases |run|
  {
    var n := Shift(from, d);
    if run != [] {
      assert run[0] == n;
      var rest := run[1..];
      forall i | 0 <= i < |rest|
        ensures rest[i] == Ray(n, d, i + 1)
      {
        RayShift(from, d, i + 1);
      }
      RayShift(from, d, |rest| + 1);
      IsRunIsRunFrom(grid, n, d, code, run[1..]);
    }
  }

  /** The recursive run is a maximal run. */
  lemma {:induction false} RunFromIsRun(grid: array2<int>, from: Pos, d: Direction, code: int)
    ensures IsRun(grid, from, d, code, RunFrom(grid, Shift(from, d), d, code))
    decreases Reach(grid, Shift(from, d), d)
  {
    var n := Shift(from, d);
    RayShift(from, d, 0);
    if InGrid(grid, n) && grid[n.0, n.1] == code {
      RunFromIsRun(grid, n, d, code);
      var rest := RunFrom(grid, Shift(n, d), d, code);
      var run := [n] + rest;
      assert RunFrom(grid, n, d, code) == run;
      RayPrepend(from, d, rest);
      RayShift(from, d, |run|);
      assert IsRun(grid, from, d, code, run);
    } else {
      assert RunFrom(grid, n, d, code) == [];
    }
  }

  /** Cells on the ray from the next cell are, with that cell in front, on the ray from `from`. */
  lemma RayPrepend(from: Pos, d: Direction, rest: seq<Pos>)
    requires forall i :: 0 <= i < |rest| ==> rest[i] == Ray(Shift(from, d), d, i + 1)
    ensures forall i :: 0 <= i < |rest| + 1 ==> ([Shift(from, d)] + rest)[i] == Ray(from, d, i + 1)
  {
    var run := [Shift(from, d)] + rest;
    forall i | 0 <= i < |run|
      ensures run[i] == Ray(from, d, i + 1)
    {
      RayShift(from, d, i);
      if i > 0 {
        assert run[i] == rest[i - 1];
      }
    }
  }

  /** A record of the grid's cells has the same runs as the grid. */
  lemma RunOnRecord(a: array2<int>, b: array2<int>, from: Pos, d: Direction, code: int, run: seq<Pos>)
    requires SameCells(a, b)
    ensures IsRun(a, from, d, code, run) <==> IsRun(b, from, d, code, run)
  {
  }

  /** The maximal run is unique: the scan has exactly one correct answer. */
  lemma RunUnique(grid: array2<int>, from: Pos, d: Direction, code: int, a: seq<Pos>, b: seq<Pos>)
    requires IsRun(grid, from, d, code, a) && IsRun(grid, from, d, code, b)
    ensures a == b
  {
    IsRunIsRunFrom(grid, from, d, code, a);
    IsRunIsRunFrom(grid, from, d, code, b);
  }

  /** How many more steps in direction `d` stay in the grid, plus one. */
  function Reach(grid: array2<int>, p: Pos, d: Direction): int
  {
    match d
    case Up => p.0 + 1
    case Down => grid.Length0 - p.0
    case Left => p.1 + 1
    case Right => grid.Length1 - p.1
  }

  /** The outward scan loop of `create_obs` / `destroy_obs`. */
  method ScanRun(grid: array2<int>, from: Pos, d: Direction, code: int) returns (run: seq<Pos>)
    ensures IsRun(grid, from, d, code, run)
    ensures run == RunFrom(grid, Shift(from, d), d, code)
  {
    var n := Shift(from, d);
    run := [];
    while InGrid(grid, n) && grid[n.0, n.1] == code
      invariant n == Ray(from, d, |run| + 1)
      invariant forall i :: 0 <= i < |run| ==>
        run[i] == Ray(from, d, i + 1) && InGrid(grid, run[i]) && grid[run[i].0, run[i].1] == code
      decreases Reach(grid, n, d)
    {
      run := run + [n];
      n := Shift(n, d);
    }
    IsRunIsRunFrom(grid, from, d, code, run);
  }

  /**
   * `grid[ny][nx]` as numpy evaluates it: an index in `[-n, n)` is taken
   * modulo the dimension, anything else raises `IndexError`.
   */
  function NumpyCell(grid: array2<int>, p: Pos): (r: Result<int, Error>)
    reads grid
    ensures InGrid(grid, p) ==> r == Success(grid[p.0, p.1])
    ensures r.Failure? <==> !(-grid.Length0 <= p.0 < grid.Length0 && -grid.Length1 <= p.1 < grid.Length1)
  {
    if -grid.Length0 <= p.0 < grid.Length0 && -grid.Length1 <= p.1 < grid.Length1 then
      var r := if p.0 < 0 then p.0 + grid.Length0 else p.0;
      var c := if p.1 < 0 then p.1 + grid.Length1 else p.1;
      Success(grid[r, c])
    else Failure(IndexError)
  }

  /**
   * `change_obs` as written looks up the facing cell with no bounds check.
   * On the 13x19 level grid, a player on the bottom row facing down makes
   * that lookup raise `IndexError`, although the scans it would start are
   * bounds-checked and would simply find an empty run.
   */
  lemma ChangeObsLookupFails(grid: array2<int>, col: int)
    requires grid.Length0 == 13 && grid.Length1 == 19 && 0 <= col < 19
    ensures NumpyCell(grid, Shift((12, col), Down)) == Failure(IndexError)
    ensures !InGrid(grid, Shift((12, col), Down))
  {
  }

  /**
   * The wrap-around case: a player on the top row facing up reads row -1,
   * which numpy takes as the bottom row, a cell that is not ahead of the player.
   */
  lemma ChangeObsLookupWraps(grid: array2<int>, col: int)
    requires grid.Length0 == 13 && grid.Length1 == 19 && 0 <= col < 19
    ensures NumpyCell(grid, Shift((0, col), Up)) == Success(grid[12, col])
    ensures !InGrid(grid, Shift((0, col), Up))
  {
  }

  class Player {
    var direction: Direction
    var frameIndex: int
    var actionFrameIndex: int
    var state: State
    var lastAnimTime: int
    const animInterval: int
    var image: Image
    var centre: Point          // rect.center
    var gridPos: Pos
    var targetPos: Point       // a tile centre once a move has started
    var moving: bool
    const moveSpeed: int
    var pendingCreate: seq<Pos>
    var pendingDestroy: seq<Pos>
    var nextChangeTime: int
    const changeInterval: int
    var spacePressedLastFrame: bool

    /** The player's cell and every queued cell are in the grid, and the frame counters are in range. */
    ghost predicate Valid(grid: array2<int>)
      reads this
    {
      moveSpeed > 0 && InGrid(grid, gridPos) &&
      (forall i :: 0 <= i < |pendingCreate| ==> InGrid(grid, pendingCreate[i])) &&
      (forall i :: 0 <= i < |pendingDestroy| ==> InGrid(grid, pendingDestroy[i])) &&
      0 <= frameIndex < WalkFrames && (state == Action ==> 0 <= actionFrameIndex < ActionFrames)
    }

    /** `Player(x, y)` with a walking frame of `w` x `h` pixels placed at top-left (x, y). */
    constructor (x: int, y: int, w: nat, h: nat, now: int)
      ensures direction == Down && frameIndex == 0 && actionFrameIndex == 0 && state == Idle
      ensures lastAnimTime == now && animInterval == 200 && image == Image(WalkStrip(Down), 0)
      ensures centre == Point(x + w / 2, y + h / 2)
      ensures gridPos == TileOf(x, y) && targetPos == Point(x, y) && !moving && moveSpeed == 3
      ensures pendingCreate == [] && pendingDestroy == [] && nextChangeTime == 0 && changeInterval == 100
      ensures !spacePressedLastFrame
    {
      direction := Down;
      frameIndex := 0;
      actionFrameIndex := 0;
      state := Idle;
      lastAnimTime := now;
      animInterval := 200;
      image := Image(WalkStrip(Down), 0);
      centre := Point(x + w / 2, y + h / 2);
      gridPos := TileOf(x, y);
      targetPos := Point(x, y);
      moving := false;
      moveSpeed := 3;
      pendingCreate := [];
      pendingDestroy := [];
      nextChangeTime := 0;
      changeInterval := 100;
      spacePressedLastFrame := false;
    }

    /** Everything but the two queues and the change time is as before. */
    twostate predicate OnlyQueuesChanged()
      reads this
    {
      direction == old(direction) && frameIndex == old(frameIndex) &&
      actionFrameIndex == old(actionFrameIndex) && state == old(state) &&
      lastAnimTime == old(lastAnimTime) && image == old(image) && centre == old(centre) &&
      gridPos == old(gridPos) && targetPos == old(targetPos) && moving == old(moving) &&
      spacePressedLastFrame == old(spacePressedLastFrame)
    }

    /** `create_obs`: queue the run of empty cells ahead to be built, dropping any destroy queue. */
    method CreateObs(grid: array2<int>, now: int)
      requires Valid(grid)
      modifies this
      ensures Valid(grid) && OnlyQueuesChanged()
      ensures pendingDestroy == [] && IsRun(grid, gridPos, direction, Empty, pendingCreate)
      ensures nextChangeTime == now + changeInterval
    {
      pendingDestroy := [];
      pendingCreate := ScanRun(grid, gridPos, direction, Empty);
      nextChangeTime := now + changeInterval;
    }

    /** `destroy_obs`: queue the run of wall cells ahead to be cleared, dropping any create queue. */
    method DestroyObs(grid: array2<int>, now: int)
      requires Valid(grid)
      modifies this
      ensures Valid(grid) && OnlyQueuesChanged()
      ensures pendingCreate == [] && IsRun(grid, gridPos, direction, Wall, pendingDestroy)
      ensures nextChangeTime == now + changeInterval
    {
      pendingCreate := [];
      pendingDestroy := ScanRun(grid, gridPos, direction, Wall);
      nextChangeTime := now + changeInterval;
    }

    /**
     * `change_obs` with the facing cell bounds-checked: a wall ahead starts
     * a destroy run, an empty cell ahead a create run, anything else (or the
     * edge of the grid) leaves the queues alone; the action animation starts
     * in every case.
     */
    method ChangeObs(grid: array2<int>, now: int)
      requires Valid(grid)
      modifies this
      ensures Valid(grid)
      ensures state == Action && actionFrameIndex == 0 && lastAnimTime == now
      ensures direction == old(direction) && frameIndex == old(frameIndex) && image == old(image)
      ensures centre == old(centre) && gridPos == old(gridPos) && targetPos == old(targetPos)
      ensures moving == old(moving) && spacePressedLastFrame == old(spacePressedLastFrame)
      ensures var ahead := Shift(gridPos, direction);
        && (InGrid(grid, ahead) && grid[ahead.0, ahead.1] == Wall ==>
              pendingCreate == [] && IsRun(grid, gridPos, direction, Wall, pendingDestroy) &&
              nextChangeTime == now + changeInterval)
        && (InGrid(grid, ahead) && grid[ahead.0, ahead.1] == Empty ==>
              pendingDestroy == [] && IsRun(grid, gridPos, direction, Empty, pendingCreate) &&
              nextChangeTime == now + changeInterval)
        && (!InGrid(grid, ahead) || (grid[ahead.0, ahead.1] != Wall && grid[ahead.0, ahead.1] != Empty) ==>
              pendingCreate == old(pendingCreate) && pendingDestroy == old(pendingDestroy) &&
              nextChangeTime == old(nextChangeTime))
    {
      var ahead := Shift(gridPos, direction);
      if InGrid(grid, ahead) && grid[ahead.0, ahead.1] == Wall {
        DestroyObs(grid, now);
      } else if InGrid(grid, ahead) && grid[ahead.0, ahead.1] == Empty {
        CreateObs(grid, now);
      }
      state := Action;
      actionFrameIndex := 0;
      lastAnimTime := now;
    }

    // -------------------------------------------------------------------
    // The phases of `update`, each described by a two-state predicate.

    /** Phase 1, in `action`: every `anim_interval` ms the action frame advances; after the last one the player is idle again. */
    twostate predicate ActionTicked(now: int)
      reads this
    {
      var elapsed := now - old(lastAnimTime) >= animInterval;
      direction == old(direction) && frameIndex == old(frameIndex) && centre == old(centre) &&
      gridPos == old(gridPos) && targetPos == old(targetPos) && moving == old(moving) &&
      pendingCreate == old(pendingCreate) && pendingDestroy == old(pendingDestroy) &&
      nextChangeTime == old(nextChangeTime) && spacePressedLastFrame == old(spacePressedLastFrame) &&
      (!elapsed ==> state == old(state) && actionFrameIndex == old(actionFrameIndex) &&
                    lastAnimTime == old(lastAnimTime) && image == old(image)) &&
      (elapsed ==> lastAnimTime == now && actionFrameIndex == old(actionFrameIndex) + 1 &&
                   (actionFrameIndex < ActionFrames ==> state == Action && image == Image(ActionStrip(direction), actionFrameIndex)) &&
                   (actionFrameIndex >= ActionFrames ==> state == Idle && image == Image(WalkStrip(direction), 0)))
    }

    method ActionTick(grid: array2<int>, now: int)
      requires Valid(grid) && state == Action
      modifies this
      ensures Valid(grid) && ActionTicked(now)
    {
      if now - lastAnimTime >= animInterval {
        lastAnimTime := now;
        actionFrameIndex := actionFrameIndex + 1;
        if actionFrameIndex < ActionFrames {
          image := Image(ActionStrip(direction), actionFrameIndex);
        } else {
          state := Idle;
          image := Image(WalkStrip(direction), 0);
        }
      }
    }

    /**
     * Phase 2: one queued cell is cleared (destroy queue first) or built.
     * `post` holds the grid's cells after it.
     */
    twostate predicate Drained(grid: array2<int>, new post: array2<int>, obstacles: ObstacleGroup, now: int)
      reads this, post, obstacles
    {
      direction == old(direction) && frameIndex == old(frameIndex) &&
      actionFrameIndex == old(actionFrameIndex) && state == old(state) &&
      lastAnimTime == old(lastAnimTime) && image == old(image) && centre == old(centre) &&
      gridPos == old(gridPos) && targetPos == old(targetPos) && moving == old(moving) &&
      spacePressedLastFrame == old(spacePressedLastFrame) &&
      nextChangeTime == now + changeInterval &&
      if old(pendingDestroy) != [] then
        var t := old(pendingDestroy)[0];
        var items := old(obstacles.items);
        var hit := exists j :: 0 <= j < |items| && TileOfObstacle(items[j]) == t;
        pendingDestroy == old(pendingDestroy)[1..] && pendingCreate == old(pendingCreate) &&
        (hit ==> (exists i :: FirstOnTile(items, t, i) && obstacles.items == items[..i] + items[i + 1..]) &&
                 InGrid(post, t) && post[t.0, t.1] == Empty && KeptFromOldExcept(grid, post, t, t)) &&
        (!hit ==> obstacles.items == items && KeptFromOld(grid, post))
      else
        old(pendingCreate) != [] &&
        var t := old(pendingCreate)[0];
        pendingCreate == old(pendingCreate)[1..] && pendingDestroy == old(pendingDestroy) &&
        obstacles.items == old(obstacles.items) + [Obstacle(TileTopLeft(t))] &&
        InGrid(post, t) && post[t.0, t.1] == Wall && KeptFromOldExcept(grid, post, t, t)
    }

    method Drain(grid: array2<int>, obstacles: ObstacleGroup, now: int)
      requires Valid(grid) && (pendingDestroy != [] || pendingCreate != [])
      modifies this, grid, obstacles
      ensures Valid(grid) && Drained(grid, grid, obstacles, now)
    {
      if pendingDestroy != [] {
        var t := pendingDestroy[0];
        pendingDestroy := pendingDestroy[1..];
        var found := obstacles.RemoveFirstOnTile(t);
        if found {
          grid[t.0, t.1] := Empty;
        }
      } else {
        var t := pendingCreate[0];
        pendingCreate := pendingCreate[1..];
        obstacles.Add(Obstacle(TileTopLeft(t)));
        grid[t.0, t.1] := Wall;
      }
      nextChangeTime := now + changeInterval;
    }

    /** Phase 3: the centre glides towards the target tile and the walk frame cycles. */
    twostate predicate Glided(now: int)
      reads this
    {
      var s := Advance(old(centre), old(targetPos), if moveSpeed > 0 then moveSpeed else 1);
      var elapsed := now - old(lastAnimTime) >= animInterval;
      centre == s.pos && moving == !s.arrived &&
      direction == old(direction) && gridPos == old(gridPos) && targetPos == old(targetPos) &&
      actionFrameIndex == old(actionFrameIndex) && state == old(state) &&
      pendingCreate == old(pendingCreate) && pendingDestroy == old(pendingDestroy) &&
      nextChangeTime == old(nextChangeTime) && spacePressedLastFrame == old(spacePressedLastFrame) &&
      (!elapsed ==> lastAnimTime == old(lastAnimTime) && frameIndex == old(frameIndex) && image == old(image)) &&
      (elapsed ==> lastAnimTime == now && frameIndex == (old(frameIndex) + 1) % WalkFrames &&
                   image == Image(WalkStrip(direction), frameIndex))
    }

    method Glide(grid: array2<int>, now: int)
      requires Valid(grid) && moving
      modifies this
      ensures Valid(grid) && Glided(now)
    {
      var s := Advance(centre, targetPos, moveSpeed);
      centre := s.pos;
      if s.arrived {
        moving := false;
      }
      if now - lastAnimTime >= animInterval {
        lastAnimTime := now;
        frameIndex := (frameIndex + 1) % WalkFrames;
        image := Image(WalkStrip(direction), frameIndex);
      }
    }

    /**
     * Phase 4: a space press that was not held last frame starts
     * `change_obs`, which scans the grid as it was at the start of the
     * frame; `space_pressed_last_frame` ends up equal to the key's state.
     */
    twostate predicate SpaceHandled(keys: Keys, grid: array2<int>, now: int)
      reads this
    {
      var fire := keys.space && !old(spacePressedLastFrame);
      var ahead := Shift(old(gridPos), old(direction));
      var pc := pendingCreate;
      var pd := pendingDestroy;
      spacePressedLastFrame == keys.space &&
      (fire ==> state == Action && actionFrameIndex == 0 && lastAnimTime == now) &&
      (fire && InGrid(grid, ahead) && old(grid[ahead.0, ahead.1]) == Wall ==>
         pc == [] && old(allocated(pd)) && old(IsRun(grid, gridPos, direction, Wall, pd)) &&
         nextChangeTime == now + changeInterval) &&
      (fire && InGrid(grid, ahead) && old(grid[ahead.0, ahead.1]) == Empty ==>
         pd == [] && old(allocated(pc)) && old(IsRun(grid, gridPos, direction, Empty, pc)) &&
         nextChangeTime == now + changeInterval) &&
      (!fire ==> state == old(state) && actionFrameIndex == old(actionFrameIndex) && lastAnimTime == old(lastAnimTime)) &&
      (!fire || !InGrid(grid, ahead) || (old(grid[ahead.0, ahead.1]) != Wall && old(grid[ahead.0, ahead.1]) != Empty) ==>
         pc == old(pendingCreate) && pd == old(pendingDestroy) && nextChangeTime == old(nextChangeTime))
    }

    method SpaceInput(keys: Keys, grid: array2<int>, now: int)
      requires Valid(grid)
      modifies this
      ensures Valid(grid) && SpaceHandled(keys, grid, now)
      ensures direction == old(direction) && frameIndex == old(frameIndex) && image == old(image)
      ensures centre == old(centre) && gridPos == old(gridPos) && targetPos == old(targetPos)
      ensures moving == old(moving)
    {
      if keys.space && !spacePressedLastFrame {
        ChangeObs(grid, now);
        spacePressedLastFrame := true;
      } else if !keys.space {
        spacePressedLastFrame := false;
      }
      var pc, pd := pendingCreate, pendingDestroy;
      forall i | 0 <= i < |pc| ensures old(allocated(pc[i])) {
        var (r, c) := pc[i];
        assert pc[i] == (r, c);
      }
      forall i | 0 <= i < |pd| ensures old(allocated(pd[i])) {
        var (r, c) := pd[i];
        assert pd[i] == (r, c);
      }
    }

    /**
     * The border obstacles around the grid: walking off the grid in any
     * direction from `p` collides with something.
     */
    predicate BordersBlock(grid: array2<int>, obstacles: ObstacleGroup, hits: (Point, seq<Obstacle>) -> bool, p: Pos)
      reads obstacles
    {
      forall d :: !InGrid(grid, Shift(p, d)) ==> hits(TileTopLeft(Shift(p, d)), obstacles.items)
    }

    /**
     * Phase 5: the first pressed arrow turns the player; held in the
     * direction already faced, it moves one tile unless the walking frame
     * placed on that tile would collide with an obstacle. The player's cell
     * is marked `3` whenever a move is tried. `post` holds the grid's cells
     * after it.
     */
    twostate predicate Steered(keys: Keys, grid: array2<int>, new post: array2<int>, obstacles: ObstacleGroup,
                               hits: (Point, seq<Obstacle>) -> bool)
      reads this, post, obstacles
    {
      var p := Pressed(keys);
      var tries := p.Some? && p.value == old(direction);
      var n := Shift(old(gridPos), old(direction));
      var blocked := hits(TileTopLeft(n), old(obstacles.items));
      direction == (if p.Some? then p.value else old(direction)) && centre == old(centre) &&
      (!tries ==> gridPos == old(gridPos) && targetPos == old(targetPos) && moving == old(moving) &&
                  KeptFromOld(grid, post)) &&
      (tries && blocked ==> gridPos == old(gridPos) && targetPos == old(targetPos) && moving == old(moving) &&
                            InGrid(post, gridPos) && post[gridPos.0, gridPos.1] == PlayerCell &&
                            KeptFromOldExcept(grid, post, gridPos, gridPos)) &&
      (tries && !blocked ==> gridPos == n && targetPos == TileCentre(n) && moving &&
                             InGrid(post, old(gridPos)) && InGrid(post, n) &&
                             post[old(gridPos).0, old(gridPos).1] == Empty && post[n.0, n.1] == PlayerCell &&
                             KeptFromOldExcept(grid, post, old(gridPos), n)) &&
      frameIndex == (if moving then old(frameIndex) else 0) &&
      image == Image(WalkStrip(direction), frameIndex)
    }

    /** The `if move:` block: one step to `n` unless the walking frame placed there collides. */
    method TryMove(d: Direction, grid: array2<int>, obstacles: ObstacleGroup, hits: (Point, seq<Obstacle>) -> bool)
      requires Valid(grid) && BordersBlock(grid, obstacles, hits, gridPos)
      modifies this, grid
      ensures Valid(grid)
      ensures var n := Shift(old(gridPos), d);
              hits(TileTopLeft(n), obstacles.items) ==>
                gridPos == old(gridPos) && targetPos == old(targetPos) && moving == old(moving) &&
                grid[gridPos.0, gridPos.1] == PlayerCell && GridUnchangedExcept(grid, gridPos, gridPos)
      ensures var n := Shift(old(gridPos), d);
              !hits(TileTopLeft(n), obstacles.items) ==>
                gridPos == n && targetPos == TileCentre(n) && moving && InGrid(grid, n) &&
                grid[old(gridPos).0, old(gridPos).1] == Empty && grid[n.0, n.1] == PlayerCell &&
                GridUnchangedExcept(grid, old(gridPos), n)
      ensures direction == old(direction) && frameIndex == old(frameIndex) && image == old(image)
      ensures centre == old(centre) && actionFrameIndex == old(actionFrameIndex) && state == old(state)
      ensures lastAnimTime == old(lastAnimTime) && pendingCreate == old(pendingCreate)
      ensures pendingDestroy == old(pendingDestroy) && nextChangeTime == old(nextChangeTime)
      ensures spacePressedLastFrame == old(spacePressedLastFrame)
    {
      var n := Shift(gridPos, d);
      if !hits(TileTopLeft(n), obstacles.items) {
        assert n != gridPos;
        grid[gridPos.0, gridPos.1] := Empty;
        gridPos := n;
        targetPos := TileCentre(n);
        moving := true;
      }
      grid[gridPos.0, gridPos.1] := PlayerCell;
    }

    method Steer(keys: Keys, grid: array2<int>, obstacles: ObstacleGroup, hits: (Point, seq<Obstacle>) -> bool)
      requires Valid(grid) && BordersBlock(grid, obstacles, hits, gridPos)
      modifies this, grid
      ensures Valid(grid) && Steered(keys, grid, grid, obstacles, hits)
      ensures actionFrameIndex == old(actionFrameIndex) && state == old(state) && lastAnimTime == old(lastAnimTime)
      ensures pendingCreate == old(pendingCreate) && pendingDestroy == old(pendingDestroy)
      ensures nextChangeTime == old(nextChangeTime) && spacePressedLastFrame == old(spacePressedLastFrame)
    {
      var pressed := Pressed(keys);
      if pressed.Some? {
        if direction == pressed.value {
          TryMove(direction, grid, obstacles, hits);
        } else {
          direction := pressed.value;
        }
      }
      ShowWalk();
    }

    /** The end of `update`: a player at rest shows the first walking frame of its direction. */
    method ShowWalk()
      modifies this
      ensures frameIndex == (if moving then old(frameIndex) else 0)
      ensures image == Image(WalkStrip(direction), frameIndex)
      ensures direction == old(direction) && centre == old(centre) && gridPos == old(gridPos)
      ensures targetPos == old(targetPos) && moving == old(moving)
      ensures actionFrameIndex == old(actionFrameIndex) && state == old(state) && lastAnimTime == old(lastAnimTime)
      ensures pendingCreate == old(pendingCreate) && pendingDestroy == old(pendingDestroy)
      ensures nextChangeTime == old(nextChangeTime) && spacePressedLastFrame == old(spacePressedLastFrame)
    {
      if !moving {
        frameIndex := 0;
      }
      image := Image(WalkStrip(direction), frameIndex);
    }

    /** Phases 4 and 5: the space key, then the arrows. */
    method Input(keys: Keys, grid: array2<int>, obstacles: ObstacleGroup, hits: (Point, seq<Obstacle>) -> bool, now: int)
      requires Valid(grid) && BordersBlock(grid, obstacles, hits, gridPos)
      modifies this, grid
      ensures Valid(grid) && SpaceHandled(keys, grid, now) && Steered(keys, grid, grid, obstacles, hits)
    {
      SpaceInput(keys, grid, now);
      Steer(keys, grid, obstacles, hits);
    }

    /**
     * What one `update` did, with `post` holding the grid's cells after it:
     * exactly one of the action animation, one step of the build/destroy
     * queue, the glide, or the key handling ran, in that order of
     * precedence.
     */
    twostate predicate Updated(keys: Keys, grid: array2<int>, new post: array2<int>, obstacles: ObstacleGroup,
                               hits: (Point, seq<Obstacle>) -> bool, now: int)
      reads this, post, obstacles
    {
      var drains := old(pendingDestroy != [] || pendingCreate != []) && now >= old(nextChangeTime);
      && (old(state) == Action ==>
            ActionTicked(now) && KeptFromOld(grid, post) && obstacles.items == old(obstacles.items))
      && (old(state) != Action && drains ==> Drained(grid, post, obstacles, now))
      && (old(state) != Action && !drains ==>
            obstacles.items == old(obstacles.items) &&
            (old(moving) ==> Glided(now) && KeptFromOld(grid, post)) &&
            (!old(moving) ==> SpaceHandled(keys, grid, now) && Steered(keys, grid, post, obstacles, hits)))
    }

    /** `update(keys, obstacles, grid)`: one frame of the player. */
    method Update(keys: Keys, grid: array2<int>, obstacles: ObstacleGroup, hits: (Point, seq<Obstacle>) -> bool, now: int)
      returns (ghost post: array2<int>)
      requires Valid(grid) && BordersBlock(grid, obstacles, hits, gridPos)
      modifies this, grid, obstacles
      ensures Valid(grid) && fresh(post) && SameCells(post, grid)
      ensures Updated(keys, grid, post, obstacles, hits, now)
    {
      Step(keys, grid, obstacles, hits, now);
      post := Snapshot(grid);
    }

    /** The frame itself: the phase that runs, stated against the grid as it is after it. */
    method Step(keys: Keys, grid: array2<int>, obstacles: ObstacleGroup, hits: (Point, seq<Obstacle>) -> bool, now: int)
      requires Valid(grid) && BordersBlock(grid, obstacles, hits, gridPos)
      modifies this, grid, obstacles
      ensures Valid(grid) && Updated(keys, grid, grid, obstacles, hits, now)
    {
      if state == Action {
        ActionTick(grid, now);
      } else if (pendingDestroy != [] || pendingCreate != []) && now >= nextChangeTime {
        Drain(grid, obstacles, now);
      } else if moving {
        Glide(grid, now);
      } else {
        Input(keys, grid, obstacles, hits, now);
      }
    }
  }
}
