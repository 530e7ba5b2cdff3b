/**
 * Shared constants of the game: the tile geometry, the cell codes of the
 * occupancy grid and the four unit vectors of `DIRECTION_VECTORS`.
 */
module Settings {
  import opened Wrappers

  // The window, in pixels.
  const Width: int := 1000
  const Height: int := 750

  const TileSize: int := 50
  const MapOffset: int := 25

  // Cell codes of the shared occupancy grid.
  const Empty: int := 0
  const Wall: int := 1
  const Reserved: int := 2
  const PlayerCell: int := 3

  /** A grid coordinate: (row, col). */
  type Pos = (int, int)

  /** A pixel coordinate. */
  datatype Point = Point(x: int, y: int)

  datatype Direction = Left | Right | Up | Down

  function Abs(x: int): nat { if x < 0 then -x else x }

  /** The key of `DIRECTION_VECTORS` naming a direction. */
  function Name(d: Direction): string
  {
    match d
    case Left => "left"
    case Right => "right"
    case Up => "up"
    case Down => "down"
  }

  /** Membership test `direction in DIRECTION_VECTORS`, as a lookup. */
  function ParseDirection(s: string): (r: Option<Direction>)
  {
    if s == "left" then Some(Left)
    else if s == "right" then Some(Right)
    else if s == "up" then Some(Up)
    else if s == "down" then Some(Down)
    else None
  }

  /** The four keys are exactly the direction names. */
  lemma ParseDirectionNames(s: string, d: Direction)
    ensures ParseDirection(s) == Some(d) <==> s == Name(d)
  {
  }

  /** `DIRECTION_VECTORS[d]` as (drow, dcol). */
  function Vector(d: Direction): (v: Pos)
    ensures Abs(v.0) + Abs(v.1) == 1
  {
    match d
    case Left => (0, -1)
    case Right => (0, 1)
    case Up => (-1, 0)
    case Down => (1, 0)
  }

  /** The cell one step from `p` in direction `d`. */
  function Shift(p: Pos, d: Direction): Pos
  {
    (p.0 + Vector(d).0, p.1 + Vector(d).1)
  }

  /** Two cells are 4-adjacent. */
  predicate Adjacent(a: Pos, b: Pos)
  {
    Abs(a.0 - b.0) + Abs(a.1 - b.1) == 1
  }

  /** Every 4-adjacent step is the shift of exactly one direction. */
  lemma AdjacentIsShift(a: Pos, b: Pos)
    ensures Adjacent(a, b) <==> exists d :: Shift(a, d) == b
    ensures forall d1, d2 :: Shift(a, d1) == b && Shift(a, d2) == b ==> d1 == d2
  {
    if Adjacent(a, b) {
      var d := if b.1 < a.1 then Left else if b.1 > a.1 then Right else if b.0 < a.0 then Up else Down;
      assert Shift(a, d) == b;
    }
  }

  /** The direction of a step between 4-adjacent cells. */
  function DirectionTo(a: Pos, b: Pos): (d: Direction)
    requires Adjacent(a, b)
    ensures Shift(a, d) == b
  {
    if b.1 < a.1 then Left else if b.1 > a.1 then Right else if b.0 < a.0 then Up else Down
  }

  /** `0 <= r < rows and 0 <= c < cols` for the grid's shape. */
  predicate InGrid(grid: array2<int>, p: Pos)
  {
    0 <= p.0 < grid.Length0 && 0 <= p.1 < grid.Length1
  }

  /** No cell of the grid changed since the old state. */
  twostate predicate GridUnchanged(grid: array2<int>)
    reads grid
  {
    forall r, c :: 0 <= r < grid.Length0 && 0 <= c < grid.Length1 ==> grid[r, c] == old(grid[r, c])
  }

  /** No cell other than `a` and `b` changed since the old state. */
  twostate predicate GridUnchangedExcept(grid: array2<int>, a: Pos, b: Pos)
    reads grid
  {
    forall r, c :: 0 <= r < grid.Length0 && 0 <= c < grid.Length1 && (r, c) != a && (r, c) != b ==>
      grid[r, c] == old(grid[r, c])
  }

  /**
   * `copy` has the shape and the cells of `grid`: a record of the board as
   * it stood at one moment, which later writes to `grid` leave alone.
   */
  ghost predicate SameCells(copy: array2<int>, grid: array2<int>)
    reads copy, grid
  {
    copy.Length0 == grid.Length0 && copy.Length1 == grid.Length1 &&
    forall r, c :: 0 <= r < grid.Length0 && 0 <= c < grid.Length1 ==> copy[r, c] == grid[r, c]
  }

  /** `after` has the shape of `before` and differs from it at most in cells `a` and `b`. */
  ghost predicate KeptExcept(before: array2<int>, after: array2<int>, a: Pos, b: Pos)
    reads before, after
  {
    after.Length0 == before.Length0 && after.Length1 == before.Length1 &&
    forall r, c :: 0 <= r < before.Length0 && 0 <= c < before.Length1 && (r, c) != a && (r, c) != b ==>
      after[r, c] == before[r, c]
  }

  /** `post` has the shape of `grid` and the cells `grid` held in the old state. */
  twostate predicate KeptFromOld(grid: array2<int>, new post: array2<int>)
    reads post
  {
    post.Length0 == grid.Length0 && post.Length1 == grid.Length1 &&
    forall r, c :: 0 <= r < grid.Length0 && 0 <= c < grid.Length1 ==> post[r, c] == old(grid[r, c])
  }

  /** `post` differs from the old state of `grid` at most in cells `a` and `b`. */
  twostate predicate KeptFromOldExcept(grid: array2<int>, new post: array2<int>, a: Pos, b: Pos)
    reads post
  {
    post.Length0 == grid.Length0 && post.Length1 == grid.Length1 &&
    forall r, c :: 0 <= r < grid.Length0 && 0 <= c < grid.Length1 && (r, c) != a && (r, c) != b ==>
      post[r, c] == old(grid[r, c])
  }

  /** A fresh record of the grid's cells. */
  ghost method Snapshot(grid: array2<int>) returns (copy: array2<int>)
    ensures fresh(copy) && SameCells(copy, grid)
  {
    copy := new int[grid.Length0, grid.Length1]((r, c) reads grid =>
      if 0 <= r < grid.Length0 && 0 <= c < grid.Length1 then grid[r, c] else 0);
  }

  /**
   * Top-left pixel of a tile: `[c*TILE_SIZE + MAP_OFFSET, r*TILE_SIZE + MAP_OFFSET]`
   * (Enemy1.pixel_from_grid, Enemy2.pixel_pos_from_grid, the mixin's target).
   */
  function TileTopLeft(p: Pos): Point
  {
    Point(p.1 * TileSize + MapOffset, p.0 * TileSize + MapOffset)
  }

  /** Centre pixel of a tile, as the player's `pixel_pos_from_grid` computes it. */
  function TileCentre(p: Pos): Point
  {
    Point(p.1 * TileSize + MapOffset + TileSize / 2, p.0 * TileSize + MapOffset + TileSize / 2)
  }

  /**
   * Tile containing a pixel: `[(y - MAP_OFFSET)//TILE_SIZE, (x - MAP_OFFSET)//TILE_SIZE]`.
   * Dafny's `/` by a positive divisor rounds down, as Python's `//` does.
   */
  function TileOf(x: int, y: int): Pos
  {
    ((y - MapOffset) / TileSize, (x - MapOffset) / TileSize)
  }

  /** Converting a tile to its top-left pixel and back gives the tile again. */
  lemma TileOfTopLeft(p: Pos)
    ensures TileOf(TileTopLeft(p).x, TileTopLeft(p).y) == p
  {
    var q := TileTopLeft(p);
    assert q.x - MapOffset == p.1 * TileSize;
    assert q.y - MapOffset == p.0 * TileSize;
  }

  /** The tile centre lies in the same tile. */
  lemma TileOfCentre(p: Pos)
    ensures TileOf(TileCentre(p).x, TileCentre(p).y) == p
  {
    var q := TileCentre(p);
    assert q.x - MapOffset == p.1 * TileSize + 25;
    assert q.y - MapOffset == p.0 * TileSize + 25;
  }

  /** `TileOf` rounds down: every pixel lies in the 50x50 square of its tile. */
  lemma TileOfContains(x: int, y: int)
    ensures var t := TileOf(x, y);
            TileTopLeft(t).x <= x < TileTopLeft(t).x + TileSize &&
            TileTopLeft(t).y <= y < TileTopLeft(t).y + TileSize
  {
  }
}
