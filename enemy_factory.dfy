/** `EnemyFactory.create`: the enemy type number chooses the class. */
module EnemyFactory {
  import opened Wrappers
  import opened Settings
  import Text
  import Enemy1
  import Enemy2

  datatype Kind = Patrol | Chaser

  /** Type 1 is the patrol enemy, type 2 the chaser, anything else a `ValueError`. */
  function KindOf(enemyType: int): (r: Result<Kind, Error>)
    ensures r == Success(Patrol) <==> enemyType == 1
    ensures r == Success(Chaser) <==> enemyType == 2
    ensures r.Failure? ==> r.error == ValueError("Unknown enemy type: " + Text.IntToString(enemyType))
  {
    if enemyType == 1 then Success(Patrol)
    else if enemyType == 2 then Success(Chaser)
    else Failure(ValueError("Unknown enemy type: " + Text.IntToString(enemyType)))
  }

  /** A created enemy of either class. */
  datatype Enemy = Patroller(e1: Enemy1.Enemy1) | Chasing(e2: Enemy2.Enemy2)

  /** The enemy of the chosen kind, standing on (and reserving) the tile under (x, y). */
  method Create(enemyType: int, x: int, y: int, grid: array2<int>, now: int) returns (r: Result<Enemy, Error>)
    requires KindOf(enemyType).Success? ==> InGrid(grid, TileOf(x, y))
    modifies grid
    ensures r.Failure? <==> KindOf(enemyType).Failure?
    ensures r.Failure? ==> r.error == KindOf(enemyType).error && GridUnchanged(grid)
    ensures KindOf(enemyType) == Success(Patrol) ==>
      r.Success? && r.value.Patroller? && fresh(r.value.e1) && r.value.e1.Valid() &&
      r.value.e1.grid == grid && r.value.e1.gridPos == TileOf(x, y)
    ensures KindOf(enemyType) == Success(Chaser) ==>
      r.Success? && r.value.Chasing? && fresh(r.value.e2) && r.value.e2.Valid() &&
      r.value.e2.grid == grid && r.value.e2.gridPos == TileOf(x, y)
    ensures r.Success? ==>
      var t := TileOf(x, y); grid[t.0, t.1] == Reserved && GridUnchangedExcept(grid, t, t)
  {
    match KindOf(enemyType)
    case Success(Patrol) =>
      var e := new Enemy1.Enemy1(x, y, grid, now);
      r := Success(Patroller(e));
    case Success(Chaser) =>
      var e := new Enemy2.Enemy2(x, y, grid, now);
      r := Success(Chasing(e));
    case Failure(err) =>
      r := Failure(err);
  }
}
