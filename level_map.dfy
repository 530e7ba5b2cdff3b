/**
 * Reading a level map: the rows of tile characters become grid codes, box
 * obstacles, a list of things to spawn and the number of fruits to collect.
 * The package's `Level.load_map` and the draft's (Main.py) differ only in
 * their tile alphabet, so one loop serves both, given the alphabet.
 */
module LevelMap {
  import opened Wrappers
  import opened Settings
  import opened Obstacles

  /** Which tile alphabet a map uses. */
  datatype Alphabet = Package | Draft

  /**
   * The grid code a tile character writes, or None when it leaves the cell
   * as it was: '#' is a box, 'P' the player, an enemy letter reserved, a
   * fruit letter untouched, and anything else empty.
   */
  function TileCode(a: Alphabet, ch: char): Option<int>
  {
    if ch == '#' then Some(Wall)
    else if ch == 'P' then Some(PlayerCell)
    else if IsEnemy(a, ch) then Some(Reserved)
    else if IsFruit(a, ch) then None
    else Some(Empty)
  }

  /**
   * What a character writes into its cell agrees with what it spawns: the
   * player's character marks the player's cell, an enemy's reserves its
   * cell, and a fruit's leaves the cell as it was.
   */
  lemma TileCodeOfSpawn(a: Alphabet, ch: char, at: Pos)
    ensures SpawnOf(a, ch, at) == Some(PlayerSpawn(at)) <==> TileCode(a, ch) == Some(PlayerCell)
    ensures (SpawnOf(a, ch, at).Some? && SpawnOf(a, ch, at).value.EnemySpawn?) <==> TileCode(a, ch) == Some(Reserved)
    ensures (SpawnOf(a, ch, at).Some? && SpawnOf(a, ch, at).value.FruitSpawn?) <==> TileCode(a, ch).None?
  {
  }

  predicate IsEnemy(a: Alphabet, ch: char)
  {
    match a
    case Package => ch == 'a' || ch == 'b'
    case Draft => ch == 'O'
  }

  predicate IsFruit(a: Alphabet, ch: char)
  {
    match a
    case Package => ch == 'A' || ch == 'B' || ch == 'C'
    case Draft => ch == 'A'
  }

  /** What a tile asks the level to create. */
  datatype Spawn =
    | PlayerSpawn(at: Pos)
    | EnemySpawn(enemyType: int, at: Pos)     // the enemy factory's type number
    | FruitSpawn(name: string, at: Pos)       // the fruit factory's type name

  function SpawnOf(a: Alphabet, ch: char, at: Pos): Option<Spawn>
  {
    if ch == 'P' then Some(PlayerSpawn(at))
    else if a == Package && ch == 'a' then Some(EnemySpawn(1, at))
    else if a == Package && ch == 'b' then Some(EnemySpawn(2, at))
    else if a == Draft && ch == 'O' then Some(EnemySpawn(1, at))
    else if a == Package && ch == 'A' then Some(FruitSpawn("orange", at))
    else if a == Package && ch == 'B' then Some(FruitSpawn("strawberry", at))
    else if a == Package && ch == 'C' then Some(FruitSpawn("pineapple", at))
    else if a == Draft && ch == 'A' then Some(FruitSpawn("F1", at))
    else None
  }

  /** The box obstacles among the first `n` characters of row `r`, in order. */
  function RowBoxes(row: string, r: int, n: nat): seq<Obstacle>
    requires n <= |row|
  {
    if n == 0 then [] else RowBoxes(row, r, n - 1) + (if row[n - 1] == '#' then [Obstacle(TileTopLeft((r, n - 1)))] else [])
  }

  /** The spawns among the first `n` characters of row `r`, in order. */
  function RowSpawns(a: Alphabet, row: string, r: int, n: nat): seq<Spawn>
    requires n <= |row|
  {
    if n == 0 then []
    else RowSpawns(a, row, r, n - 1) + (match SpawnOf(a, row[n - 1], (r, n - 1)) case Some(s) => [s] case None => [])
  }

  /** The number of fruit characters among the first `n` characters of a row. */
  function RowFruits(a: Alphabet, row: string, n: nat): nat
    requires n <= |row|
  {
    if n == 0 then 0 else RowFruits(a, row, n - 1) + (if IsFruit(a, row[n - 1]) then 1 else 0)
  }

  /** The box obstacles of the first `k` rows, in row-major order. */
  function MapBoxes(rows: seq<string>, k: nat): seq<Obstacle>
    requires k <= |rows|
  {
    if k == 0 then [] else MapBoxes(rows, k - 1) + RowBoxes(rows[k - 1], k - 1, |rows[k - 1]|)
  }

  /** The spawns of the first `k` rows, in row-major order. */
  function MapSpawns(a: Alphabet, rows: seq<string>, k: nat): seq<Spawn>
    requires k <= |rows|
  {
    if k == 0 then [] else MapSpawns(a, rows, k - 1) + RowSpawns(a, rows[k - 1], k - 1, |rows[k - 1]|)
  }

  /** The number of fruit characters in the first `k` rows. */
  function MapFruits(a: Alphabet, rows: seq<string>, k: nat): nat
    requires k <= |rows|
  {
    if k == 0 then 0 else MapFruits(a, rows, k - 1) + RowFruits(a, rows[k - 1], |rows[k - 1]|)
  }

  /** The code a loaded map leaves in cell (r, c) of a grid that started empty. */
  function CodeAt(a: Alphabet, rows: seq<string>, r: int, c: int): int
  {
    if 0 <= r < |rows| && 0 <= c < |rows[r]| then
      match TileCode(a, rows[r][c]) case Some(code) => code case None => Empty
    else Empty
  }

  /** How many of the spawns are fruits. */
  function FruitSpawns(ss: seq<Spawn>): nat
  {
    if ss == [] then 0 else FruitSpawns(ss[..|ss| - 1]) + (if ss[|ss| - 1].FruitSpawn? then 1 else 0)
  }

  /** The player spawns of `ss`, in order. */
  function PlayerSpawnsOf(ss: seq<Spawn>): seq<Spawn>
  {
    if ss == [] then []
    else if ss[|ss| - 1].PlayerSpawn? then PlayerSpawnsOf(ss[..|ss| - 1]) + [ss[|ss| - 1]]
    else PlayerSpawnsOf(ss[..|ss| - 1])
  }

  /** The enemy spawns of `ss`, in order. */
  function EnemySpawnsOf(ss: seq<Spawn>): seq<Spawn>
  {
    if ss == [] then []
    else if ss[|ss| - 1].EnemySpawn? then EnemySpawnsOf(ss[..|ss| - 1]) + [ss[|ss| - 1]]
    else EnemySpawnsOf(ss[..|ss| - 1])
  }

  /** The fruit spawns of `ss`, in order. */
  function FruitSpawnsOf(ss: seq<Spawn>): seq<Spawn>
  {
    if ss == [] then []
    else if ss[|ss| - 1].FruitSpawn? then FruitSpawnsOf(ss[..|ss| - 1]) + [ss[|ss| - 1]]
    else FruitSpawnsOf(ss[..|ss| - 1])
  }

  /** One more spawn joins the list of its own kind, at its end, and no other. */
  lemma SpawnsOfAppend(ss: seq<Spawn>, s: Spawn)
    ensures PlayerSpawnsOf(ss + [s]) == if s.PlayerSpawn? then PlayerSpawnsOf(ss) + [s] else PlayerSpawnsOf(ss)
    ensures EnemySpawnsOf(ss + [s]) == if s.EnemySpawn? then EnemySpawnsOf(ss) + [s] else EnemySpawnsOf(ss)
    ensures FruitSpawnsOf(ss + [s]) == if s.FruitSpawn? then FruitSpawnsOf(ss) + [s] else FruitSpawnsOf(ss)
  {
    assert (ss + [s])[..|ss|] == ss;
  }

  /** Each list holds only spawns of `ss`, and only of its own kind. */
  lemma {:induction false} SpawnsOfIn(ss: seq<Spawn>)
    ensures forall i :: 0 <= i < |PlayerSpawnsOf(ss)| ==> PlayerSpawnsOf(ss)[i] in ss && PlayerSpawnsOf(ss)[i].PlayerSpawn?
    ensures forall i :: 0 <= i < |EnemySpawnsOf(ss)| ==> EnemySpawnsOf(ss)[i] in ss && EnemySpawnsOf(ss)[i].EnemySpawn?
    ensures forall i :: 0 <= i < |FruitSpawnsOf(ss)| ==> FruitSpawnsOf(ss)[i] in ss && FruitSpawnsOf(ss)[i].FruitSpawn?
  {
    if ss != [] {
      SpawnsOfIn(ss[..|ss| - 1]);
      assert forall t :: t in ss[..|ss| - 1] ==> t in ss;
    }
  }

  lemma {:induction false} FruitSpawnsAppend(ss: seq<Spawn>, tt: seq<Spawn>)
    ensures FruitSpawns(ss + tt) == FruitSpawns(ss) + FruitSpawns(tt)
    decreases |tt|
  {
    if tt == [] {
      assert ss + tt == ss;
    } else {
      assert (ss + tt)[..|ss + tt| - 1] == ss + tt[..|tt| - 1];
      FruitSpawnsAppend(ss, tt[..|tt| - 1]);
    }
  }

  /** In either alphabet the fruit characters are exactly those that spawn a fruit. */
  lemma FruitCharSpawnsFruit(a: Alphabet, ch: char, at: Pos)
    ensures FruitSpawns(match SpawnOf(a, ch, at) case Some(s) => [s] case None => []) ==
      if IsFruit(a, ch) then 1 else 0
  {
    var extra := match SpawnOf(a, ch, at) case Some(s) => [s] case None => [];
    if extra != [] {
      assert extra[..0] == [];
    }
  }

  lemma {:induction false} RowFruitsSpawned(a: Alphabet, row: string, r: int, n: nat)
    requires n <= |row|
    ensures FruitSpawns(RowSpawns(a, row, r, n)) == RowFruits(a, row, n)
  {
    if n > 0 {
      RowFruitsSpawned(a, row, r, n - 1);
      FruitSpawnsAppend(RowSpawns(a, row, r, n - 1), match SpawnOf(a, row[n - 1], (r, n - 1)) case Some(s) => [s] case None => []);
      FruitCharSpawnsFruit(a, row[n - 1], (r, n - 1));
    }
  }

  /**
   * `fruits_to_collect` counts exactly the fruits the map creates: the
   * count is the number of fruit spawns.
   */
  lemma {:induction false} FruitCountMatchesSpawns(a: Alphabet, rows: seq<string>, k: nat)
    requires k <= |rows|
    ensures FruitSpawns(MapSpawns(a, rows, k)) == MapFruits(a, rows, k)
  {
    if k > 0 {
      FruitCountMatchesSpawns(a, rows, k - 1);
      RowFruitsSpawned(a, rows[k - 1], k - 1, |rows[k - 1]|);
      FruitSpawnsAppend(MapSpawns(a, rows, k - 1), RowSpawns(a, rows[k - 1], k - 1, |rows[k - 1]|));
    }
  }

  /** Spawn `s` stands at a cell of `rows` whose character asks for it. */
  predicate Placed(a: Alphabet, rows: seq<string>, s: Spawn)
  {
    0 <= s.at.0 < |rows| && 0 <= s.at.1 < |rows[s.at.0]| && SpawnOf(a, rows[s.at.0][s.at.1], s.at) == Some(s)
  }

  lemma SpawnOfAt(a: Alphabet, ch: char, at: Pos)
    ensures SpawnOf(a, ch, at).Some? ==> SpawnOf(a, ch, at).value.at == at
  {
  }

  /** Every spawn of a row names a cell of that row whose character asks for it. */
  lemma {:induction false} RowSpawnsPlaced(a: Alphabet, rows: seq<string>, r: nat, n: nat)
    requires r < |rows| && n <= |rows[r]|
    ensures forall i :: 0 <= i < |RowSpawns(a, rows[r], r, n)| ==>
      RowSpawns(a, rows[r], r, n)[i].at.0 == r && RowSpawns(a, rows[r], r, n)[i].at.1 < n &&
      Placed(a, rows, RowSpawns(a, rows[r], r, n)[i])
  {
    if n > 0 {
      RowSpawnsPlaced(a, rows, r, n - 1);
      SpawnOfAt(a, rows[r][n - 1], (r, n - 1));
    }
  }

  /** Every spawn of the map names a cell whose character asks for it. */
  lemma {:induction false} MapSpawnsPlaced(a: Alphabet, rows: seq<string>, k: nat)
    requires k <= |rows|
    ensures forall i :: 0 <= i < |MapSpawns(a, rows, k)| ==>
      MapSpawns(a, rows, k)[i].at.0 < k && Placed(a, rows, MapSpawns(a, rows, k)[i])
  {
    if k > 0 {
      MapSpawnsPlaced(a, rows, k - 1);
      RowSpawnsPlaced(a, rows, k - 1, |rows[k - 1]|);
    }
  }

  /**
   * The map's player, enemy and fruit spawns, each list in map order, all
   * stand at cells whose characters ask for them.
   */
  lemma SpawnsOfPlaced(a: Alphabet, rows: seq<string>)
    ensures var ss := MapSpawns(a, rows, |rows|);
      && (forall i :: 0 <= i < |PlayerSpawnsOf(ss)| ==> Placed(a, rows, PlayerSpawnsOf(ss)[i]) && PlayerSpawnsOf(ss)[i].PlayerSpawn?)
      && (forall i :: 0 <= i < |EnemySpawnsOf(ss)| ==> Placed(a, rows, EnemySpawnsOf(ss)[i]) && EnemySpawnsOf(ss)[i].EnemySpawn?)
      && (forall i :: 0 <= i < |FruitSpawnsOf(ss)| ==> Placed(a, rows, FruitSpawnsOf(ss)[i]) && FruitSpawnsOf(ss)[i].FruitSpawn?)
  {
    MapSpawnsPlaced(a, rows, |rows|);
    SpawnsOfIn(MapSpawns(a, rows, |rows|));
  }

  /** One row of `load_map`'s nested loop. */
  method LoadRow(a: Alphabet, row: string, r: int, grid: array2<int>, obstacles: ObstacleGroup)
      returns (spawns: seq<Spawn>, fruits: nat)
    requires 0 <= r < grid.Length0 && |row| <= grid.Length1
    modifies grid, obstacles
    ensures spawns == RowSpawns(a, row, r, |row|) && fruits == RowFruits(a, row, |row|)
    ensures obstacles.items == old(obstacles.items) + RowBoxes(row, r, |row|)
    ensures forall i, j :: 0 <= i < grid.Length0 && 0 <= j < grid.Length1 ==>
      grid[i, j] == if i == r && j < |row| && TileCode(a, row[j]).Some? then TileCode(a, row[j]).value else old(grid[i, j])
  {
    spawns, fruits := [], 0;
    for c := 0 to |row|
      invariant spawns == RowSpawns(a, row, r, c) && fruits == RowFruits(a, row, c)
      invariant obstacles.items == old(obstacles.items) + RowBoxes(row, r, c)
      invariant forall i, j :: 0 <= i < grid.Length0 && 0 <= j < grid.Length1 ==>
        grid[i, j] == if i == r && j < c && TileCode(a, row[j]).Some? then TileCode(a, row[j]).value else old(grid[i, j])
    {
      var ch := row[c];
      var spawn, fruit := LoadCell(a, ch, r, c, grid, obstacles);
      spawns := spawns + spawn;
      fruits := fruits + fruit;
    }
  }

  /** The body of the nested loop: one character at (r, c). */
  method LoadCell(a: Alphabet, ch: char, r: int, c: int, grid: array2<int>, obstacles: ObstacleGroup)
      returns (spawn: seq<Spawn>, fruit: nat)
    requires 0 <= r < grid.Length0 && 0 <= c < grid.Length1
    modifies grid, obstacles
    ensures spawn == (match SpawnOf(a, ch, (r, c)) case Some(s) => [s] case None => [])
    ensures fruit == if IsFruit(a, ch) then 1 else 0
    ensures obstacles.items == old(obstacles.items) + (if ch == '#' then [Obstacle(TileTopLeft((r, c)))] else [])
    ensures forall i, j :: 0 <= i < grid.Length0 && 0 <= j < grid.Length1 ==>
      grid[i, j] == if i == r && j == c && TileCode(a, ch).Some? then TileCode(a, ch).value else old(grid[i, j])
  {
    if ch == '#' {
      obstacles.Add(Obstacle(TileTopLeft((r, c))));
    }
    var code := TileCode(a, ch);
    if code.Some? {
      grid[r, c] := code.value;
    }
    var s := SpawnOf(a, ch, (r, c));
    spawn := if s.Some? then [s.value] else [];
    fruit := if IsFruit(a, ch) then 1 else 0;
  }

  /**
   * `load_map(level_data)`: every character of every row, in row-major
   * order. The map must fit the grid; a character that writes a cell
   * outside it would make the indexing fail.
   */
  method Load(a: Alphabet, rows: seq<string>, grid: array2<int>, obstacles: ObstacleGroup)
      returns (spawns: seq<Spawn>, fruits: nat)
    requires |rows| <= grid.Length0 && forall r :: 0 <= r < |rows| ==> |rows[r]| <= grid.Length1
    modifies grid, obstacles
    ensures spawns == MapSpawns(a, rows, |rows|) && fruits == MapFruits(a, rows, |rows|)
    ensures obstacles.items == old(obstacles.items) + MapBoxes(rows, |rows|)
    ensures forall i, j :: 0 <= i < grid.Length0 && 0 <= j < grid.Length1 ==>
      grid[i, j] == if i < |rows| && j < |rows[i]| && TileCode(a, rows[i][j]).Some? then TileCode(a, rows[i][j]).value else old(grid[i, j])
  {
    spawns, fruits := [], 0;
    for r := 0 to |rows|
      invariant spawns == MapSpawns(a, rows, r) && fruits == MapFruits(a, rows, r)
      invariant obstacles.items == old(obstacles.items) + MapBoxes(rows, r)
      invariant forall i, j :: 0 <= i < grid.Length0 && 0 <= j < grid.Length1 ==>
        grid[i, j] == if i < r && j < |rows[i]| && TileCode(a, rows[i][j]).Some? then TileCode(a, rows[i][j]).value else old(grid[i, j])
    {
      var rowSpawns, rowFruits := LoadRow(a, rows[r], r, grid, obstacles);
      assert MapSpawns(a, rows, r + 1) == spawns + rowSpawns;
      assert MapFruits(a, rows, r + 1) == fruits + rowFruits;
      spawns := spawns + rowSpawns;
      fruits := fruits + rowFruits;
    }
  }
}
