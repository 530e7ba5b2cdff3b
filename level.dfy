/**
 * `Level`: one level of the package version. It owns the 13 x 19
 * occupancy grid, the obstacle group, the player, the enemies and the
 * fruits, and decides when the level is over.
 */
module Level {
  import opened Wrappers
  import opened Settings
  import opened Obstacles
  import opened LevelMap
  import Player
  import EnemyFactory
  import Enemy1
  import Enemy2
  import FruitFactory
  import FruitMover
  import Pineapple
  import MenuBar
  import PathFinder

  type Enemy = EnemyFactory.Enemy
  type Fruit = FruitFactory.Fruit

  /**
   * The random choices the level draws, named by what they are for: a
   * pineapple's first direction, a patrol enemy's new direction, and the
   * two directions a strawberry is given each tick (the level's intent and
   * the one it draws itself).
   */
  datatype Draw = Facing(at: Pos) | EnemyTurn(i: nat) | FruitIntent(i: nat) | FruitTurn(i: nat)

  function EnemyObj(e: Enemy): object
  {
    match e
    case Patroller(a) => a
    case Chasing(b) => b
  }

  /** A live enemy of this level: valid, and sharing the level's grid. */
  ghost predicate EnemyValid(e: Enemy, grid: array2<int>)
    reads EnemyObj(e)
  {
    match e
    case Patroller(a) => a.Valid() && a.grid == grid
    case Chasing(b) => b.Valid() && b.grid == grid
  }

  /** The object behind a fruit; the orange is a plain value. */
  function FruitObj(f: Fruit): object
    requires !f.OrangeFruit?
  {
    match f
    case StrawberryFruit(s) => s
    case PineappleFruit(p) => p
  }

  function Strawberries(fs: seq<Fruit>): set<FruitMover.MovingFruit>
  {
    set k | 0 <= k < |fs| && fs[k].StrawberryFruit? :: fs[k].s
  }

  function Pineapples(fs: seq<Fruit>): set<Pineapple.Pineapple>
  {
    set k | 0 <= k < |fs| && fs[k].PineappleFruit? :: fs[k].p
  }

  ghost predicate FruitValid(f: Fruit)
    reads if f.OrangeFruit? then {} else {FruitObj(f)}
  {
    match f
    case StrawberryFruit(s) => s.Valid()
    case OrangeFruit(_) => true
    case PineappleFruit(p) => p.Valid()
  }

  function Patrollers(es: seq<Enemy>): set<Enemy1.Enemy1>
  {
    set k | 0 <= k < |es| && es[k].Patroller? :: es[k].e1
  }

  function Chasers(es: seq<Enemy>): set<Enemy2.Enemy2>
  {
    set k | 0 <= k < |es| && es[k].Chasing? :: es[k].e2
  }

  /** Every enemy is live on `grid`, and no enemy object appears twice. */
  ghost predicate EnemiesValid(es: seq<Enemy>, grid: array2<int>)
    reads Patrollers(es), Chasers(es)
  {
    (forall k :: 0 <= k < |es| ==> EnemyValid(es[k], grid)) &&
    (forall k, m :: 0 <= k < m < |es| ==> EnemyObj(es[k]) != EnemyObj(es[m]))
  }

  /** Every fruit is valid, and no fruit object appears twice. */
  ghost predicate FruitsValid(fs: seq<Fruit>)
    reads Strawberries(fs), Pineapples(fs)
  {
    (forall k :: 0 <= k < |fs| ==> FruitValid(fs[k])) &&
    (forall k, m :: 0 <= k < m < |fs| && !fs[k].OrangeFruit? && !fs[m].OrangeFruit? ==>
       FruitObj(fs[k]) != FruitObj(fs[m]))
  }

  /** The agents of a level, valid on its grid. */
  ghost predicate Live(grid: array2<int>, player: Player.Player?, enemies: seq<Enemy>, fruits: seq<Fruit>)
    reads player, Patrollers(enemies), Chasers(enemies), Strawberries(fruits), Pineapples(fruits)
  {
    (player != null ==> player.Valid(grid)) && EnemiesValid(enemies, grid) && FruitsValid(fruits)
  }

  /** A level whose agents are live and whose count matches its fruits is valid. */
  lemma ValidOf(l: Level)
    requires l.grid.Length0 == 13 && l.grid.Length1 == 19
    requires Live(l.grid, l.player, l.enemies, l.fruits) && l.fruitsToCollect == |l.fruits|
    ensures l.Valid()
  {
  }

  /** What a placed spawn of a package map that fits the board asks for. */
  ghost predicate Ready(rows: seq<string>, s: Spawn)
  {
    0 <= s.at.0 < 13 && 0 <= s.at.1 < 19 &&
    (s.EnemySpawn? ==> (s.enemyType == 1 || s.enemyType == 2) && CodeAt(Package, rows, s.at.0, s.at.1) == Reserved) &&
    (s.FruitSpawn? ==> s.name == "orange" || s.name == "strawberry" || s.name == "pineapple")
  }

  /** A new enemy object can join a valid list of enemies. */
  lemma EnemiesAppend(es: seq<Enemy>, e: Enemy, grid: array2<int>)
    requires EnemiesValid(es, grid) && EnemyValid(e, grid)
    requires forall k :: 0 <= k < |es| ==> EnemyObj(es[k]) != EnemyObj(e)
    ensures EnemiesValid(es + [e], grid)
  {
    var es' := es + [e];
    forall k, m | 0 <= k < m < |es'|
      ensures EnemyObj(es'[k]) != EnemyObj(es'[m])
    {
      if m < |es| {
        assert es'[k] == es[k] && es'[m] == es[m];
      }
    }
  }

  /** A new fruit can join a valid list of fruits. */
  lemma FruitsAppend(fs: seq<Fruit>, f: Fruit)
    requires FruitsValid(fs) && FruitValid(f)
    requires !f.OrangeFruit? ==> forall k :: 0 <= k < |fs| && !fs[k].OrangeFruit? ==> FruitObj(fs[k]) != FruitObj(f)
    ensures FruitsValid(fs + [f])
  {
    var fs' := fs + [f];
    forall k, m | 0 <= k < m < |fs'| && !fs'[k].OrangeFruit? && !fs'[m].OrangeFruit?
      ensures FruitObj(fs'[k]) != FruitObj(fs'[m])
    {
      if m < |fs| {
        assert fs'[k] == fs[k] && fs'[m] == fs[m];
      }
    }
  }

  /** `hasattr(fruit, 'collectable') and fruit.collectable`. */
  predicate Collectable(f: Fruit)
    reads if f.PineappleFruit? then {f.p} else {}
  {
    match f
    case StrawberryFruit(_) => true
    case OrangeFruit(_) => true
    case PineappleFruit(p) => p.collectable
  }

  /** Fruit `k` is collected: the player touches it and it is collectable. */
  predicate Taken(fs: seq<Fruit>, touching: int -> bool, k: int)
    requires 0 <= k < |fs|
    reads Strawberries(fs), Pineapples(fs)
  {
    touching(k) && Collectable(fs[k])
  }

  /** The fruits among the first `n` that this tick's collection leaves, in order. */
  function Uncollected(fs: seq<Fruit>, touching: int -> bool, n: nat): seq<Fruit>
    requires n <= |fs|
    reads Strawberries(fs), Pineapples(fs)
  {
    if n == 0 then []
    else Uncollected(fs, touching, n - 1) + (if Taken(fs, touching, n - 1) then [] else [fs[n - 1]])
  }

  /**
   * The collection keeps exactly the fruits that are not taken, in their
   * order: an increasing choice of indices picks them out of the old list.
   */
  lemma {:induction false} UncollectedPicks(fs: seq<Fruit>, touching: int -> bool, n: nat)
    returns (idx: seq<nat>)
    requires n <= |fs|
    ensures |idx| == |Uncollected(fs, touching, n)|
    ensures forall a :: 0 <= a < |idx| ==> idx[a] < n && Uncollected(fs, touching, n)[a] == fs[idx[a]]
    ensures forall a :: 0 <= a < |idx| ==> !Taken(fs, touching, idx[a])
    ensures forall a, b :: 0 <= a < b < |idx| ==> idx[a] < idx[b]
    ensures forall k :: 0 <= k < n && !Taken(fs, touching, k) ==> k in idx
  {
    if n == 0 {
      idx := [];
    } else {
      idx := UncollectedPicks(fs, touching, n - 1);
      if !Taken(fs, touching, n - 1) {
        idx := idx + [n - 1];
      }
    }
  }

  /** The number of fruits taken is the number the list shrinks by. */
  lemma {:induction false} UncollectedCount(fs: seq<Fruit>, touching: int -> bool, n: nat)
    requires n <= |fs|
    ensures |Uncollected(fs, touching, n)| <= n
    ensures |Uncollected(fs, touching, n)| == n <==> forall k :: 0 <= k < n ==> !Taken(fs, touching, k)
  {
    if n > 0 {
      UncollectedCount(fs, touching, n - 1);
    }
  }

  /** The four border strips `create_borders` adds around the board. */
  const Borders: seq<Obstacle> :=
    [Obstacle(Point(0, 0)), Obstacle(Point(Width - 25, 0)), Obstacle(Point(25, 0)), Obstacle(Point(25, Height - 75))]

  /** The package map alphabet fits the 13 x 19 board. */
  predicate Fits(rows: seq<string>)
  {
    |rows| <= 13 && forall r :: 0 <= r < |rows| ==> |rows[r]| <= 19
  }

  class Level {
    const grid: array2<int>
    const obstacles: ObstacleGroup
    const player: Player.Player?
    const enemies: seq<Enemy>
    var fruits: seq<Fruit>
    var fruitsToCollect: int
    const lvlIdx: int
    const menuBar: MenuBar.MenuBar
    var running: bool
    var won: bool

    /**
     * Every agent is valid on the shared grid and no agent object appears
     * twice.
     */
    ghost predicate AgentsValid()
      reads this, player, Patrollers(enemies), Chasers(enemies), Strawberries(fruits), Pineapples(fruits)
    {
      grid.Length0 == 13 && grid.Length1 == 19 && Live(grid, player, enemies, fruits)
    }

    /**
     * The level's invariant: valid agents, and the count of fruits to
     * collect is the number of fruits still on the board.
     */
    ghost predicate Valid()
      reads this, player, Patrollers(enemies), Chasers(enemies), Strawberries(fruits), Pineapples(fruits)
    {
      AgentsValid() && fruitsToCollect == |fruits|
    }

    /** A running level over agents already created on `grid`. */
    constructor (grid: array2<int>, obstacles: ObstacleGroup, player: Player.Player?, enemies: seq<Enemy>, fruits: seq<Fruit>,
                 lvlIdx: int, menuBar: MenuBar.MenuBar)
      requires grid.Length0 == 13 && grid.Length1 == 19 && Live(grid, player, enemies, fruits)
      ensures Valid() && running && !won
      ensures this.grid == grid && this.obstacles == obstacles && this.player == player
      ensures this.enemies == enemies && this.fruits == fruits && fruitsToCollect == |fruits|
      ensures this.lvlIdx == lvlIdx && this.menuBar == menuBar
    {
      this.grid := grid;
      this.obstacles := obstacles;
      this.player := player;
      this.enemies := enemies;
      this.fruits := fruits;
      fruitsToCollect := |fruits|;
      this.lvlIdx := lvlIdx;
      this.menuBar := menuBar;
      running := true;
      won := false;
    }

    /**
     * `Level.update(keys)`: the player, then every enemy, then a move intent
     * for every fruit that can move, then every fruit's own update; then the
     * end check, on the count as it stood before this tick's collection;
     * then the collection of the touched collectable fruits.
     *
     * The oracles: `playerHits` and `fruitHits` are the obstacle collision
     * tests, `random` the directions drawn, `enemyHit` whether the player
     * overlaps an enemy after the agents have moved, and `touching(k)`
     * whether it overlaps fruit `k`. The player must be blocked by the
     * borders on every side that leaves the grid.
     */
    method Update(keys: Player.Keys, now: int, playerHits: (Point, seq<Obstacle>) -> bool,
                  fruitHits: (Point, seq<Obstacle>) -> bool, random: Draw -> Direction,
                  enemyHit: bool, touching: int -> bool)
      returns (ghost boards: seq<array2<int>>, ghost intents: seq<FruitPose>)
      requires Valid() && player != null
      requires player.BordersBlock(grid, obstacles, playerHits, player.gridPos)
      modifies this, grid, obstacles, player, Patrollers(enemies), Chasers(enemies), Strawberries(fruits), Pineapples(fruits)
      ensures Valid()
      ensures |boards| == |enemies| + 1 && (forall k :: 0 <= k <= |enemies| ==> boards[k] != grid)
      ensures SameCells(boards[|enemies|], grid)
      ensures var played := player.Updated(keys, grid, boards[0], obstacles, playerHits, now); played
      ensures EnemiesTicked(enemies, old(Poses(enemies)), Poses(enemies), boards, now, player.centre, random)
      ensures FruitsMoved(old(fruits), old(FruitPoses(fruits)), intents, FruitPoses(old(fruits)), now, obstacles.items, fruitHits,
                          random)
      ensures fruits == Uncollected(old(fruits), touching, |old(fruits)|)
      ensures won == (old(won) || old(fruitsToCollect) == 0)
      ensures running == (old(running) && !enemyHit && old(fruitsToCollect) != 0)
    {
      var kept;
      kept, boards, intents := TickAgents(grid, obstacles, player, enemies, fruits, keys, now, playerHits, fruitHits, random, touching);
      label Ticked:
      Settle(enemyHit, kept);
      assert unchanged@Ticked(player, obstacles, grid);
      assert unchanged@Ticked(Patrollers(enemies), Chasers(enemies));
      assert unchanged@Ticked(Strawberries(old(fruits)), Pineapples(old(fruits)), FruitGrids(old(fruits)));
      assert unchanged@Ticked(boards);
    }

    /**
     * The end of `Level.update`: the end check, on the count before this
     * tick's collection, then the list and the count after it.
     */
    method Settle(enemyHit: bool, kept: seq<Fruit>)
      requires grid.Length0 == 13 && grid.Length1 == 19
      requires Live(grid, player, enemies, kept)
      modifies this
      ensures Valid()
      ensures running == (old(running) && !enemyHit && old(fruitsToCollect) != 0)
      ensures won == (old(won) || old(fruitsToCollect) == 0)
      ensures fruits == kept && fruitsToCollect == |kept|
    {
      label Start:
      if enemyHit || fruitsToCollect == 0 {
        running := false;
        if fruitsToCollect == 0 {
          won := true;
        }
      }
      fruits, fruitsToCollect := kept, |kept|;
      assert unchanged@Start(if player == null then {} else {player}, Patrollers(enemies), Chasers(enemies),
                             Strawberries(kept), Pineapples(kept));
      assert Live(grid, player, enemies, fruits);
      ValidOf(this);
    }

  }

  /**
   * `Level(level_data, lvl_idx)`: an empty grid, the map loaded into it,
   * its agents created, the menu bar, the borders added, and the level
   * running. The player's frame is `w` x `h` pixels; `random` supplies the
   * pineapples' first directions. The agents are created here after the
   * menu bar and the borders: those touch neither the grid nor any agent,
   * so the level is the same.
   */
  method NewLevel(rows: seq<string>, lvlIdx: int, w: nat, h: nat, now: int, random: Draw -> Direction) returns (l: Level)
    requires Fits(rows)
    ensures fresh(l) && l.Valid() && l.running && !l.won && l.lvlIdx == lvlIdx
    ensures l.menuBar.level == lvlIdx && l.menuBar.timeLeft == 60
    ensures MapGrid(l.grid, rows)
    ensures l.obstacles.items == MapBoxes(rows, |rows|) + Borders
    ensures l.fruitsToCollect == MapFruits(Package, rows, |rows|)
    ensures l.player == null <==> NoPlayer(MapSpawns(Package, rows, |rows|))
    ensures Spawned(MapSpawns(Package, rows, |rows|), l.grid, l.player, l.enemies, l.fruits)
  {
    var g, obs, spawns, count := LoadMap(rows);
    var bar := new MenuBar.MenuBar(lvlIdx);
    CreateBorders(obs);
    var p, es, fs := Populate(rows, spawns, g, w, h, now, random);
    label Populated:
    l := new Level(g, obs, p, es, fs, lvlIdx, bar);
    assert unchanged@Populated(if p == null then {} else {p}, Patrollers(es), Chasers(es), Strawberries(fs), Pineapples(fs));
  }

  /**
   * The agents' part of `Level.update`, in the level's order: the player
   * first, on the grid as it was, leaving the record `boards[0]`; then the
   * enemies, in order, towards the player's new centre, enemy `k` on
   * `boards[k]`; then the fruits' move intents, which leave the fruits in
   * the states `intents`; then every fruit's own update, among the
   * obstacles as the player left them and, for a pineapple, on the grid as
   * the enemies left it; then the collection of the fruits the player
   * touches, which leaves `kept`.
   */
  method TickAgents(grid: array2<int>, obstacles: ObstacleGroup, player: Player.Player, enemies: seq<Enemy>, fruits: seq<Fruit>,
                    keys: Player.Keys, now: int, playerHits: (Point, seq<Obstacle>) -> bool,
                    fruitHits: (Point, seq<Obstacle>) -> bool, random: Draw -> Direction, touching: int -> bool)
    returns (kept: seq<Fruit>, ghost boards: seq<array2<int>>, ghost intents: seq<FruitPose>)
    requires Live(grid, player, enemies, fruits)
    requires player.BordersBlock(grid, obstacles, playerHits, player.gridPos)
    modifies grid, obstacles, player, Patrollers(enemies), Chasers(enemies), Strawberries(fruits), Pineapples(fruits)
    ensures Live(grid, player, enemies, kept)
    ensures kept == Uncollected(fruits, touching, |fruits|)
    ensures |boards| == |enemies| + 1 && (forall k :: 0 <= k <= |enemies| ==> boards[k] != grid)
    ensures SameCells(boards[|enemies|], grid)
    // (bound to a name, the player's outcome is proved whole rather than case by case)
    ensures var played := player.Updated(keys, grid, boards[0], obstacles, playerHits, now); played
    ensures EnemiesTicked(enemies, old(Poses(enemies)), Poses(enemies), boards, now, player.centre, random)
    ensures FruitsMoved(fruits, old(FruitPoses(fruits)), intents, FruitPoses(fruits), now, obstacles.items, fruitHits, random)
  {
    boards := MovePlayerAndEnemies(grid, obstacles, player, enemies, keys, now, playerHits, random);
    assert unchanged(Strawberries(fruits), Pineapples(fruits));
    label Moved:
    kept, intents := MoveFruits(fruits, now, obstacles, fruitHits, random, touching);
    assert unchanged@Moved(player, obstacles, grid);
    assert unchanged@Moved(Patrollers(enemies), Chasers(enemies));
    assert unchanged@Moved(boards);
  }

  /** The player's update, then every enemy's, towards the player's new centre. */
  method MovePlayerAndEnemies(grid: array2<int>, obstacles: ObstacleGroup, player: Player.Player, enemies: seq<Enemy>,
                              keys: Player.Keys, now: int, playerHits: (Point, seq<Obstacle>) -> bool, random: Draw -> Direction)
    returns (ghost boards: seq<array2<int>>)
    requires player.Valid(grid) && EnemiesValid(enemies, grid)
    requires player.BordersBlock(grid, obstacles, playerHits, player.gridPos)
    modifies grid, obstacles, player, Patrollers(enemies), Chasers(enemies)
    ensures player.Valid(grid)
    ensures EnemiesValid(enemies, grid)
    ensures |boards| == |enemies| + 1 && (forall k :: 0 <= k <= |enemies| ==> boards[k] != grid)
    ensures SameCells(boards[|enemies|], grid)
    ensures var played := player.Updated(keys, grid, boards[0], obstacles, playerHits, now); played
    ensures EnemiesTicked(enemies, old(Poses(enemies)), Poses(enemies), boards, now, player.centre, random)
  {
    ghost var was := Poses(enemies);
    ghost var first := player.Update(keys, grid, obstacles, playerHits, now);
    assert Poses(enemies) == was;
    label Played:
    boards := TickEnemies(grid, enemies, now, player.centre, random, first);
    assert unchanged@Played(player, obstacles, first);
  }

  /**
   * The fruits' move intents, leaving the fruits in the states `intents`,
   * then every fruit's own update; then the collection of the touched
   * collectable fruits, which keeps the rest.
   */
  method MoveFruits(fruits: seq<Fruit>, now: int, obstacles: ObstacleGroup, fruitHits: (Point, seq<Obstacle>) -> bool,
                    random: Draw -> Direction, touching: int -> bool)
    returns (kept: seq<Fruit>, ghost intents: seq<FruitPose>)
    requires FruitsValid(fruits)
    modifies Strawberries(fruits), Pineapples(fruits)
    ensures FruitsValid(fruits) && FruitsValid(kept)
    ensures FruitsMoved(fruits, old(FruitPoses(fruits)), intents, FruitPoses(fruits), now, obstacles.items, fruitHits, random)
    ensures kept == Uncollected(fruits, touching, |fruits|)
  {
    ghost var was := FruitPoses(fruits);
    FruitIntents(fruits, random);
    intents := FruitPoses(fruits);
    TickFruits(fruits, now, obstacles, fruitHits, random);
    ghost var became := FruitPoses(fruits);
    MovedInTurn(fruits, was, intents, became, now, obstacles.items, fruitHits, random);
    kept := Collect(fruits, touching);
    assert FruitPoses(fruits) == became;
  }

  /** Every fruit's intent and then every fruit's update, fruit by fruit, make up `FruitsMoved`. */
  lemma MovedInTurn(fs: seq<Fruit>, was: seq<FruitPose>, intents: seq<FruitPose>, became: seq<FruitPose>,
                    now: int, items: seq<Obstacle>, hits: (Point, seq<Obstacle>) -> bool, random: Draw -> Direction)
    requires |was| == |intents| == |became| == |fs|
    requires forall k :: 0 <= k < |fs| ==> Intended(fs[k], was[k], intents[k], k, random)
    requires forall k :: 0 <= k < |fs| ==> FruitTicked(fs[k], intents[k], became[k], k, now, items, hits, random)
    ensures FruitsMoved(fs, was, intents, became, now, items, hits, random)
  {
  }

  /** An enemy's moving state, of either kind. */
  datatype EnemyPose = PatrolPose(p: Enemy1.Pose) | ChasePose(c: Enemy2.Pose)

  ghost function PoseOf(e: Enemy): EnemyPose
    reads EnemyObj(e)
  {
    match e
    case Patroller(a) => PatrolPose(a.State())
    case Chasing(b) => ChasePose(b.State())
  }

  /** The states of all enemies, in order. */
  ghost function Poses(es: seq<Enemy>): seq<EnemyPose>
    reads Patrollers(es), Chasers(es)
  {
    seq(|es|, k requires 0 <= k < |es| reads Patrollers(es), Chasers(es) => PoseOf(es[k]))
  }

  /**
   * What enemy `e`'s tick did, from its state `was` before it to `became`
   * after it, stated against `pre` and `post`, records of the grid just
   * before and just after it.
   */
  ghost predicate EnemyTicked(e: Enemy, was: EnemyPose, became: EnemyPose, pre: array2<int>, post: array2<int>, now: int,
                              playerCentre: Point, turn: Direction)
    reads pre, post
  {
    match e
    case Patroller(a) => was.PatrolPose? && became.PatrolPose? && a.Patrolled(was.p, became.p, pre, post, now, turn)
    case Chasing(b) => was.ChasePose? && became.ChasePose? && b.Chased(was.c, became.c, pre, post, now, playerCentre)
  }

  /**
   * Enemy `j`'s tick in a record of ticks: it went from `was[j]` to
   * `became[j]`, on the grid recorded in `boards[j]` before its tick and in
   * `boards[j + 1]` after it.
   */
  ghost predicate TickedAt(es: seq<Enemy>, was: seq<EnemyPose>, became: seq<EnemyPose>, boards: seq<array2<int>>, j: int,
                           now: int, playerCentre: Point, random: Draw -> Direction)
    reads boards
  {
    0 <= j < |was| && j < |became| && j < |es| && j + 1 < |boards| &&
    EnemyTicked(es[j], was[j], became[j], boards[j], boards[j + 1], now, playerCentre, random(EnemyTurn(j)))
  }

  /**
   * The ticks of the first `|was|` enemies, in order, each enemy on the
   * grid the ones before it left.
   */
  ghost predicate EnemiesTicked(es: seq<Enemy>, was: seq<EnemyPose>, became: seq<EnemyPose>, boards: seq<array2<int>>,
                                now: int, playerCentre: Point, random: Draw -> Direction)
    reads boards
  {
    |became| == |was| <= |es| && |boards| == |was| + 1 &&
    forall j :: 0 <= j < |was| ==> TickedAt(es, was, became, boards, j, now, playerCentre, random)
  }

  /**
   * `self.enemies.update(self.obstacles, self.player)`: every enemy takes
   * its tick, in order, each on the grid the ones before it left.
   * `boards[k]` records the grid before enemy `k`'s tick: the first is
   * `first`, a record of the grid as it was, the last the grid as it is; `was` and `became` are the
   * enemies' states before and after.
   */
  method TickEnemies(grid: array2<int>, es: seq<Enemy>, now: int, playerCentre: Point, random: Draw -> Direction,
                     ghost first: array2<int>)
    returns (ghost boards: seq<array2<int>>)
    requires EnemiesValid(es, grid) && first != grid && SameCells(first, grid)
    modifies grid, Patrollers(es), Chasers(es)
    ensures EnemiesValid(es, grid)
    ensures |boards| == |es| + 1 && (forall k :: 0 <= k <= |es| ==> boards[k] != grid)
    ensures boards[0] == first && SameCells(boards[|es|], grid)
    ensures EnemiesTicked(es, old(Poses(es)), Poses(es), boards, now, playerCentre, random)
  {
    boards := [first];
    ghost var was, became := [], [];
    for k := 0 to |es|
      invariant EnemiesValid(es, grid)
      invariant |boards| == k + 1 && (forall j :: 0 <= j <= k ==> boards[j] != grid)
      invariant boards[0] == first && SameCells(boards[k], grid)
      invariant |was| == |became| == k
      invariant was == old(Poses(es))[..k] && became == Poses(es)[..k] && Poses(es)[k..] == old(Poses(es))[k..]
      invariant EnemiesTicked(es, was, became, boards, now, playerCentre, random)
    {
      ghost var mid := Poses(es);
      boards, was, became := TickNth(grid, es, k, now, playerCentre, random, boards, was, became);
      PrefixStep(old(Poses(es)), mid, Poses(es), k, was, became);
    }
    assert was == old(Poses(es)) && became == Poses(es);
  }

  /** The bookkeeping of one step of `TickEnemies`: the states before and after, as prefixes. */
  lemma PrefixStep<T>(start: seq<T>, mid: seq<T>, now: seq<T>, k: nat, was: seq<T>, became: seq<T>)
    requires k < |start| == |mid| == |now| && now == mid[k := now[k]]
    requires mid[k..] == start[k..] && |was| == |became| == k + 1
    requires was[..k] == start[..k] && was[k] == mid[k] && became[..k] == mid[..k] && became[k] == now[k]
    ensures was == start[..k + 1] && became == now[..k + 1] && now[k + 1..] == start[k + 1..]
  {
    assert start[k] == mid[k];
  }

  /**
   * Enemy `k`'s tick, within the list: the ticks before it are kept, and
   * the other enemies keep their state.
   */
  method TickNth(grid: array2<int>, es: seq<Enemy>, k: nat, now: int, playerCentre: Point, random: Draw -> Direction,
                 ghost boards: seq<array2<int>>, ghost was: seq<EnemyPose>, ghost became: seq<EnemyPose>)
    returns (ghost boards': seq<array2<int>>, ghost was': seq<EnemyPose>, ghost became': seq<EnemyPose>)
    requires k < |es| && EnemiesValid(es, grid)
    requires |boards| == k + 1 && (forall j :: 0 <= j <= k ==> boards[j] != grid) && SameCells(boards[k], grid)
    requires EnemiesTicked(es, was, became, boards, now, playerCentre, random)
    modifies grid, EnemyObj(es[k])
    ensures EnemiesValid(es, grid)
    ensures Poses(es) == old(Poses(es))[k := PoseOf(es[k])]
    ensures |boards'| == k + 2 && boards'[..k + 1] == boards && SameCells(boards'[k + 1], grid)
    ensures boards'[0] == boards[0] && forall j :: 0 <= j <= k + 1 ==> boards'[j] != grid
    ensures was' == was + [old(PoseOf(es[k]))] && became' == became + [PoseOf(es[k])]
    ensures EnemiesTicked(es, was', became', boards', now, playerCentre, random)
  {
    boards', was', became' := RecordTick(grid, es, k, now, playerCentre, random, boards, was, became);
    assert Poses(es) == old(Poses(es))[k := PoseOf(es[k])];
  }

  /** Enemy `k`'s tick, added to the record of the ticks before it. */
  method RecordTick(grid: array2<int>, es: seq<Enemy>, k: nat, now: int, playerCentre: Point, random: Draw -> Direction,
                    ghost boards: seq<array2<int>>, ghost was: seq<EnemyPose>, ghost became: seq<EnemyPose>)
    returns (ghost boards': seq<array2<int>>, ghost was': seq<EnemyPose>, ghost became': seq<EnemyPose>)
    requires k < |es| && EnemyValid(es[k], grid)
    requires |boards| == k + 1 && (forall j :: 0 <= j <= k ==> boards[j] != grid) && SameCells(boards[k], grid)
    requires EnemiesTicked(es, was, became, boards, now, playerCentre, random)
    modifies grid, EnemyObj(es[k])
    ensures EnemyValid(es[k], grid)
    ensures |boards'| == k + 2 && boards'[..k + 1] == boards && SameCells(boards'[k + 1], grid)
    ensures boards'[0] == boards[0] && forall j :: 0 <= j <= k + 1 ==> boards'[j] != grid
    ensures was' == was + [old(PoseOf(es[k]))] && became' == became + [PoseOf(es[k])]
    ensures EnemiesTicked(es, was', became', boards', now, playerCentre, random)
  {
    assert forall j :: 0 <= j < |boards| ==> boards[j] as object != EnemyObj(es[k]);
    ghost var p := PoseOf(es[k]);
    label Before:
    var after := TickEnemy(grid, es[k], now, playerCentre, random(EnemyTurn(k)), boards[k]);
    assert forall j :: 0 <= j < |boards| ==> unchanged@Before(boards[j]);
    assert EnemiesTicked(es, was, became, boards, now, playerCentre, random);
    boards', was', became' := boards + [after], was + [p], became + [PoseOf(es[k])];
    forall j | 0 <= j <= k
      ensures TickedAt(es, was', became', boards', j, now, playerCentre, random)
    {
      if j < k {
        assert TickedAt(es, was, became, boards, j, now, playerCentre, random);
      }
    }
  }

  /**
   * One enemy's tick: the patroller turns by its own draw, the chaser heads
   * for the player. `pre` records the grid before it, `post` after it.
   */
  method TickEnemy(grid: array2<int>, e: Enemy, now: int, playerCentre: Point, turn: Direction, ghost pre: array2<int>)
    returns (ghost post: array2<int>)
    requires EnemyValid(e, grid) && pre != grid && SameCells(pre, grid)
    modifies grid, EnemyObj(e)
    ensures EnemyValid(e, grid)
    ensures fresh(post) && SameCells(post, grid)
    ensures EnemyTicked(e, old(PoseOf(e)), PoseOf(e), pre, post, now, playerCentre, turn)
  {
    match e {
      case Patroller(a) => post := TickPatroller(grid, a, now, turn, pre);
      case Chasing(b) => post := TickChaser(grid, b, now, playerCentre, pre);
    }
  }

  /** A patrol enemy's tick, with the grid recorded after it. */
  method TickPatroller(grid: array2<int>, a: Enemy1.Enemy1, now: int, turn: Direction, ghost pre: array2<int>)
    returns (ghost post: array2<int>)
    requires a.Valid() && a.grid == grid && pre != grid && SameCells(pre, grid)
    modifies grid, a
    ensures a.Valid()
    ensures fresh(post) && SameCells(post, grid)
    ensures a.Patrolled(old(a.State()), a.State(), pre, post, now, turn)
  {
    a.Update(now, turn);
    post := Snapshot(grid);
  }

  /** A chasing enemy's tick, with the grid recorded after it. */
  method TickChaser(grid: array2<int>, b: Enemy2.Enemy2, now: int, playerCentre: Point, ghost pre: array2<int>)
    returns (ghost post: array2<int>)
    requires b.Valid() && b.grid == grid && pre != grid && SameCells(pre, grid)
    modifies grid, b
    ensures b.Valid()
    ensures fresh(post) && SameCells(post, grid)
    ensures b.Chased(old(b.State()), b.State(), pre, post, now, playerCentre)
  {
    PathFinder.SameCellsPaths(pre, grid, PathFinder.NotWall);
    b.Update(now, playerCentre);
    post := Snapshot(grid);
  }

  /** A fruit's state, of any kind; the orange has none. */
  datatype FruitPose = StrawberryPose(s: FruitMover.Pose) | OrangePose | PineapplePose(p: Pineapple.Pose)

  ghost function FruitPoseOf(f: Fruit): FruitPose
    reads if f.OrangeFruit? then {} else {FruitObj(f)}
  {
    match f
    case StrawberryFruit(s) => StrawberryPose(s.State())
    case OrangeFruit(_) => OrangePose
    case PineappleFruit(p) => PineapplePose(p.State())
  }

  /** The states of all fruits, in order. */
  ghost function FruitPoses(fs: seq<Fruit>): seq<FruitPose>
    reads Strawberries(fs), Pineapples(fs)
  {
    seq(|fs|, k requires 0 <= k < |fs| reads Strawberries(fs), Pineapples(fs) => FruitPoseOf(fs[k]))
  }

  /**
   * Fruit `k` after the level's move intent: a strawberry at rest records
   * the direction drawn for it; a moving one, and every other fruit, is
   * unchanged.
   */
  ghost predicate Intended(f: Fruit, was: FruitPose, became: FruitPose, k: nat, random: Draw -> Direction)
  {
    match f
    case StrawberryFruit(_) =>
      was.StrawberryPose? &&
      became == StrawberryPose(was.s.(nextDirection := if was.s.moving then was.s.nextDirection
                                                        else Some(random(FruitIntent(k)))))
    case OrangeFruit(_) => became == was
    case PineappleFruit(_) => became == was
  }

  /**
   * The level's loop over the fruits: each draws a direction, and a fruit
   * with a `move` method (the strawberry) is asked to move that way.
   */
  method FruitIntents(fs: seq<Fruit>, random: Draw -> Direction)
    requires FruitsValid(fs)
    modifies Strawberries(fs), Pineapples(fs)
    ensures FruitsValid(fs)
    ensures forall k :: 0 <= k < |fs| ==> Intended(fs[k], old(FruitPoses(fs))[k], FruitPoses(fs)[k], k, random)
  {
    for k := 0 to |fs|
      invariant FruitsValid(fs)
      invariant forall j :: 0 <= j < k ==> Intended(fs[j], old(FruitPoses(fs))[j], FruitPoses(fs)[j], j, random)
      invariant FruitPoses(fs)[k..] == old(FruitPoses(fs))[k..]
    {
      IntendNth(fs, k, random);
    }
  }

  /** Fruit `k`'s move intent, within the list: the other fruits keep their state. */
  method IntendNth(fs: seq<Fruit>, k: nat, random: Draw -> Direction)
    requires k < |fs| && FruitsValid(fs)
    modifies Strawberries(fs), Pineapples(fs)
    ensures FruitsValid(fs)
    ensures FruitPoses(fs) == old(FruitPoses(fs))[k := FruitPoseOf(fs[k])]
    ensures Intended(fs[k], old(FruitPoseOf(fs[k])), FruitPoseOf(fs[k]), k, random)
  {
    if fs[k].StrawberryFruit? {
      var d := random(FruitIntent(k));
      ParseDirectionNames(Name(d), d);
      fs[k].s.Move(Name(d));
    }
  }

  /**
   * Fruit `k`'s own update, from state `was` to state `became`, among
   * obstacles `items`: a strawberry draws its direction and steps (the
   * drawn direction taking only at rest), a pineapple runs its state
   * machine with the direction drawn for it, an orange does nothing.
   */
  ghost predicate FruitTicked(f: Fruit, was: FruitPose, became: FruitPose, k: nat, now: int, items: seq<Obstacle>,
                              hits: (Point, seq<Obstacle>) -> bool, random: Draw -> Direction)
    reads if f.PineappleFruit? then {f.p.grid} else {}
  {
    match f
    case StrawberryFruit(s) =>
      was.StrawberryPose? && became.StrawberryPose? &&
      s.StepFrom(was.s, became.s, if was.s.moving then None else Some(random(FruitTurn(k))), now, items, hits)
    case OrangeFruit(_) => became == was
    case PineappleFruit(p) => was.PineapplePose? && became.PineapplePose? && p.UpdatedFrom(was.p, became.p, now, random(FruitTurn(k)))
  }

  /** The grids the pineapples read. */
  function FruitGrids(fs: seq<Fruit>): set<array2<int>>
  {
    set k | 0 <= k < |fs| && fs[k].PineappleFruit? :: fs[k].p.grid
  }

  /** Fruit `j` went from `was` through its move intent to `intents[j]`, and through its own update to `became[j]`. */
  ghost predicate FruitMovedAt(fs: seq<Fruit>, was: seq<FruitPose>, intents: seq<FruitPose>, became: seq<FruitPose>, j: int,
                               now: int, items: seq<Obstacle>, hits: (Point, seq<Obstacle>) -> bool, random: Draw -> Direction)
    reads FruitGrids(fs)
  {
    0 <= j < |fs| && j < |was| && j < |intents| && j < |became| &&
    Intended(fs[j], was[j], intents[j], j, random) &&
    FruitTicked(fs[j], intents[j], became[j], j, now, items, hits, random)
  }

  /** The fruits' part of `Level.update`: every fruit's move intent, then every fruit's own update. */
  ghost predicate FruitsMoved(fs: seq<Fruit>, was: seq<FruitPose>, intents: seq<FruitPose>, became: seq<FruitPose>,
                              now: int, items: seq<Obstacle>, hits: (Point, seq<Obstacle>) -> bool, random: Draw -> Direction)
    reads FruitGrids(fs)
  {
    |was| == |intents| == |became| == |fs| &&
    forall j :: 0 <= j < |fs| ==> FruitMovedAt(fs, was, intents, became, j, now, items, hits, random)
  }

  /**
   * `self.fruits.update(self.obstacles)`: a strawberry draws its own
   * direction and steps, a pineapple runs its state machine, an orange
   * does nothing.
   */
  method TickFruits(fs: seq<Fruit>, now: int, obstacles: ObstacleGroup, hits: (Point, seq<Obstacle>) -> bool, random: Draw -> Direction)
    requires FruitsValid(fs)
    modifies Strawberries(fs), Pineapples(fs)
    ensures FruitsValid(fs)
    ensures forall k :: 0 <= k < |fs| ==>
              FruitTicked(fs[k], old(FruitPoses(fs))[k], FruitPoses(fs)[k], k, now, obstacles.items, hits, random)
  {
    for k := 0 to |fs|
      invariant FruitsValid(fs)
      invariant forall j :: 0 <= j < k ==>
                  FruitTicked(fs[j], old(FruitPoses(fs))[j], FruitPoses(fs)[j], j, now, obstacles.items, hits, random)
      invariant FruitPoses(fs)[k..] == old(FruitPoses(fs))[k..]
    {
      TickFruitNth(fs, k, now, obstacles, hits, random);
    }
  }

  /** Fruit `k`'s update, within the list: the other fruits keep their state. */
  method TickFruitNth(fs: seq<Fruit>, k: nat, now: int, obstacles: ObstacleGroup, hits: (Point, seq<Obstacle>) -> bool,
                      random: Draw -> Direction)
    requires k < |fs| && FruitsValid(fs)
    modifies Strawberries(fs), Pineapples(fs)
    ensures FruitsValid(fs)
    ensures FruitPoses(fs) == old(FruitPoses(fs))[k := FruitPoseOf(fs[k])]
    ensures FruitTicked(fs[k], old(FruitPoseOf(fs[k])), FruitPoseOf(fs[k]), k, now, obstacles.items, hits, random)
  {
    match fs[k] {
      case StrawberryFruit(s) => s.Wander(random(FruitTurn(k)), now, obstacles, hits);
      case OrangeFruit(_) =>
      case PineappleFruit(p) => p.Update(now, random(FruitTurn(k)));
    }
  }

  /**
   * The collection loop: every touched fruit that is collectable is
   * removed; every other fruit stays, in order.
   */
  method Collect(fs: seq<Fruit>, touching: int -> bool) returns (kept: seq<Fruit>)
    requires FruitsValid(fs)
    ensures kept == Uncollected(fs, touching, |fs|) && FruitsValid(kept)
  {
    kept := [];
    for k := 0 to |fs|
      invariant kept == Uncollected(fs, touching, k)
    {
      if !(touching(k) && Collectable(fs[k])) {
        kept := kept + [fs[k]];
      }
    }
    FruitsValidUncollected(fs, touching);
  }

  /** What the collection leaves is still a valid list of fruits. */
  lemma FruitsValidUncollected(fs: seq<Fruit>, touching: int -> bool)
    requires FruitsValid(fs)
    ensures FruitsValid(Uncollected(fs, touching, |fs|))
  {
    var kept := Uncollected(fs, touching, |fs|);
    var idx := UncollectedPicks(fs, touching, |fs|);
    forall k, m | 0 <= k < m < |kept| && !kept[k].OrangeFruit? && !kept[m].OrangeFruit?
      ensures FruitObj(kept[k]) != FruitObj(kept[m])
    {
      assert idx[k] < idx[m];
    }
  }

  /** The grid holds the codes map `rows` leaves in an empty 13 x 19 grid. */
  ghost predicate MapGrid(grid: array2<int>, rows: seq<string>)
    reads grid
  {
    grid.Length0 == 13 && grid.Length1 == 19 &&
    forall i, j :: 0 <= i < 13 && 0 <= j < 19 ==> grid[i, j] == CodeAt(Package, rows, i, j)
  }

  predicate NoPlayer(spawns: seq<Spawn>)
  {
    forall k :: 0 <= k < |spawns| ==> !spawns[k].PlayerSpawn?
  }

  /** The enemy `load_map` makes of spawn `s`: the class its type number chooses, on its tile. */
  ghost predicate EnemyOf(s: Spawn, e: Enemy)
    reads EnemyObj(e)
  {
    match e
    case Patroller(a) => s == EnemySpawn(1, a.gridPos)
    case Chasing(b) => s == EnemySpawn(2, b.gridPos)
  }

  /**
   * The fruit `load_map` makes of spawn `s`: the class its name chooses,
   * at the top-left pixel of its tile; a pineapple shares the level's grid.
   */
  ghost predicate FruitOf(s: Spawn, f: Fruit, grid: array2<int>)
    reads if f.OrangeFruit? then {} else {FruitObj(f)}
  {
    s.FruitSpawn? &&
    match f
    case OrangeFruit(tl) => s.name == "orange" && tl == TileTopLeft(s.at)
    case StrawberryFruit(m) => s.name == "strawberry" && m.topLeft == TileTopLeft(s.at)
    case PineappleFruit(p) => s.name == "pineapple" && p.topLeft == TileTopLeft(s.at) && p.grid == grid
  }

  /** Enemy `k` is what enemy spawn `k` makes. */
  ghost predicate EnemiesOf(es: seq<Spawn>, enemies: seq<Enemy>)
    reads Patrollers(enemies), Chasers(enemies)
  {
    |enemies| == |es| && forall k :: 0 <= k < |es| ==> EnemyOf(es[k], enemies[k])
  }

  /** The player of the last of the player spawns `ps`, on its tile, or none when there is none. */
  ghost predicate PlayerOf(ps: seq<Spawn>, player: Player.Player?)
    reads player
  {
    if ps == [] then player == null else player != null && player.gridPos == ps[|ps| - 1].at
  }

  /** Fruit `k` is what fruit spawn `k` makes. */
  ghost predicate FruitsOf(fs: seq<Spawn>, fruits: seq<Fruit>, grid: array2<int>)
    reads Strawberries(fruits), Pineapples(fruits)
  {
    |fruits| == |fs| && forall k :: 0 <= k < |fs| ==> FruitOf(fs[k], fruits[k], grid)
  }

  /**
   * What `load_map` has made of the spawns `ss`: the player of the last
   * 'P', on its tile, or none; then, by index, the enemy of every enemy
   * spawn and the fruit of every fruit spawn.
   */
  ghost predicate Spawned(ss: seq<Spawn>, grid: array2<int>, player: Player.Player?, enemies: seq<Enemy>, fruits: seq<Fruit>)
    reads player, Patrollers(enemies), Chasers(enemies), Strawberries(fruits), Pineapples(fruits)
  {
    && PlayerOf(PlayerSpawnsOf(ss), player)
    && EnemiesOf(EnemySpawnsOf(ss), enemies)
    && FruitsOf(FruitSpawnsOf(ss), fruits, grid)
  }

  /** A player spawn brings the player standing on its tile, in place of any earlier one. */
  lemma SpawnedPlayer(ss: seq<Spawn>, s: Spawn, grid: array2<int>, player: Player.Player?, p: Player.Player,
                      enemies: seq<Enemy>, fruits: seq<Fruit>)
    requires Spawned(ss, grid, player, enemies, fruits) && s.PlayerSpawn? && p.gridPos == s.at
    ensures Spawned(ss + [s], grid, p, enemies, fruits)
  {
    SpawnsOfAppend(ss, s);
    assert EnemiesOf(EnemySpawnsOf(ss + [s]), enemies);
    assert FruitsOf(FruitSpawnsOf(ss + [s]), fruits, grid);
  }

  /** An enemy spawn brings its enemy, after the earlier ones. */
  lemma SpawnedEnemy(ss: seq<Spawn>, s: Spawn, grid: array2<int>, player: Player.Player?, enemies: seq<Enemy>, e: Enemy,
                     fruits: seq<Fruit>)
    requires Spawned(ss, grid, player, enemies, fruits) && s.EnemySpawn? && EnemyOf(s, e)
    ensures Spawned(ss + [s], grid, player, enemies + [e], fruits)
  {
    SpawnsOfAppend(ss, s);
    assert PlayerSpawnsOf(ss + [s]) == PlayerSpawnsOf(ss);
    EnemiesOfAppend(EnemySpawnsOf(ss), enemies, s, e);
    assert EnemiesOf(EnemySpawnsOf(ss + [s]), enemies + [e]);
    assert FruitsOf(FruitSpawnsOf(ss + [s]), fruits, grid);
  }

  /** A fruit spawn brings its fruit, after the earlier ones. */
  lemma SpawnedFruit(ss: seq<Spawn>, s: Spawn, grid: array2<int>, player: Player.Player?, enemies: seq<Enemy>,
                     fruits: seq<Fruit>, f: Fruit)
    requires Spawned(ss, grid, player, enemies, fruits) && s.FruitSpawn? && FruitOf(s, f, grid)
    ensures Spawned(ss + [s], grid, player, enemies, fruits + [f])
  {
    SpawnsOfAppend(ss, s);
    FruitsOfAppend(FruitSpawnsOf(ss), fruits, s, f, grid);
  }

  lemma EnemiesOfAppend(es: seq<Spawn>, enemies: seq<Enemy>, s: Spawn, e: Enemy)
    requires EnemiesOf(es, enemies) && EnemyOf(s, e)
    ensures EnemiesOf(es + [s], enemies + [e])
  {
    forall k | 0 <= k < |es| + 1
      ensures EnemyOf((es + [s])[k], (enemies + [e])[k])
    {
      if k < |es| {
        assert (es + [s])[k] == es[k] && (enemies + [e])[k] == enemies[k];
      }
    }
  }

  lemma FruitsOfAppend(fs: seq<Spawn>, fruits: seq<Fruit>, s: Spawn, f: Fruit, grid: array2<int>)
    requires FruitsOf(fs, fruits, grid) && FruitOf(s, f, grid)
    ensures FruitsOf(fs + [s], fruits + [f], grid)
  {
    forall k | 0 <= k < |fs| + 1
      ensures FruitOf((fs + [s])[k], (fruits + [f])[k], grid)
    {
      if k < |fs| {
        assert (fs + [s])[k] == fs[k] && (fruits + [f])[k] == fruits[k];
      }
    }
  }

  /** `load_map`'s reading of the map into a fresh empty grid and obstacle group. */
  method LoadMap(rows: seq<string>) returns (grid: array2<int>, obstacles: ObstacleGroup, spawns: seq<Spawn>, count: nat)
    requires Fits(rows)
    ensures fresh(grid) && fresh(obstacles) && MapGrid(grid, rows)
    ensures obstacles.items == MapBoxes(rows, |rows|)
    ensures spawns == MapSpawns(Package, rows, |rows|) && count == MapFruits(Package, rows, |rows|)
    ensures forall k :: 0 <= k < |spawns| ==> Placed(Package, rows, spawns[k])
    ensures count == FruitSpawns(spawns)
  {
    grid := new int[13, 19]((i, j) => Empty);
    obstacles := new ObstacleGroup([]);
    spawns, count := Load(Package, rows, grid, obstacles);
    MapSpawnsPlaced(Package, rows, |rows|);
    FruitCountMatchesSpawns(Package, rows, |rows|);
  }

  /** `create_borders`: the four border strips join the obstacles. */
  method CreateBorders(obstacles: ObstacleGroup)
    modifies obstacles
    ensures obstacles.items == old(obstacles.items) + Borders
  {
    obstacles.Add(Obstacle(Point(0, 0)));
    obstacles.Add(Obstacle(Point(Width - 25, 0)));
    obstacles.Add(Obstacle(Point(25, 0)));
    obstacles.Add(Obstacle(Point(25, Height - 75)));
  }

  /**
   * The objects `load_map` creates as it meets their characters: the
   * player (the last 'P' wins), the enemies through `EnemyFactory.create`
   * and the fruits through `FruitFactory.create`, in map order. The grid
   * already holds the map's codes; an enemy reserves a cell the map has
   * already reserved, so the grid ends as the map left it.
   */
  method Populate(rows: seq<string>, spawns: seq<Spawn>, grid: array2<int>, w: nat, h: nat, now: int, random: Draw -> Direction)
    returns (player: Player.Player?, enemies: seq<Enemy>, fruits: seq<Fruit>)
    requires Fits(rows) && MapGrid(grid, rows)
    requires forall k :: 0 <= k < |spawns| ==> Placed(Package, rows, spawns[k])
    modifies grid
    ensures MapGrid(grid, rows)
    ensures Live(grid, player, enemies, fruits)
    ensures |fruits| == FruitSpawns(spawns)
    ensures player == null <==> NoPlayer(spawns)
    ensures Spawned(spawns, grid, player, enemies, fruits)
  {
    player, enemies, fruits := null, [], [];
    for k := 0 to |spawns|
      invariant MapGrid(grid, rows)
      invariant Live(grid, player, enemies, fruits)
      invariant player == null <==> NoPlayer(spawns[..k])
      invariant |fruits| == FruitSpawns(spawns[..k])
      invariant Spawned(spawns[..k], grid, player, enemies, fruits)
    {
      SpawnsPrefix(spawns, k);
      PackagePlaced(rows, spawns[k]);
      assert spawns[..k + 1] == spawns[..k] + [spawns[k]];
      player, enemies, fruits := SpawnOne(rows, spawns[k], grid, w, h, now, random, spawns[..k], player, enemies, fruits);
    }
    assert spawns[..|spawns|] == spawns;
  }

  /** One more spawn adds its fruit to the count and may bring the player. */
  lemma SpawnsPrefix(spawns: seq<Spawn>, k: nat)
    requires k < |spawns|
    ensures FruitSpawns(spawns[..k + 1]) == FruitSpawns(spawns[..k]) + if spawns[k].FruitSpawn? then 1 else 0
    ensures NoPlayer(spawns[..k + 1]) <==> NoPlayer(spawns[..k]) && !spawns[k].PlayerSpawn?
  {
    assert spawns[..k + 1] == spawns[..k] + [spawns[k]];
    FruitSpawnsAppend(spawns[..k], [spawns[k]]);
    assert [spawns[k]][..0] == [];
  }

  lemma PackagePlaced(rows: seq<string>, s: Spawn)
    requires Fits(rows) && Placed(Package, rows, s)
    ensures Ready(rows, s)
  {
  }

  /** The object one spawn creates, added to what the level already has. */
  method SpawnOne(rows: seq<string>, s: Spawn, grid: array2<int>, w: nat, h: nat, now: int, random: Draw -> Direction,
                  ghost ss: seq<Spawn>, player: Player.Player?, enemies: seq<Enemy>, fruits: seq<Fruit>)
    returns (player': Player.Player?, enemies': seq<Enemy>, fruits': seq<Fruit>)
    requires MapGrid(grid, rows) && Ready(rows, s) && Live(grid, player, enemies, fruits)
    requires Spawned(ss, grid, player, enemies, fruits)
    modifies grid
    ensures MapGrid(grid, rows) && Live(grid, player', enemies', fruits')
    ensures player' == null <==> player == null && !s.PlayerSpawn?
    ensures |fruits'| == |fruits| + if s.FruitSpawn? then 1 else 0
    ensures Spawned(ss + [s], grid, player', enemies', fruits')
  {
    FruitFactory.LevelNames();
    player', enemies', fruits' := player, enemies, fruits;
    var tl := TileTopLeft(s.at);
    TileOfTopLeft(s.at);
    if s.PlayerSpawn? {
      player' := new Player.Player(tl.x, tl.y, w, h, now);
      SpawnedPlayer(ss, s, grid, player, player', enemies, fruits);
    } else if s.EnemySpawn? {
      enemies' := AddEnemy(rows, s, grid, now, ss, player, enemies, fruits);
    } else {
      fruits' := AddFruit(s, grid, now, random, ss, player, enemies, fruits);
    }
  }

  /** `self.enemies.add(EnemyFactory.create(t, x, y, self.grid))`. */
  method AddEnemy(rows: seq<string>, s: Spawn, grid: array2<int>, now: int,
                  ghost ss: seq<Spawn>, player: Player.Player?, enemies: seq<Enemy>, fruits: seq<Fruit>)
    returns (enemies': seq<Enemy>)
    requires MapGrid(grid, rows) && Ready(rows, s) && s.EnemySpawn? && Live(grid, player, enemies, fruits)
    requires Spawned(ss, grid, player, enemies, fruits)
    modifies grid
    ensures MapGrid(grid, rows) && Live(grid, player, enemies', fruits)
    ensures Spawned(ss + [s], grid, player, enemies', fruits)
  {
    label Before:
    var e := SpawnEnemy(rows, s.enemyType, s.at, grid, now);
    assert unchanged@Before(if player == null then {} else {player}, Patrollers(enemies), Chasers(enemies),
                            Strawberries(fruits), Pineapples(fruits));
    EnemiesAppend(enemies, e, grid);
    SpawnedEnemy(ss, s, grid, player, enemies, e, fruits);
    enemies' := enemies + [e];
  }

  /** `self.fruits.add(FruitFactory.create(name, x, y, …))`; the count grows with it in `Populate`. */
  method AddFruit(s: Spawn, grid: array2<int>, now: int, random: Draw -> Direction,
                  ghost ss: seq<Spawn>, player: Player.Player?, enemies: seq<Enemy>, fruits: seq<Fruit>)
    returns (fruits': seq<Fruit>)
    requires s.FruitSpawn? && (s.name == "orange" || s.name == "strawberry" || s.name == "pineapple")
    requires Live(grid, player, enemies, fruits) && Spawned(ss, grid, player, enemies, fruits)
    ensures Live(grid, player, enemies, fruits') && |fruits'| == |fruits| + 1
    ensures Spawned(ss + [s], grid, player, enemies, fruits')
  {
    FruitFactory.LevelNames();
    label Before:
    var f := SpawnFruit(s.name, s.at, grid, now, random);
    assert unchanged@Before(if player == null then {} else {player}, Patrollers(enemies), Chasers(enemies),
                            Strawberries(fruits), Pineapples(fruits));
    FruitsAppend(fruits, f);
    SpawnedFruit(ss, s, grid, player, enemies, fruits, f);
    fruits' := fruits + [f];
  }

  /** An enemy of type `t` from `EnemyFactory.create`, at a tile the map reserved. */
  method SpawnEnemy(rows: seq<string>, t: int, at: Pos, grid: array2<int>, now: int) returns (e: Enemy)
    requires MapGrid(grid, rows) && InGrid(grid, at)
    requires t == 1 || t == 2
    requires CodeAt(Package, rows, at.0, at.1) == Reserved
    modifies grid
    ensures MapGrid(grid, rows) && EnemyValid(e, grid) && fresh(EnemyObj(e))
    ensures EnemyOf(EnemySpawn(t, at), e)
  {
    var tl := TileTopLeft(at);
    TileOfTopLeft(at);
    var r := EnemyFactory.Create(t, tl.x, tl.y, grid, now);
    e := r.value;
  }

  /** A fruit named `name` from `FruitFactory.create`; a pineapple is given the grid. */
  method SpawnFruit(name: string, at: Pos, grid: array2<int>, now: int, random: Draw -> Direction) returns (f: Fruit)
    requires name == "orange" || name == "strawberry" || name == "pineapple"
    requires FruitFactory.KindOf("orange", true) == Success(FruitFactory.Orange)
    requires FruitFactory.KindOf("strawberry", true) == Success(FruitFactory.Strawberry)
    requires FruitFactory.KindOf("pineapple", true) == Success(FruitFactory.PineappleKind)
    ensures FruitValid(f) && (!f.OrangeFruit? ==> fresh(FruitObj(f)))
    ensures FruitOf(FruitSpawn(name, at), f, grid)
    ensures f.PineappleFruit? ==> f.p.direction == random(Facing(at))
  {
    var tl := TileTopLeft(at);
    var r := FruitFactory.Create(name, tl.x, tl.y, grid, random(Facing(at)), now);
    f := r.value;
  }
}
