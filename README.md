# Forest: a verified model of the game's core

Forest is a tile-grid arcade game written with pygame. The player walks a
13 x 19 board of 50-pixel tiles. With the space bar the player grows a row of
boxes in front of them, or clears such a row. The player must collect every
fruit on the board before an enemy touches them.

The two enemies behave differently:

- the patrol enemy walks straight ahead and turns when blocked;
- the chaser follows a breadth-first shortest path to the player.

There are also three fruits:

- the strawberry wanders at random;
- the pineapple walks straight ahead and flies over a single wall;
- the orange stands still.

All agents share one occupancy grid of integer codes: 0 empty, 1 wall,
2 reserved by an enemy, 3 the player's cell. An enemy reserves the cell it is
about to enter before it moves, so no two enemies enter the same cell.

The project models the following parts:

- the package version of the game: `Settings`, `Player`, `Level`, the
  `Enemies` package, the `Fruits` package, `Menu_bar`, `ScoreBoard`,
  `States` and `Game`;
- the single-file drafts `Main.py`, `Enemy.py`, `Fruits.py` and `fruits.py`,
  which carry their own player, level, enemies and fruits.

In the model:

- Code that changes state step by step is written as Dafny classes. The grid
  is a shared `array2<int>`, and agents and levels have `modifies` clauses.
- Pure computations are functions with lemmas beside them. These cover
  tile/pixel geometry, the clamp-and-snap motion step, the ping-pong
  animator, the map alphabet, text parsing and the score file.

Everything the core cannot compute on its own is passed in as a parameter:

| parameter | stands for |
|---|---|
| `now` | the millisecond clock, `pygame.time.get_ticks()` |
| `turn`, `initial`, `random` | `random.choice` |
| `Keys` | the pressed-key table |
| `hits`, `overlaps`, `touching`, `enemyHit` | rectangle collision tests |
| a set of hit `Button`s | one mouse press |
| `hit` | the rectangle hit tests of the screens |
| `Option<seq<string>>` | the lines of `best_times.txt`, or `None` when the file is missing |

The modules:

- `Wrappers` is the Option/Result/error vocabulary. Python's exceptions
  become `Failure(ValueError(..))`, `Failure(IndexError)` and
  `Failure(KeyError(..))`.
- `Settings` holds the constants and the tile/pixel conversions.
- `Text` covers `str()`, `int()`, `strip()`, `lower()`, `split()` and the
  `:02` format. Digits are the ASCII ones; whitespace is Python's own set
  for `str.isspace` (`IsSpace`).
- `Motion` and `Animation` are the shared movement and frame logic.
- `Obstacles` is a sprite group of box rectangles.
- `PathFinder` is the breadth-first search. It is proved to return a
  shortest path, or `[]` exactly when none exists.
- `Enemy1`, `Enemy2` and `EnemyFactory` are the enemies.
- `FruitMover`, `Pineapple`, `FruitFactory` and `DraftFruits` are the fruits.
- `Player` is the player.
- `LevelMap` and `Level` are map loading and one level.
- `MenuBar`, `ScoreBoard` and `States` are the screens; `States` also holds
  `Game`'s screen switching.
- `DraftLevel` and `DraftEnemy` are the `Main.py` and `Enemy.py` drafts.

## Model

| member | source | states |
|---|---|---|
| Settings.ParseDirectionNames | Settings.py:7-12 | a string is a key of `DIRECTION_VECTORS` exactly when it is the name of one of the four directions (`ParseDirection`) |
| Settings.Vector | Settings.py:7-12 | each direction's vector is a unit step along one axis |
| Settings.AdjacentIsShift | Settings.py:7-12 | two cells are 4-adjacent exactly when one is the other shifted by one direction, and that direction is unique |
| Settings.DirectionTo | Enemies/Enemy2.py:117-132 | the direction returned for two adjacent cells is the one that shifts the first onto the second |
| Settings.TileOfTopLeft | Enemies/Enemy1.py:31-34 | converting a tile to its top-left pixel and back with `(v - 25)//50` gives the same tile (`TileTopLeft`, `TileOf`) |
| Settings.TileOfCentre | Player.py:78-81 | the centre pixel of a tile, as the player computes it, lies in that tile (`TileCentre`) |
| Settings.TileOfContains | Enemies/Enemy2.py:104-105 | floor conversion of a pixel gives the tile whose 50 x 50 square contains it (`TileOf`) |
| Motion.Clamp | Fruits/GridMovableMixin.py:41-42 | the step lies in [-speed, speed], equals the delta when it fits, and otherwise has magnitude speed and the delta's sign |
| Motion.Advance | Fruits/GridMovableMixin.py:38-47 | arrival happens exactly when the Chebyshev distance is at most speed, and then the position is the target; otherwise the distance drops by exactly speed; neither axis overshoots |
| Motion.SnapIsExact | Fruits/GridMovableMixin.py:45-47 | on the arrival tick the clamped step already lands on the target, so the snap never jumps |
| Motion.Ticks | Fruits/GridMovableMixin.py:38-47 | every motion takes at least one tick |
| Motion.TicksIsCeiling | Fruits/GridMovableMixin.py:38-47 | the tick count is ceil(distance / speed): enough ticks to cover the distance, and one fewer is not enough |
| Motion.ArrivesAfterTicks | Fruits/GridMovableMixin.py:38-47 | a motion has arrived after k ticks exactly when k is the tick count, and then it stands on the target |
| Animation.Start | Enemies/BaseEnemy.py:9-34 | a fresh cursor is valid for every frame count |
| Animation.PingPong | Enemies/BaseEnemy.py:36-50 | the index stays in range and moves by the new direction; the direction flips to -1 at the last frame and to +1 at frame 0, and is kept in between |
| Animation.Sweep | Enemies/BaseEnemy.py:36-50 | after any number of steps from frame 0 the cursor is in range and its direction is +1 or -1 |
| Animation.SweepShape | Enemies/BaseEnemy.py:36-50 | within one cycle the index climbs to the last frame and walks back down |
| Animation.SweepPeriodic | Enemies/BaseEnemy.py:36-50 | the frame sequence repeats with period 2(count - 1) |
| Animation.Tick | Fruits/BaseFruit.py:18-26 | the cursor stays valid; before the interval has passed nothing changes; after it, the time is recorded and the index moves by one frame |
| Animation.Animate | Fruits/BaseFruit.py:18-26 | the cursor ticks, and when a frame advances the image is that frame of the strip; before it nothing changes |
| Obstacles.ObstacleGroup.constructor | Level.py:14-28 | the group holds the given obstacles in order |
| Obstacles.ObstacleGroup.Add | Player.py:98-116 | the obstacle is appended at the end of the group |
| Obstacles.ObstacleGroup.RemoveFirstOnTile | Player.py:98-108 | the first obstacle on the tile is removed, and `found` reports whether there was one; otherwise the group is unchanged |
| PathFinder.Bfs | Enemies/Enemy2.py:42-69 | the result is `[]` exactly when the goal is unreachable; otherwise it is a path from start to goal whose steps are 4-adjacent and passable, and no path is shorter |
| PathFinder.Found | Enemies/Enemy2.py:53-58 | when the goal is at the front of the queue, the rebuilt path is a shortest path |
| PathFinder.Expand | Enemies/Enemy2.py:60-68 | the cells queued are `Fresh(.., Order)`: the unvisited, in-bounds, passable neighbours in the order up, down, left, right; each is marked visited, given the current cell as parent and queued one layer deeper; nothing else changes |
| PathFinder.VisitOne | Enemies/Enemy2.py:64-68 | visiting one more new passable neighbour marks it visited with the current cell as parent, one layer deeper, and changes nothing already visited |
| PathFinder.Reconstruct | Enemies/Enemy2.py:54-58 | walking `came_from` back from the goal gives a walk from start to goal with the goal's depth plus one cells |
| PathFinder.InitialInv | Enemies/Enemy2.py:46-49 | the search invariant holds when only the start is queued and visited |
| PathFinder.Progress | Enemies/Enemy2.py:51-68 | each iteration visits a new in-grid cell or shortens the queue |
| PathFinder.ExpandKeeps | Enemies/Enemy2.py:51-68 | expanding the queue front keeps the search invariant |
| PathFinder.ShortestAtFront | Enemies/Enemy2.py:51-58 | when the goal leaves the queue, no path to it has fewer cells than its depth plus one |
| PathFinder.NoPathWhenExhausted | Enemies/Enemy2.py:51-69 | when the queue runs empty without reaching the goal, the goal is unreachable |
| PathFinder.ShortestInterior | Enemy.py:116-118 | on a shortest path every cell strictly between start and goal is passable by the rule: not a wall for the chaser, free for the draft enemy |
| PathFinder.StartIsGoal | Enemies/Enemy2.py:51-58 | searching from the goal itself gives the one-cell path |
| PathFinder.FreeIsNotWall | Enemy.py:116-118 | a cell the draft enemy can pass (`Passable` on free cells) the chaser can pass too |
| PathFinder.FreeChainIsNotWall | Enemy.py:116-118 | a path over free cells is a path for the chaser rule |
| PathFinder.FreeReachIsNotWall | Enemy.py:116-118 | a goal the draft enemy can reach the chaser can reach |
| Enemy1.Enemy1.constructor | Enemies/Enemy1.py:14-28 | the enemy stands on the tile under (x, y), facing up and idle; that cell becomes reserved and no other cell changes |
| Enemy1.Enemy1.Update | Enemies/Enemy1.py:36-73 | when idle and the cell ahead is in the grid and neither wall nor reserved, the old cell is freed, the new one reserved and the move begins; when blocked, the enemy faces `turn`, restarts its frame and leaves the grid alone; a move in progress advances one interpolation step |
| Enemy1.CanEnterIsPassable | Enemies/Enemy1.py:44-47 | the patroller enters a cell exactly when the chaser's search could pass it short of its goal (`PathFinder.Passable`) and it is not reserved (`CanEnter`) |
| Enemy2.StepDirection | Enemies/Enemy2.py:117-132 | a unit delta gives the direction whose vector it is, and a zero delta keeps the facing |
| Enemy2.StepDirectionOfShift | Enemies/Enemy2.py:117-132 | the facing recovered from a unit step is the direction of that step |
| Enemy2.Enemy2.constructor | Enemies/Enemy2.py:13-35 | the enemy stands on the tile under (x, y), reserved, facing down, with no path |
| Enemy2.Enemy2.AnimateFrustration | Enemies/Enemy2.py:71-81 | the frustration cursor ping-pongs every 600 ms; nothing else changes |
| Enemy2.Enemy2.Glide | Enemies/Enemy2.py:87-101 | one interpolation step; on arrival the enemy stops on the target, shows walking frame 0 and clears its path; the grid is untouched |
| Enemy2.Enemy2.Commit | Enemies/Enemy2.py:117-136 | its old cell becomes empty, the next cell reserved, no other cell changes, and the enemy heads for the next cell's top-left pixel facing the step |
| Enemy2.Enemy2.Decide | Enemies/Enemy2.py:103-137 | the path is the search result towards the player's tile; with a second cell that is not reserved, the enemy commits to it; otherwise only the frustration animation runs and the grid is unchanged |
| Enemy2.Enemy2.Update | Enemies/Enemy2.py:83-137 | while moving, one interpolation step, and on arrival walking frame 0 and no path; at rest the path is a shortest path over non-wall cells to the player's tile, or `[]` exactly when none exists, and a second cell that is not reserved is committed to, the grid otherwise unchanged |
| Enemy2.GoalTileOfCentre | Enemies/Enemy2.py:104-105 | the goal read from a tile's centre pixel is that tile (`GoalTile`) |
| EnemyFactory.KindOf | Enemies/EnemyFactory.py:9-15 | type 1 is the patrol, type 2 the chaser, and anything else is `ValueError("Unknown enemy type: <n>")` |
| EnemyFactory.Create | Enemies/EnemyFactory.py:9-15 | the enemy of the chosen kind stands on and reserves the tile under (x, y); an unknown type fails with the factory's error and leaves the grid unchanged |
| FruitFactory.KindOf | Fruits/FruitFactory.py:11-20 | each known class is chosen exactly when the lower-cased name matches it (the pineapple only where the factory knows it); an unknown name is a `ValueError` naming the type as given |
| FruitFactory.KindOfIgnoresCase | Fruits/FruitFactory.py:12 | two names that lower-case alike choose the same class or both fail |
| FruitFactory.LevelNames | Level.py:99-110 | the three names a package map asks for are all known |
| FruitFactory.Create | Fruits/FruitFactory.py:11-20 | the fruit of the chosen kind is placed at (x, y), and only the pineapple receives the grid; an unknown name fails with the factory's error |
| FruitMover.Nudge | Fruits/GridMovableMixin.py:28 | the rectangle moves by exactly one tile in the direction's axis |
| FruitMover.MovingFruit.constructor | Fruits/BaseFruit.py:8-16 | a collectable fruit at (x, y) on frame 0, idle, with no intent; its tile is the one under its top-left corner |
| FruitMover.MovingFruit.Animate | Fruits/BaseFruit.py:18-26 | the frame cursor takes one time-gated ping-pong tick; the position is untouched |
| FruitMover.MovingFruit.Move | Fruits/GridMovableMixin.py:18-20 | an intent is recorded only when idle and only for a known direction name |
| FruitMover.MovingFruit.Commit | Fruits/GridMovableMixin.py:22-35 | when idle with an intent whose shifted rectangle collides with no obstacle, the grid position and target move one tile and motion starts; an idle fruit's intent is cleared, a moving fruit's kept |
| FruitMover.MovingFruit.Glide | Fruits/GridMovableMixin.py:37-51 | while moving, one interpolation step and an animation tick; at rest, frame 0 |
| FruitMover.MovingFruit.Step | Fruits/GridMovableMixin.py:22-51 | a committed step starts gliding in the same call |
| FruitMover.MovingFruit.Wander | Fruits/Strawberry.py:13-16 | the random direction is taken only when idle, so a step in progress is never redirected |
| Pineapple.Decide | Fruits/Pineapple.py:141-170 | it walks to the next cell exactly when that cell is in the grid and not a wall, and flies two cells ahead exactly when a wall stands ahead with an in-grid empty cell behind it |
| Pineapple.TurnWhenStuck | Fruits/Pineapple.py:141-170 | the pineapple turns exactly when the grid ends ahead, or a wall stands ahead with no empty in-grid cell behind it |
| Pineapple.Pineapple.constructor | Fruits/Pineapple.py:11-61 | a collectable pineapple at (x, y) facing `initial`, idle in every phase, on frame 0 |
| Pineapple.Pineapple.Depart | Fruits/Pineapple.py:68-80 | `Departed`: not collectable, in place; a frame every 350 ms; after the third, the flight starts on its first frame |
| Pineapple.Pineapple.Fly | Fruits/Pineapple.py:83-101 | `Flown`: one pixel per axis towards the flight target, a frame every 75 ms; on arrival it stands on the target and landing begins on its first frame |
| Pineapple.Pineapple.Land | Fruits/Pineapple.py:104-115 | `Landed`: collectable again, in place; a frame every 350 ms; after the third, the landing ends on the still fruit frame |
| Pineapple.Pineapple.Walk | Fruits/Pineapple.py:118-138 | `Walked`: two pixels per axis towards the target tile, still walking exactly when not yet arrived, the ping-pong walk frame every 100 ms, frame 0 on arrival |
| Pineapple.Pineapple.Choose | Fruits/Pineapple.py:141-173 | `Chosen`: the decision taken at rest, as the whole new state: turn to `turn` in place, depart towards the cell beyond the wall, or begin walking to the next cell, each new phase on its first frame |
| Pineapple.Pineapple.Update | Fruits/Pineapple.py:64-170 | `UpdatedFrom`: the first running phase, in the order departing, flying, landing, walking, takes its tick (`Departed`, `Flown`, `Landed`, `Walked`), or else the pineapple decides (`Chosen`); the grid is only read |
| Pineapple.DepartsInThreeFrames | Fruits/Pineapple.py:68-80 | a departure from its first frame, ticked three times at least 350 ms apart, is flying after the third tick and not before, in place and not collectable |
| Pineapple.LandsInThreeFrames | Fruits/Pineapple.py:104-115 | a landing from its first frame, ticked three times at least 350 ms apart, ends after the third tick, collectable, in place and ready to decide |
| Player.Pressed | Player.py:137-144 | the arrow that counts is the first pressed of left, right, up, down, and none when no arrow is pressed |
| Player.Ray | Player.py:46-64 | the cell k steps away in a direction |
| Player.RayShift | Player.py:46-64 | stepping once and then k times is stepping k + 1 times |
| Player.IsRunIsRunFrom | Player.py:46-64 | every maximal run of cells holding a code, going outward from the player, is the recursive run |
| Player.RunFromIsRun | Player.py:46-64 | the recursive run is a maximal run: in the grid, holding the code, contiguous from the first cell ahead, and stopping at the edge or the first other code |
| Player.RunUnique | Player.py:46-64 | the maximal run is unique |
| Player.ScanRun | Player.py:46-64 | the scan loop returns the maximal run ahead |
| Player.NumpyCell | Player.py:70 | a numpy index in [-n, n) is taken modulo the dimension, and anything else raises `IndexError` |
| Player.ChangeObsLookupFails | Player.py:66-76 | on the 13 x 19 board, a player on the bottom row facing down makes the unchecked lookup raise `IndexError` |
| Player.ChangeObsLookupWraps | Player.py:66-76 | a player on the top row facing up makes the unchecked lookup read the bottom row |
| Player.Player.constructor | Player.py:9-44 | the player is centred on its tile, idle, facing down, with empty queues |
| Player.Player.CreateObs | Player.py:46-54 | the create queue becomes the run of empty cells ahead and the destroy queue is dropped |
| Player.Player.DestroyObs | Player.py:56-64 | the destroy queue becomes the run of wall cells ahead and the create queue is dropped |
| Player.Player.ChangeObs | Player.py:66-76 | with the facing cell bounds-checked: a wall ahead starts a destroy run, an empty cell a create run, anything else leaves the queues; the action animation starts in every case |
| Player.Player.ActionTick | Player.py:86-96 | every 200 ms (`anim_interval`) the action frame advances; after the last frame the player is idle again |
| Player.Player.Drain | Player.py:98-116 | one queued cell is handled, destroy queue first: its obstacle is removed and the cell emptied, or a box is added and the cell becomes a wall |
| Player.Player.Glide | Player.py:118-130 | the centre glides towards the target tile and the walk frame cycles |
| Player.Player.SpaceInput | Player.py:132-135 | a space press not held last frame runs `change_obs` on the grid as it was; the previous-frame flag ends equal to the key |
| Player.Player.TryMove | Player.py:145-154 | when the walking frame placed on the next tile collides the player stays; otherwise the old cell is emptied and the player heads for the next tile; either way its cell is marked 3 |
| Player.Player.Steer | Player.py:137-154 | the first pressed arrow turns the player; held in the direction already faced, it tries a move |
| Player.Player.ShowWalk | Player.py:155-156 | a player at rest shows the first walking frame of its direction |
| Player.Player.Input | Player.py:132-154 | the space key is handled, then the arrows |
| Player.Player.Update | Player.py:83-156 | exactly one of: the action animation, one queue step, the glide, or the key handling, in that order of precedence (`Updated`), with the grid recorded after it |
| Player.Player.Step | Player.py:83-156 | the phase that runs satisfies `Updated`, stated against the grid as it is after it |
| Player.RunOnRecord | Player.py:46-64 | a run read on a record with the same cells is a run on the grid itself |
| LevelMap.FruitSpawnsAppend | Level.py:99-110 | fruit counts add up over concatenated spawn lists |
| LevelMap.FruitCharSpawnsFruit | Level.py:99-110 | in either alphabet the fruit characters are exactly those that spawn a fruit |
| LevelMap.RowFruitsSpawned | Level.py:99-110 | a row's fruit-character count equals its fruit spawns |
| LevelMap.FruitCountMatchesSpawns | Level.py:99-110 | `fruits_to_collect` equals the number of fruits the map creates |
| LevelMap.SpawnOfAt | Level.py:76-110 | a spawn stands at the cell it was read from |
| LevelMap.RowSpawnsPlaced | Level.py:76-110 | every spawn of a row names a cell of that row whose character asks for it |
| LevelMap.MapSpawnsPlaced | Level.py:76-110 | every spawn of the map names a cell whose character asks for it |
| LevelMap.SpawnsOfAppend | Level.py:86-110 | a spawn appended to the map's spawns joins the end of the player, enemy or fruit spawns, whichever its kind is, and leaves the other two as they were |
| LevelMap.SpawnsOfIn | Level.py:86-110 | the player, enemy and fruit spawns are spawns of the map, each of its own kind |
| LevelMap.SpawnsOfPlaced | Level.py:76-110 | each player, enemy and fruit spawn names a cell whose character asks for a spawn of that kind |
| LevelMap.LoadRow | Level.py:77-112 | after one row, the row's cells hold their codes, its boxes are appended in order, and the fruits are counted |
| LevelMap.LoadCell | Level.py:78-112 | one character writes its code (or leaves the cell), adds its box, its spawn or its fruit count |
| LevelMap.Load | Level.py:73-112 | after the loop every cell holds the code its character asks for, the obstacles are the map's boxes in row-major order, the spawns are in map order and the fruit count is the number of fruit characters |
| LevelMap.TileCodeOfSpawn | Level.py:80-112 | a character spawns the player exactly when it writes code 3, an enemy exactly when it writes code 2, and a fruit exactly when it writes no code (`TileCode`) |
| Level.EnemiesAppend | Level.py:89-98 | a new enemy object can join a valid list of enemies |
| Level.FruitsAppend | Level.py:99-110 | a new fruit object can join a valid list of fruits |
| Level.UncollectedPicks | Level.py:52-57 | the collection keeps exactly the fruits not taken, in order (`Uncollected`) |
| Level.UncollectedCount | Level.py:52-57 | the number of fruits taken is the number by which the list shrinks (`Uncollected`) |
| Level.Level.constructor | Level.py:14-28 | a running, unwon level over the given agents, with the count of fruits to collect being the number of fruits |
| Level.Level.Update | Level.py:31-59 | the player's update (`Player.Updated`), then every enemy's in order towards the player's new centre (`EnemiesTicked`), then every fruit's move intent and its own update (`FruitsMoved`); the level stops when an enemy touches the player or no fruit was left to collect before this tick, and is won in the latter case; exactly the collectable fruits not taken remain, in order, and the count follows them |
| Level.Level.Settle | Level.py:46-57 | an enemy hit stops the level unwon; a zero count stops it won; the fruit list and count become those after collection |
| Level.NewLevel | Level.py:14-28 | a running, unwon level whose grid holds the map's codes, whose obstacles are the map's boxes then the borders, whose fruit count is the map's fruit count, and a menu bar on sixty seconds; `Spawned`: the player stands on the last 'P' (none without one), enemy k is what the k-th 'a'/'b' makes and fruit k what the k-th 'A'/'B'/'C' makes |
| Level.TickAgents | Level.py:33-57 | the player updates on the grid as it was (`Player.Updated`, recorded in `boards[0]`); enemy k then ticks on the grid the ones before it left, the patroller by its own draw and the chaser towards the player's new centre (`EnemiesTicked`); the fruits take their intents and updates (`FruitsMoved`); the kept fruits are the uncollected ones |
| Level.MovePlayerAndEnemies | Level.py:33-37 | the player's outcome is `Player.Updated` against the first grid record; every enemy's tick follows it, in order, towards the player's centre after its update |
| Level.MoveFruits | Level.py:38-57 | each fruit goes from its state through its move intent (`Intended`) to its own update (`FruitTicked`), and the kept fruits are the uncollected ones |
| Level.TickEnemies | Level.py:37 | enemy k goes from its old state to its new one by `Enemy1.Patrolled` (turning by draw k) or `Enemy2.Chased`, on the grid record before it, and the last record is the grid as it is |
| Level.TickEnemy | Level.py:37 | one enemy's tick: the patroller's `Patrolled` outcome by its own draw, the chaser's `Chased` outcome towards the player's centre, stated against the grid before and after |
| Level.FruitIntents | Level.py:38-41 | each strawberry at rest records direction k as its intent; a moving one and every other fruit keep their state |
| Level.TickFruits | Level.py:44 | each strawberry steps by `MovingFruit.StepFrom`, with its own draw taking only at rest, each pineapple runs `UpdatedFrom` with its draw, and an orange stays as it was |
| Level.IntendNth | Level.py:38-41 | fruit k takes its intent and every other fruit keeps its state |
| Level.TickFruitNth | Level.py:44 | fruit k takes its own update and every other fruit keeps its state |
| Level.TickNth | Level.py:37 | enemy k ticks on the grid the ones before it left; the other enemies keep their state and the record of earlier ticks is kept |
| Level.RecordTick | Level.py:37 | enemy k's tick is added to the record, and the earlier entries still hold |
| Level.TickPatroller | Enemies/Enemy1.py:36-73 | a patrol enemy's update from within the level, with the grid recorded after it |
| Level.TickChaser | Enemies/Enemy2.py:83-137 | a chasing enemy's update from within the level, its search on the grid recorded before it |
| Level.PrefixStep | Level.py:37 | after one more tick, the states before it and after it are the prefixes one longer, and the rest are untouched |
| Level.Collect | Level.py:52-57 | the kept fruits are exactly the uncollected fruits, in order |
| Level.FruitsValidUncollected | Level.py:52-57 | what the collection leaves is still a valid fruit list |
| Level.LoadMap | Level.py:73-112 | a fresh grid holds the map's codes, the obstacles are its boxes, the spawns are in map order and each stands on its character, and the fruit count is the number of fruit spawns |
| Level.CreateBorders | Level.py:114-117 | the four border strips are appended to the obstacles |
| Level.Populate | Level.py:76-110 | the grid keeps the map's codes, every created agent is valid, and `Spawned`: the player of the last player spawn on its tile, or none; by index, enemy k of the class its spawn's type chooses on its tile, fruit k of the kind its spawn's name chooses at its tile's top-left pixel, a pineapple on the level's grid |
| Level.PackagePlaced | Level.py:76-110 | a placed spawn of a fitting map has what its creation needs |
| Level.SpawnOne | Level.py:86-110 | one spawn's object joins the level's valid agents and extends `Spawned` by that spawn: a player spawn sets the player on its tile, an enemy or fruit spawn appends what it makes |
| Level.AddEnemy | Level.py:89-98 | the enemy the spawn makes joins the end of the enemies, valid on the grid, and `Spawned` grows by the spawn |
| Level.AddFruit | Level.py:99-110 | the fruit the spawn makes joins the end of the fruits, and `Spawned` grows by the spawn |
| Level.SpawnEnemy | Level.py:89-98 | `EnemyOf`: type 1 makes a patrol enemy and type 2 a chaser, standing on tile `at`, which the map reserved; the grid is unchanged |
| Level.SpawnFruit | Level.py:99-110 | `FruitOf`: 'orange' makes an orange, 'strawberry' a strawberry and 'pineapple' a pineapple, at the top-left pixel of tile `at`; only the pineapple is given the grid, and it faces the direction drawn for it |
| MenuBar.MenuBar.constructor | Menu_bar.py:4-6 | the bar's level is set and sixty seconds are left |
| MenuBar.MenuBar.UpdateTimer | Menu_bar.py:8-10 | the time left is replaced and nothing else changes |
| MenuBar.MenuBar.LevelText | Menu_bar.py:17 | the label is "LEVEL " followed by the level number |
| MenuBar.MenuBar.TimeText | Menu_bar.py:22-24 | the clock is five characters below 100 minutes and reads back as the seconds left |
| Text.DigitChar | ScoreBoard.py:25 | a digit value gives a decimal digit character |
| Text.NatToString | Menu_bar.py:17 | `str(n)` is non-empty digits with no leading zero, except for 0 |
| Text.IntToString | Menu_bar.py:17 | `str(i)` is non-empty and starts with '-' exactly when i is negative |
| Text.ParseNatToString | ScoreBoard.py:25 | `int(str(n)) == n` (`ParseNat`) |
| Text.ParseNatLeadingZero | ScoreBoard.py:25 | leading zeros do not change the value `int()` reads |
| Text.Pad2 | Menu_bar.py:22-24 | at least two digits, exactly two below 100, and they read back as the number |
| Text.Format02 | Menu_bar.py:22-24 | `:02` zero-pads a non-negative number, and writes a negative one as `str()` does, sign first |
| Text.MinSecReadsBack | Menu_bar.py:22-24 | below 100 minutes `MM:SS` has five characters and reads back as the seconds (`MinSec`) |
| Text.MinSecSign | ScoreBoard.py:34-41 | the time string starts with '-' exactly when the time is negative (`MinSec`) |
| Text.Lead | ScoreBoard.py:23 | the leading whitespace count: that many characters are whitespace, and the next is not |
| Text.Trail | ScoreBoard.py:23 | the trailing whitespace count: that many characters are whitespace, and the one before is not |
| Text.Strip | ScoreBoard.py:23 | `strip()` is the middle of the string, empty or without whitespace at either end |
| Text.Lower | Fruits/FruitFactory.py:12 | `lower()` keeps the length and lower-cases each ASCII letter |
| Text.LowerIdempotent | Fruits/FruitFactory.py:12 | lower-casing twice is lower-casing once |
| Text.Split | ScoreBoard.py:23 | `split()` gives one more piece than the separator's occurrences, and no piece contains the separator |
| Text.JoinAppendEmpty | ScoreBoard.py:23 | appending an empty piece appends one separator to the joined string |
| Text.JoinExtendLast | ScoreBoard.py:23 | extending the last piece extends the joined string |
| Text.SplitJoin | ScoreBoard.py:23 | joining the pieces of `split()` gives the string back |
| Text.SplitNone | ScoreBoard.py:22 | a string without the separator splits into itself alone |
| Text.SplitAfterSep | ScoreBoard.py:23 | a separator followed by a separator-free tail adds that tail as the last piece |
| Text.CountConcat | ScoreBoard.py:22-23 | occurrence counts add up over concatenation |
| Text.CountPositive | ScoreBoard.py:22 | a character occurs exactly when its count is positive |
| Text.StripCount | ScoreBoard.py:22-23 | `strip()` keeps the count of every non-whitespace character |
| Text.StripClean | ScoreBoard.py:24-25 | a string with clean ends is its own `strip()` |
| Text.IntToStringReadsBack | Menu_bar.py:17 | the digits of `str(i)` after the sign read back as the magnitude |
| Text.LeadingDigitPositive | ScoreBoard.py:25 | digits whose first is not '0' read as at least one |
| Text.CanonicalDigits | ScoreBoard.py:25 | digits with no leading zero are what `str()` writes for the number they read as (`ParseNat`, `IsDigits`) |
| Text.AsciiWhitespace | ScoreBoard.py:23 | below code point 128, `IsSpace` holds exactly for tab, newline, vertical tab, form feed, carriage return, the four separators 0x1c-0x1f and space |
| ScoreBoard.Reads | ScoreBoard.py:21-25 | one contribution per line, in file order |
| ScoreBoard.LoadBestTimes | ScoreBoard.py:17-28 | a missing file gives the empty dictionary; otherwise the result is the dictionary the lines build, or the first line's error |
| ScoreBoard.FailureSticks | ScoreBoard.py:21-25 | once a line raises, the whole load raises that error |
| ScoreBoard.ReadLineFails | ScoreBoard.py:22-23 | a line raises exactly when it has more than one comma (`ReadLine`) |
| ScoreBoard.ReadLineStores | ScoreBoard.py:22-25 | a line stores `level -> seconds` exactly when, stripped, it is level digits, one comma and seconds digits, modulo whitespace (`ReadLine`) |
| ScoreBoard.StoresFields | ScoreBoard.py:22-25 | the two pieces a storing line splits into are its level digits and its seconds |
| ScoreBoard.FieldsStore | ScoreBoard.py:22-25 | a line whose stripped form is level digits, one comma and seconds digits stores that entry |
| ScoreBoard.StripNewline | ScoreBoard.py:23 | stripping a clean line plus its newline gives the line |
| ScoreBoard.ReadLineRoundTrip | ScoreBoard.py:22-25 | the line `"<level>,<seconds>\n"` reads back as that entry |
| ScoreBoard.CollectFails | ScoreBoard.py:21-25 | collecting fails exactly when some contribution is an error (`Collect`) |
| ScoreBoard.BestTimesFails | ScoreBoard.py:21-25 | a load fails exactly when some line has more than one comma (`BestTimes`) |
| ScoreBoard.CollectHas | ScoreBoard.py:24-25 | a collected level is one that some contribution stores |
| ScoreBoard.CollectLast | ScoreBoard.py:24-25 | a collected level holds the last stored time |
| ScoreBoard.BestTimesHas | ScoreBoard.py:17-25 | after a load, a level has an entry exactly when some line stores it (`BestTimes`) |
| ScoreBoard.BestTimesLast | ScoreBoard.py:17-25 | a level's time comes from the last line that stores that level (`BestTimes`) |
| ScoreBoard.TimeString | ScoreBoard.py:34-41 | a stored time is shown as `MM:...` with two leading digits, and a missing one as "None" |
| ScoreBoard.TimeStringReadsBack | ScoreBoard.py:34-41 | below 100 minutes the shown time reads back as the stored seconds |
| ScoreBoard.TimeStringNone | ScoreBoard.py:34-41 | a stored time is never shown as "None" |
| ScoreBoard.EntryText | ScoreBoard.py:50 | the entry text is "Level ", the number, ": " and the time string |
| ScoreBoard.EntryParts | ScoreBoard.py:50 | the pieces of the entry text are found at their places |
| ScoreBoard.EntryPosition | ScoreBoard.py:44-48 | levels 1-6 go down the first column, 7-12 down a second column 300 pixels to the right, in rows 40 pixels apart |
| ScoreBoard.EntryPositionsDistinct | ScoreBoard.py:44-48 | the twelve slots are distinct, and slots in one column are at least 40 pixels apart |
| States.Lookup | States.py:78 | the map is found exactly when an entry has that name, and under distinct names it is that entry's map |
| States.ParseInt | States.py:52 | `int()` succeeds exactly on text that, stripped, is decimal digits with at most one sign in front, and otherwise raises `ValueError`; plain digits give the number they spell |
| States.ParseIntToString | States.py:52 | `int(str(i)) == i` |
| States.LevelNumber | States.py:52 | a name without '_' raises `IndexError`; otherwise the number is `int` of the piece after the first '_' |
| States.LevelKey | States.py:77 | the key starts with "LEVEL_" followed by `str(n)`, or with "None" when no level was chosen |
| States.LevelNumberOfKey | States.py:52 | the number of a level's key parses back from its name |
| States.NumberedLevelsCanonical | States.py:50-52 | the names `LEVEL_1`, `LEVEL_2`, ... are canonical |
| States.FirstHit | States.py:50-56 | the first entry, in dictionary order, whose button was hit, or past the end if none |
| States.Game.constructor | Game.py:16-18 | the main menu, with no level chosen and none built |
| States.Game.Build | States.py:54 | the level is built from the map under the number given |
| States.Game.MainMenuInput | States.py:23-28 | start opens level select; otherwise scores opens the board; nothing else changes |
| States.Game.LevelSelectInput | States.py:45-56 | the menu button returns to the main menu; then the first hit level's name is parsed, and on success it is chosen, built and played; a name that does not parse raises that error |
| States.Game.RestartLevel | States.py:76-80 | the level under `LEVEL_<current>` is rebuilt and played, and a missing key raises `KeyError` |
| States.Game.PlayInput | States.py:74-83 | restart rebuilds the level; otherwise the menu button stops the music and returns to the main menu |
| States.Game.PlayUpdate | States.py:85-91 | once the level stops, it moves to won or to lost |
| States.Game.WinInput | States.py:106-121 | next plays `LEVEL_<n+1>` when present, and otherwise stops the music and returns to the menu; the menu button does the same |
| States.Game.LostInput | States.py:142-151 | restart rebuilds the level; the menu button stops the music and returns to the main menu |
| States.Game.ScoresInput | States.py:167-170 | the menu button returns to the main menu |
| States.Game.HandleInput | Game.py:36-39 | the handler of the screen that was current runs, with that handler's whole effect (`MainMenuHandled`, `LevelSelectHandled`, `PlayHandled`, `WinHandled`, `LostHandled`, `ScoresHandled`); any other event changes nothing |
| States.Game.Update | Game.py:41 | only the play screen reacts to the level's flags |
| DraftEnemy.Slide | Enemy.py:27-45 | the slide moves exactly `speed` pixels along the direction's axis |
| DraftEnemy.NearestTile | Enemy.py:79-82 | the start tile is the one whose top-left corner is within half a tile of the pixel |
| DraftEnemy.NearestTileOfTopLeft | Enemy.py:79-82 | at a tile's own corner the start tile is that tile |
| DraftEnemy.NearestTileVsFloor | Enemy.py:79-82 | on each axis the rounding start tile is the floor tile when the pixel lies in the first half of its tile and the next tile when it lies in the second half |
| DraftEnemy.DeltaDirection | Enemy.py:172-181 | a unit delta gives the direction whose vector it is, and a zero delta keeps the facing |
| DraftEnemy.PathInGrid | Enemy.py:99-122 | every cell of a search path from an in-grid start is in the grid, and its first two cells are adjacent |
| DraftEnemy.Enemy.constructor | Enemy.py:12-24 | the enemy stands at (x, y) facing down, with speed 1 |
| DraftEnemy.Enemy.Move | Enemy.py:27-55 | a direction name turns and slides the enemy, and it steps back when it then overlaps an obstacle; it never ends a move on a new overlapping position; any other name changes nothing |
| DraftEnemy.Enemy1.constructor | Enemy.py:63-91 | the start tile rounds the pixel; the enemy is centred on it, with no path, idle, facing down, and the grid is untouched |
| DraftEnemy.Enemy1.Glide | Enemy.py:126-140 | one interpolation step; on arrival the enemy stands on the cell it reserved |
| DraftEnemy.Enemy1.Commit | Enemy.py:163-185 | the old cell becomes empty and the next reserved, and the enemy heads for the next cell's centre facing the step |
| DraftEnemy.Enemy1.Decide | Enemy.py:142-185 | the tick is counted; the path is searched over free cells every tenth tick or when empty; a second cell that is free or the player's tile is reserved and entered |
| DraftEnemy.Enemy1.Update | Enemy.py:124-185 | glide while moving; otherwise count the tick, search over free cells to the player's tile when the count is a multiple of ten or there is no path, and reserve a second cell that is free or the player's tile |
| DraftEnemy.Enemy1.CountTick | Enemy.py:143 | the tick counter goes up by one and nothing else changes |
| DraftEnemy.FollowedIgnoresPlayer | Enemy.py:124-161 | an update that does not read the player (`ReadsPlayer`: a glide, or a one-cell path between searches) has the same outcome whatever the player's centre |
| DraftFruits.DraftPineapple.constructor | fruits.py:118-127 | a draft pineapple with three frames at 200 ms and speed 2, facing `initial` |
| DraftFruits.DraftPineapple.Fly | fruits.py:158-173 | with no target the flight ends; otherwise one pixel per axis towards the target, and on arrival the flight ends and the target is cleared |
| DraftFruits.DraftPineapple.Move | fruits.py:129-156 | a flight in progress only advances; otherwise turn, fly over a wall, or hand the step to the mixin as an intent |
| DraftFruits.CreateEarly | Fruits.py:98-112 | the three-frame strawberry or the orange, and any other name is a `ValueError` |
| DraftFruits.CreateLate | fruits.py:100-115 | strawberry, orange or pineapple (given the grid), and any other name is a `ValueError` |
| DraftFruits.EarlyDraftHasNoPineapple | Fruits.py:98-112 | the earlier draft rejects "pineapple" in any spelling |
| DraftLevel.BordersKept | Main.py:263-267 | a group that keeps the off-grid obstacles keeps the borders' hold on the player |
| DraftLevel.RemovalKeepsOffGrid | Main.py:122-141 | removing the first obstacle on an in-grid tile keeps every off-grid obstacle |
| DraftLevel.DraftPlayer.constructor | Main.py:39-71 | the player is centred on its tile, idle, facing down, with empty queues |
| DraftLevel.DraftPlayer.CreateObs | Main.py:73-87 | both queues restart, and the create queue is the run of empty cells ahead |
| DraftLevel.DraftPlayer.DestroyObs | Main.py:89-100 | the destroy queue is the run of box cells ahead, and the rest is kept |
| DraftLevel.DraftPlayer.ChangeObs | Main.py:102-110 | with the facing cell bounds-checked: a box ahead starts a destroy run, an empty cell a create run, and anything else changes nothing |
| DraftLevel.DraftPlayer.DrainIfDue | Main.py:122-141 | when due, the first destroy cell is cleared if an obstacle stands on it, otherwise the first create cell gets a box |
| DraftLevel.DraftPlayer.Glide | Main.py:144-159 | the centre moves towards the target and the walk frame cycles modulo three |
| DraftLevel.DraftPlayer.SpaceInput | Main.py:162-168 | a fresh space press runs `change_obs`, and the flag ends equal to the key |
| DraftLevel.DraftPlayer.Steer | Main.py:170-194 | the first pressed arrow turns the player and steps one tile unless the frame collides; the cell is then marked 3 |
| DraftLevel.DraftPlayer.ShowStanding | Main.py:197-200 | a player at rest shows walking frame 0 |
| DraftLevel.DraftPlayer.Act | Main.py:144-200 | `Acted`: while moving, the glide with the grid and queues untouched; otherwise the space key decided on the grid after the queue step, the first pressed arrow of left, right, up, down, and the standing frame |
| DraftLevel.DraftPlayer.Update | Main.py:118-200 | one queue step when due (`Drained`, recorded in `mid` and `q`), then in the same frame the glide or the key handling from those records (`Acted`) |
| DraftLevel.DraftPlayer.Handle | Main.py:161-200 | an idle player's key handling: the space key on the grid after the queue step, then the arrows and the standing frame (`Handled`) |
| DraftLevel.DraftPlayer.Space | Main.py:161-168 | the space key's part (`SpaceHandled`): a wall ahead starts a destroy run, an empty cell a create run, otherwise the queues stay; only the flag changes in the pose |
| DraftLevel.DraftPlayer.SteerAndStand | Main.py:170-200 | the arrows and the standing frame (`Steered`), with the queues, the space flag, the centre and the animation clock kept |
| DraftLevel.DraftPlayer.SteeredIgnoresSpace | Main.py:170-200 | the arrow handling does not depend on the space flag the frame started with |
| DraftLevel.UntouchedPicks | Main.py:227-229 | the touched fruits are removed and the untouched ones kept, in order (`Untouched`, `Hit`) |
| DraftLevel.PickTake | Main.py:227-229 | an untouched fruit is kept after the ones before it |
| DraftLevel.Level.constructor | Main.py:206-217 | a running level over the given agents |
| DraftLevel.Level.Update | Main.py:221-229 | without a player it fails with `AttributeError` and changes nothing; otherwise the agents tick (`AgentsTicked`); a failure leaves the flag and fruits as they were; on success an enemy hit stops the level and exactly the untouched fruits remain, in order |
| DraftLevel.TickAgents | Main.py:221-224 | the player's update (`Drained` then `Acted`), then the first n enemies' updates in order, each towards the centre of the player it holds (`EnemiesFollowed`); it fails exactly when an enemy holding no player reads it, and that enemy is the n-th, which only counted its tick (`Stalled`) |
| DraftLevel.NewLevel | Main.py:206-261 | a running level whose grid holds the draft map's codes, whose obstacles are the map's boxes then the borders, with one fruit per 'A' and a player exactly when the map has a 'P'; the player stands on the last 'P', enemy k on the k-th 'O' and fruit k at the top-left pixel of the k-th 'A'; an enemy holds no player exactly when no 'P' precedes its 'O', holds the level's player exactly when every 'P' precedes it, and otherwise the player standing on the last 'P' before it |
| DraftLevel.Populate | Main.py:239-261 | `Built`: every created agent is valid; `SpawnedAt`: player j stands on the j-th 'P', enemy k on the k-th 'O', fruit k is the top-left pixel of the k-th 'A'; the level's player is the last one created, and each enemy holds the player created last before it, or none |
| DraftLevel.TickEnemies | Main.py:224 | enemy k's update goes from its old state to its new one by `Enemy1.Followed` towards its player's centre, on the grid the ones before it left; an enemy holding no player that reads it stops the loop with `AttributeError` |
| DraftLevel.Stall | Enemy.py:142-157 | the enemy whose read of the player raises has counted its tick, and nothing else changed |
| DraftLevel.FollowNth | Main.py:224 | enemy k updates and every other enemy keeps its state |
| DraftLevel.RecordFollow | Main.py:224 | enemy k's update is added to the record, and the earlier entries still hold |
| DraftLevel.Follow | Enemy.py:124-185 | one enemy's update satisfies `Followed` against the grid before and after |
| DraftLevel.FollowMoving | Enemy.py:126-140 | a moving enemy's update satisfies `Followed`: the glide, with the grid unchanged |
| DraftLevel.FollowIdle | Enemy.py:142-185 | an idle enemy's update satisfies `Followed`: the search on the grid before it and the commitment to its next cell |
| DraftLevel.Targets | Main.py:253 | each enemy is aimed at the centre of the player it holds, or at nothing |
| DraftLevel.NoPlayerSpawns | Main.py:249-250 | no player is spawned exactly when the map has no 'P' |
| DraftLevel.SpawnsStep | Main.py:240-261 | one more spawn adds one to the player count for a 'P', and one entry, the current player count, to the enemies' list for an 'O' |
| DraftLevel.HoldsLevelPlayer | Main.py:249-253 | an enemy holds no player exactly when no player came before it, and holds the level's player exactly when every player came before it |
| DraftLevel.DistinctAppend | Main.py:250 | a freshly created player keeps the list of created players distinct |
| DraftLevel.ChasingStep | Main.py:249-256 | a new 'P' leaves every enemy's player in place; a new 'O' holds the player created last |
| DraftLevel.SpawnOne | Main.py:244-261 | one spawn's object extends what `load_map` has built, keeping `Built`, positions (`SpawnedAt`) included |
| DraftLevel.PlayerAt | Main.py:249-251 | a fresh player on its tile, idle |
| DraftLevel.EnemyAt | Main.py:252-256 | a fresh draft enemy on its tile of the shared grid, idle, with no path |
| DraftLevel.LoadMap | Main.py:239-261 | a fresh grid with the draft map's codes, the map's boxes in order, the spawns in map order, all in the grid, and the fruit count equal to the fruit spawns |

## Left out

- Drawing, images, fonts, particles and `Images.py` are not part of this model. Neither is the `Game.run` loop with its clock and event polling. Only the handlers it calls are modelled.
- Music: `stop_music()` is recorded as the `stopsMusic` flag of the handler's outcome, and `start_music` is not part of this model.
- `Obstacles.py` (animated obstacle growth) and the sprite group's `update` are not part of this model. An obstacle is its top-left pixel.
- Rectangle collision tests, `collidepoint` on the screens' buttons and the pressed-key table are parameters, not computed. The border strips are assumed to stop the player at the edge of the grid (`Player.Player.BordersBlock`, `DraftLevel.BordersHold`).
- Randomness (`random.choice`) is a parameter. The clock `now` is one value shared by every agent within a frame.
- `Text`: `str.isdigit` and `int()` are modelled for the ASCII digits only; Python also accepts other Unicode decimal digits, and `int()` accepts `_` between digits. `lower()` lower-cases the ASCII letters only. Whitespace follows Python's full `str.isspace` set.
- `States`: a level on screen is held as a record of its map and number, since `Level` itself is modelled in `Level.Level`. `PlayUpdate` takes the level's `running` and `won` flags after `Level.Level.Update`.
- `ScoreBoard`: the file is given as its lines, or `None` when it does not exist. The construction of `ScoreBoard` inside `Scores_State` is not wired into the screens, and `draw` is modelled only through the entry text and positions.
- Level.Level.Update: requires the level to have a player, whose borders block it at the edge of the grid. A package map without a player character would make the source raise `AttributeError` on `self.player.update`; that failure is modelled for the draft level (`DraftLevel.Level.Update`) but not here.
- The unused `anim_dir` field of the fruit classes is not modelled, and neither is the orange's image.
- `print("a")` for each collected fruit in the draft level (Main.py:229) writes to the console only and is not part of this model.
- Level.py:3 imports `Pineapple` from `Fruits` and Level.py:10 imports `EnemyFactory` from `Enemy`, names those modules as they stand do not define. The model resolves them to the `Fruits` and `Enemies` packages whose factories `load_map` calls.
- PathFinder.Bfs: states a shortest path but not which one among paths of equal length; the up, down, left, right expansion order is stated in `PathFinder.Expand`.
- DraftLevel.TickEnemies: an enemy holding no player is aimed at the pixel origin (`Aim`), which its update does not read (`DraftEnemy.FollowedIgnoresPlayer`); one that would read it raises instead.
- Mouse positions are not modelled: a press is the set of buttons whose rectangles contain it.
- Level.NewLevel: requires the map to fit the 13-row, 19-column grid (`Fits`); for a larger map the source raises `IndexError` when a character other than a fruit lies beyond the grid, and that failure is not modelled.
- Level.LoadMap: requires `Fits`, as `Level.NewLevel`; the `IndexError` for a wall, player, enemy or floor character beyond row 13 or column 19 is not modelled.
- Level.Populate: requires `Fits`, as `Level.NewLevel`; the `IndexError` a player or enemy character beyond the grid would raise is not modelled.
- DraftLevel.NewLevel: requires `Fits`; the `IndexError` the draft raises for a character beyond row 13 or column 19 that writes a grid cell is not modelled.
- DraftLevel.LoadMap: requires `Fits`, as `DraftLevel.NewLevel`; the `IndexError` for an oversized map is not modelled.
- Level.NewLevel and DraftLevel.NewLevel: for a map without 'P' the model builds a level with no player; what `all_sprites.add(None)` (Level.py:24, Main.py:214) does with `None` is pygame's behaviour and is not part of this model.
- Level.NewLevel and DraftLevel.NewLevel create the agents after the menu bar and the borders, not before. Those steps touch neither the grid nor any agent, so the level built is the same.

## Findings

| source | as written | input that shows it | evidently intended | confidence | as-written member | corrected member |
|---|---|---|---|---|---|---|
| Player.py:66-76 | `change_obs` looks up `grid[ny][nx]` for the facing cell with no bounds check | a player on row 12 facing down: row 13 of the 13-row grid raises `IndexError`; on row 0 facing up, row -1 wraps to the bottom row | a cell beyond the edge starts no run, as the bounds-checked scans in `create_obs`/`destroy_obs` already treat it | not executed | Player.ChangeObsLookupFails | Player.Player.ChangeObs |
| Main.py:102-110 | the draft's `change_obs` has the same unchecked `grid[ny][nx]` lookup | a player on the bottom row facing down raises `IndexError` for the 13-row grid | the facing cell is checked against the grid before it is read | not executed | Player.ChangeObsLookupFails | DraftLevel.DraftPlayer.ChangeObs |
