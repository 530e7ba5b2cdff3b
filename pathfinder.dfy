/**
 * Breadth-first search over the occupancy grid, as `Enemy2.bfs` and the
 * draft `Enemy1.bfs` run it: a FIFO queue, a visited set marked before
 * enqueueing, a `came_from` dictionary for path reconstruction, neighbours
 * explored up, down, left, right, and the goal cell always passable.
 */
module PathFinder {
  import opened Settings
  import opened Wrappers

  /** Which cells the search may enter besides the goal. */
  datatype Rule =
    | NotWall    // any in-bounds cell whose code is not 1 (Enemy2)
    | FreeOnly   // only in-bounds cells whose code is 0 (draft Enemy1)

  /** Neighbour order of the search: (-1,0), (1,0), (0,-1), (0,1). */
  const Order: seq<Direction> := [Up, Down, Left, Right]

  /** The search may enter `p`. */
  predicate Passable(grid: array2<int>, rule: Rule, goal: Pos, p: Pos)
    reads grid
  {
    InGrid(grid, p) &&
    (p == goal ||
     match rule
     case NotWall => grid[p.0, p.1] != Wall
     case FreeOnly => grid[p.0, p.1] == Empty)
  }

  /** One move of the search: to a 4-adjacent passable cell. */
  predicate Step(grid: array2<int>, rule: Rule, goal: Pos, a: Pos, b: Pos)
    reads grid
  {
    Adjacent(a, b) && Passable(grid, rule, goal, b)
  }

  /** Every consecutive pair of `w` is a step. */
  predicate Chain(grid: array2<int>, rule: Rule, goal: Pos, w: seq<Pos>)
    reads grid
    decreases |w|
  {
    |w| <= 1 || (Step(grid, rule, goal, w[0], w[1]) && Chain(grid, rule, goal, w[1..]))
  }

  /** `w` starts at `start` and moves one step at a time. */
  predicate IsWalk(grid: array2<int>, rule: Rule, goal: Pos, start: Pos, w: seq<Pos>)
    reads grid
  {
    |w| >= 1 && w[0] == start && Chain(grid, rule, goal, w)
  }

  /** A walk from `start` that ends at `goal`. */
  predicate IsPath(grid: array2<int>, rule: Rule, start: Pos, goal: Pos, w: seq<Pos>)
    reads grid
  {
    IsWalk(grid, rule, goal, start, w) && w[|w| - 1] == goal
  }

  /** A shortest path: no path from `start` to `goal` has fewer cells. */
  ghost predicate IsShortestPath(grid: array2<int>, rule: Rule, start: Pos, goal: Pos, w: seq<Pos>)
    reads grid
  {
    IsPath(grid, rule, start, goal, w) &&
    forall v :: IsPath(grid, rule, start, goal, v) ==> |w| <= |v|
  }

  ghost predicate Reachable(grid: array2<int>, rule: Rule, start: Pos, goal: Pos)
    reads grid
  {
    exists w :: IsPath(grid, rule, start, goal, w)
  }

  /** A cell the draft enemy may step on is one the chaser may step on: a free cell is not a wall. */
  lemma FreeIsNotWall(grid: array2<int>, goal: Pos, p: Pos)
    ensures Passable(grid, FreeOnly, goal, p) ==> Passable(grid, NotWall, goal, p)
  {
  }

  /** Every path of the draft enemy is one of the chaser's. */
  lemma {:induction false} FreeChainIsNotWall(grid: array2<int>, goal: Pos, w: seq<Pos>)
    requires Chain(grid, FreeOnly, goal, w)
    ensures Chain(grid, NotWall, goal, w)
    decreases |w|
  {
    if |w| > 1 {
      FreeIsNotWall(grid, goal, w[1]);
      FreeChainIsNotWall(grid, goal, w[1..]);
    }
  }

  /** A goal the draft enemy can reach the chaser can reach too. */
  lemma FreeReachIsNotWall(grid: array2<int>, start: Pos, goal: Pos)
    requires Reachable(grid, FreeOnly, start, goal)
    ensures Reachable(grid, NotWall, start, goal)
  {
    var w :| IsPath(grid, FreeOnly, start, goal, w);
    FreeChainIsNotWall(grid, goal, w);
    assert IsPath(grid, NotWall, start, goal, w);
  }

  /** Each consecutive pair of a chain is a step. */
  lemma {:induction false} ChainStep(grid: array2<int>, rule: Rule, goal: Pos, w: seq<Pos>, i: int)
    requires Chain(grid, rule, goal, w) && 0 <= i < |w| - 1
    ensures Step(grid, rule, goal, w[i], w[i + 1])
    decreases i
  {
    if i > 0 {
      ChainStep(grid, rule, goal, w[1..], i - 1);
      assert w[1..][i - 1] == w[i] && w[1..][i] == w[i + 1];
    }
  }

  /** A prefix of a chain is a chain. */
  lemma {:induction false} ChainPrefix(grid: array2<int>, rule: Rule, goal: Pos, w: seq<Pos>, n: int)
    requires Chain(grid, rule, goal, w) && 0 <= n <= |w|
    ensures Chain(grid, rule, goal, w[..n])
    decreases n
  {
    if n > 1 {
      ChainPrefix(grid, rule, goal, w[1..], n - 1);
      assert w[..n][1..] == w[1..][..n - 1];
    }
  }

  // ---------------------------------------------------------------------
  // The search state and its invariant.

  /**
   * The `came_from` tree: defined on exactly the visited cells, rooted at
   * `start`, every other cell one step from its parent and one layer deeper
   * (`dist` is the ghost BFS depth of each visited cell).
   */
  ghost predicate Tree(grid: array2<int>, rule: Rule, start: Pos, goal: Pos,
                       visited: set<Pos>, cameFrom: map<Pos, Option<Pos>>, dist: map<Pos, nat>)
    reads grid
  {
    && start in visited && visited == cameFrom.Keys && visited == dist.Keys
    && cameFrom[start] == None && dist[start] == 0
    && (forall v :: v in visited && v != start ==> ParentOk(grid, rule, goal, visited, cameFrom, dist, v))
  }

  /** `came_from[v]` is a visited cell one layer shallower, from which `v` is one step. */
  ghost predicate ParentOk(grid: array2<int>, rule: Rule, goal: Pos, visited: set<Pos>,
                           cameFrom: map<Pos, Option<Pos>>, dist: map<Pos, nat>, v: Pos)
    reads grid
    requires v in cameFrom && v in dist
  {
    cameFrom[v].Some? && cameFrom[v].value in visited && cameFrom[v].value in dist &&
    dist[v] == dist[cameFrom[v].value] + 1 && Step(grid, rule, goal, cameFrom[v].value, v)
  }

  /** The neighbour of `p` in direction `d`, if passable, is visited and at most one layer deeper. */
  ghost predicate NeighbourSeen(grid: array2<int>, rule: Rule, goal: Pos, visited: set<Pos>,
                                dist: map<Pos, nat>, p: Pos, d: Direction)
    reads grid
  {
    Passable(grid, rule, goal, Shift(p, d)) ==>
      Shift(p, d) in visited && Shift(p, d) in dist && p in dist && dist[Shift(p, d)] <= dist[p] + 1
  }

  /**
   * The invariant of the search loop. `done` is the ghost set of cells
   * already taken off the queue and expanded.
   */
  ghost predicate SearchInv(grid: array2<int>, rule: Rule, start: Pos, goal: Pos,
                            queue: seq<Pos>, visited: set<Pos>, cameFrom: map<Pos, Option<Pos>>,
                            dist: map<Pos, nat>, done: set<Pos>)
    reads grid
  {
    && Tree(grid, rule, start, goal, visited, cameFrom, dist)
    // the queue holds exactly the visited cells not yet expanded
    && (forall i :: 0 <= i < |queue| ==> queue[i] in visited)
    && done <= visited && goal !in done
    && (forall v :: v in visited && v !in done ==> v in queue)
    // queue depths are sorted and span at most two consecutive layers
    && (forall i, j :: 0 <= i <= j < |queue| ==> dist[queue[i]] <= dist[queue[j]])
    && (forall i :: 0 <= i < |queue| ==> dist[queue[i]] <= dist[queue[0]] + 1)
    // expanded cells are no deeper than the queue front ...
    && (forall p :: p in done && |queue| > 0 ==> dist[p] <= dist[queue[0]])
    // ... and have all their passable neighbours visited
    && (forall p, d :: p in done ==> NeighbourSeen(grid, rule, goal, visited, dist, p, d))
  }

  /** The in-bounds cells of the grid. */
  ghost function Cells(grid: array2<int>): set<Pos>
  {
    set r, c | 0 <= r < grid.Length0 && 0 <= c < grid.Length1 :: (r, c)
  }

  // ---------------------------------------------------------------------
  // The search.

  /**
   * `bfs(start, goal)`: `[]` exactly when the goal is unreachable, otherwise
   * a shortest path from `start` to `goal`, both ends included.
   */
  method Bfs(grid: array2<int>, rule: Rule, start: Pos, goal: Pos) returns (path: seq<Pos>)
    ensures path == [] <==> !Reachable(grid, rule, start, goal)
    ensures path != [] ==> IsShortestPath(grid, rule, start, goal, path)
  {
    var queue := [start];
    var cameFrom: map<Pos, Option<Pos>> := map[start := None];
    var visited := {start};
    ghost var dist: map<Pos, nat> := map[start := 0];
    ghost var done: set<Pos> := {};
    ghost var box := Cells(grid) + {start};
    InitialInv(grid, rule, start, goal);
    while queue != []
      invariant SearchInv(grid, rule, start, goal, queue, visited, cameFrom, dist, done)
      invariant visited <= box
      decreases |box - visited|, |queue|
    {
      ghost var queue0, visited0, cameFrom0, dist0 := queue, visited, cameFrom, dist;
      var cur := queue[0];
      queue := queue[1..];
      if cur == goal {
        path := Found(grid, rule, start, goal, queue0, visited, cameFrom, dist, done);
        return;
      }
      ghost var added;
      queue, visited, cameFrom, dist, added := Expand(grid, rule, goal, cur, queue, visited, cameFrom, dist);
      ExpandKeeps(grid, rule, start, goal, queue0, visited0, cameFrom0, dist0, done,
                  added, visited, cameFrom, dist);
      Progress(grid, rule, goal, cur, box, visited0, cameFrom0, dist0, added, visited, cameFrom, dist);
      done := done + {cur};
    }
    NoPathWhenExhausted(grid, rule, start, goal, visited, cameFrom, dist, done);
    path := [];
  }

  /** The goal is at the queue front: rebuild its path, which is a shortest one. */
  method Found(grid: array2<int>, rule: Rule, start: Pos, goal: Pos,
               ghost queue: seq<Pos>, visited: set<Pos>, cameFrom: map<Pos, Option<Pos>>,
               ghost dist: map<Pos, nat>, ghost done: set<Pos>)
    returns (path: seq<Pos>)
    requires SearchInv(grid, rule, start, goal, queue, visited, cameFrom, dist, done)
    requires queue != [] && queue[0] == goal
    ensures IsShortestPath(grid, rule, start, goal, path)
  {
    path := Reconstruct(grid, rule, start, goal, visited, cameFrom, dist);
    ShortestAtFront(grid, rule, start, goal, queue, visited, cameFrom, dist, done, path);
  }

  /**
   * The neighbours of `cur` in the directions `ds`, in that order, that are
   * passable and not in `seen`; each one taken joins `seen`.
   */
  function Fresh(grid: array2<int>, rule: Rule, goal: Pos, cur: Pos, seen: set<Pos>, ds: seq<Direction>): seq<Pos>
    reads grid
    decreases |ds|
  {
    if ds == [] then []
    else
      var nb := Shift(cur, ds[0]);
      if Passable(grid, rule, goal, nb) && nb !in seen then [nb] + Fresh(grid, rule, goal, cur, seen + {nb}, ds[1..])
      else Fresh(grid, rule, goal, cur, seen, ds[1..])
  }

  /** Taking the first direction of `ds` moves its neighbour, when fresh, from `Fresh` to `added`. */
  lemma FreshTake(grid: array2<int>, rule: Rule, goal: Pos, cur: Pos, seen: set<Pos>, ds: seq<Direction>,
                  added: seq<Pos>, all: seq<Pos>)
    requires ds != [] && added + Fresh(grid, rule, goal, cur, seen, ds) == all
    ensures var nb := Shift(cur, ds[0]);
      if Passable(grid, rule, goal, nb) && nb !in seen then (added + [nb]) + Fresh(grid, rule, goal, cur, seen + {nb}, ds[1..]) == all
      else added + Fresh(grid, rule, goal, cur, seen, ds[1..]) == all
  {
    var nb := Shift(cur, ds[0]);
    if Passable(grid, rule, goal, nb) && nb !in seen {
      assert added + ([nb] + Fresh(grid, rule, goal, cur, seen + {nb}, ds[1..])) ==
             (added + [nb]) + Fresh(grid, rule, goal, cur, seen + {nb}, ds[1..]);
    }
  }

  /**
   * The inner `for` loop of the search: each neighbour of `cur`, in `Order`,
   * that is in bounds, passable and not yet visited is marked visited, given
   * `cur` as its parent and appended to the queue.
   */
  method Expand(grid: array2<int>, rule: Rule, goal: Pos, cur: Pos, queue: seq<Pos>,
                visited: set<Pos>, cameFrom: map<Pos, Option<Pos>>, ghost dist: map<Pos, nat>)
    returns (queue': seq<Pos>, visited': set<Pos>, cameFrom': map<Pos, Option<Pos>>,
             ghost dist': map<Pos, nat>, ghost added: seq<Pos>)
    requires cur in dist && visited == cameFrom.Keys && visited == dist.Keys
    ensures queue' == queue + added && added == Fresh(grid, rule, goal, cur, visited, Order)
    ensures Expanded(grid, rule, goal, cur, visited, cameFrom, dist, added, visited', cameFrom', dist')
  {
    queue', visited', cameFrom', dist', added := queue, visited, cameFrom, dist, [];
    for i := 0 to |Order|
      invariant queue' == queue + added
      invariant added + Fresh(grid, rule, goal, cur, visited', Order[i..]) == Fresh(grid, rule, goal, cur, visited, Order)
      invariant Visiting(grid, rule, goal, cur, visited, cameFrom, dist, added, visited', cameFrom', dist')
      invariant forall k :: 0 <= k < i && Passable(grid, rule, goal, Shift(cur, Order[k])) ==>
        Shift(cur, Order[k]) in visited'
    {
      var nb := Shift(cur, Order[i]);
      assert Order[i..][0] == Order[i] && Order[i..][1..] == Order[i + 1..];
      FreshTake(grid, rule, goal, cur, visited', Order[i..], added, Fresh(grid, rule, goal, cur, visited, Order));
      if Passable(grid, rule, goal, nb) && nb !in visited' {
        AdjacentIsShift(cur, nb);
        VisitOne(grid, rule, goal, cur, visited, cameFrom, dist, added, visited', cameFrom', dist', nb);
        visited' := visited' + {nb};
        cameFrom' := cameFrom'[nb := Some(cur)];
        dist' := dist'[nb := dist[cur] + 1];
        queue' := queue' + [nb];
        added := added + [nb];
      }
    }
    forall d | Passable(grid, rule, goal, Shift(cur, d))
      ensures Shift(cur, d) in visited'
    {
      var k := match d case Up => 0 case Down => 1 case Left => 2 case Right => 3;
      assert Order[k] == d;
    }
  }

  /**
   * Walking `came_from` back from the goal to `start`. Each cell is put in
   * front of those collected so far, which gives the same sequence as
   * collecting goal-first and reversing.
   */
  method Reconstruct(grid: array2<int>, rule: Rule, start: Pos, goal: Pos,
                     visited: set<Pos>, cameFrom: map<Pos, Option<Pos>>, ghost dist: map<Pos, nat>)
    returns (path: seq<Pos>)
    requires Tree(grid, rule, start, goal, visited, cameFrom, dist) && goal in visited
    ensures IsPath(grid, rule, start, goal, path) && |path| == dist[goal] + 1
  {
    var cur: Option<Pos> := Some(goal);
    path := [];
    while cur.Some?
      invariant cur.Some? ==> cur.value in visited && |path| + dist[cur.value] == dist[goal]
      invariant cur.Some? && path != [] ==> Step(grid, rule, goal, cur.value, path[0])
      invariant cur.None? ==> |path| == dist[goal] + 1 && path[0] == start
      invariant path == [] <==> cur == Some(goal)
      invariant path != [] ==> path[|path| - 1] == goal
      invariant Chain(grid, rule, goal, path)
      decreases if cur.Some? then dist[cur.value] + 1 else 0
    {
      var c := cur.value;
      assert ([c] + path)[1..] == path;
      path := [c] + path;
      cur := cameFrom[c];
      if c != start {
        assert ParentOk(grid, rule, goal, visited, cameFrom, dist, c);
      }
    }
  }

  // ---------------------------------------------------------------------
  // Why the search is right.

  /** The invariant holds before the first iteration. */
  lemma InitialInv(grid: array2<int>, rule: Rule, start: Pos, goal: Pos)
    ensures SearchInv(grid, rule, start, goal, [start], {start}, map[start := None], map[start := 0], {})
  {
  }

  /** Newly visited cells are in bounds, so each expansion either visits a new cell or only shortens the queue. */
  lemma Progress(grid: array2<int>, rule: Rule, goal: Pos, cur: Pos, box: set<Pos>,
                 visited: set<Pos>, cameFrom: map<Pos, Option<Pos>>, dist: map<Pos, nat>, added: seq<Pos>,
                 visited': set<Pos>, cameFrom': map<Pos, Option<Pos>>, dist': map<Pos, nat>)
    requires Cells(grid) <= box && visited <= box
    requires Expanded(grid, rule, goal, cur, visited, cameFrom, dist, added, visited', cameFrom', dist')
    ensures visited' <= box
    ensures added == [] ==> visited' == visited
    ensures added != [] ==> |box - visited'| < |box - visited|
  {
    forall k | 0 <= k < |added| ensures added[k] in box {
      var p := added[k];
      assert Step(grid, rule, goal, cur, p);
      assert p == (p.0, p.1);
    }
    if added != [] {
      var x := added[0];
      assert box - visited' <= (box - visited) - {x};
      SubsetNoLarger(box - visited', (box - visited) - {x});
    }
  }

  lemma {:induction false} SubsetNoLarger(a: set<Pos>, b: set<Pos>)
    requires a <= b
    ensures |a| <= |b|
    decreases a
  {
    if a != {} {
      var x :| x in a;
      SubsetNoLarger(a - {x}, b - {x});
    }
  }

  /**
   * Part way through an expansion of `cur`: the cells of `added` are new,
   * children of `cur`, one layer deeper, and nothing else changes.
   */
  ghost predicate Visiting(grid: array2<int>, rule: Rule, goal: Pos, cur: Pos,
                           visited: set<Pos>, cameFrom: map<Pos, Option<Pos>>, dist: map<Pos, nat>,
                           added: seq<Pos>,
                           visited': set<Pos>, cameFrom': map<Pos, Option<Pos>>, dist': map<Pos, nat>)
    reads grid
  {
    && cur in dist && visited <= cameFrom.Keys && visited <= dist.Keys
    && visited' == cameFrom'.Keys && visited' == dist'.Keys
    && (forall v :: v in visited' <==> v in visited || v in added)
    && (forall v :: v in visited ==> cameFrom'[v] == cameFrom[v] && dist'[v] == dist[v])
    && (forall k :: 0 <= k < |added| ==>
         added[k] !in visited && cameFrom'[added[k]] == Some(cur) &&
         dist'[added[k]] == dist[cur] + 1 && Step(grid, rule, goal, cur, added[k]))
  }

  /**
   * What one expansion of `cur` does to the search state: the changes of
   * `Visiting`, after which every passable neighbour of `cur` is visited.
   */
  ghost predicate Expanded(grid: array2<int>, rule: Rule, goal: Pos, cur: Pos,
                           visited: set<Pos>, cameFrom: map<Pos, Option<Pos>>, dist: map<Pos, nat>,
                           added: seq<Pos>,
                           visited': set<Pos>, cameFrom': map<Pos, Option<Pos>>, dist': map<Pos, nat>)
    reads grid
  {
    && Visiting(grid, rule, goal, cur, visited, cameFrom, dist, added, visited', cameFrom', dist')
    && (forall d :: Passable(grid, rule, goal, Shift(cur, d)) ==> Shift(cur, d) in visited')
  }

  /** Visiting one more new neighbour `nb` of `cur` keeps the partial expansion. */
  lemma VisitOne(grid: array2<int>, rule: Rule, goal: Pos, cur: Pos,
                 visited: set<Pos>, cameFrom: map<Pos, Option<Pos>>, dist: map<Pos, nat>,
                 added: seq<Pos>, visited': set<Pos>, cameFrom': map<Pos, Option<Pos>>, dist': map<Pos, nat>, nb: Pos)
    requires Visiting(grid, rule, goal, cur, visited, cameFrom, dist, added, visited', cameFrom', dist')
    requires nb !in visited' && Step(grid, rule, goal, cur, nb)
    ensures Visiting(grid, rule, goal, cur, visited, cameFrom, dist, added + [nb],
                     visited' + {nb}, cameFrom'[nb := Some(cur)], dist'[nb := dist[cur] + 1])
  {
    var added' := added + [nb];
    assert forall k :: 0 <= k < |added| ==> added'[k] == added[k];
    assert added'[|added|] == nb;
  }

  /** Expanding the queue front keeps the loop invariant. */
  lemma ExpandKeeps(grid: array2<int>, rule: Rule, start: Pos, goal: Pos,
                    queue: seq<Pos>, visited: set<Pos>, cameFrom: map<Pos, Option<Pos>>,
                    dist: map<Pos, nat>, done: set<Pos>, added: seq<Pos>,
                    visited': set<Pos>, cameFrom': map<Pos, Option<Pos>>, dist': map<Pos, nat>)
    requires SearchInv(grid, rule, start, goal, queue, visited, cameFrom, dist, done)
    requires queue != [] && queue[0] != goal
    requires Expanded(grid, rule, goal, queue[0], visited, cameFrom, dist, added, visited', cameFrom', dist')
    ensures SearchInv(grid, rule, start, goal, queue[1..] + added, visited', cameFrom', dist', done + {queue[0]})
  {
    KeepsTree(grid, rule, start, goal, queue, visited, cameFrom, dist, done, added, visited', cameFrom', dist');
    KeepsQueue(grid, rule, start, goal, queue, visited, cameFrom, dist, done, added, visited', cameFrom', dist');
    KeepsDone(grid, rule, start, goal, queue, visited, cameFrom, dist, done, added, visited', cameFrom', dist');
    KeepsFront(grid, rule, start, goal, queue, visited, cameFrom, dist, done, added, visited', cameFrom', dist');
  }

  lemma KeepsTree(grid: array2<int>, rule: Rule, start: Pos, goal: Pos,
                  queue: seq<Pos>, visited: set<Pos>, cameFrom: map<Pos, Option<Pos>>,
                  dist: map<Pos, nat>, done: set<Pos>, added: seq<Pos>,
                  visited': set<Pos>, cameFrom': map<Pos, Option<Pos>>, dist': map<Pos, nat>)
    requires SearchInv(grid, rule, start, goal, queue, visited, cameFrom, dist, done)
    requires queue != [] && queue[0] != goal
    requires Expanded(grid, rule, goal, queue[0], visited, cameFrom, dist, added, visited', cameFrom', dist')
    ensures Tree(grid, rule, start, goal, visited', cameFrom', dist')
  {
    forall v | v in visited' && v != start
      ensures ParentOk(grid, rule, goal, visited', cameFrom', dist', v)
    {
      if v in visited {
        assert ParentOk(grid, rule, goal, visited, cameFrom, dist, v);
      } else {
        var k :| 0 <= k < |added| && added[k] == v;
      }
    }
  }

  lemma KeepsQueue(grid: array2<int>, rule: Rule, start: Pos, goal: Pos,
                   queue: seq<Pos>, visited: set<Pos>, cameFrom: map<Pos, Option<Pos>>,
                   dist: map<Pos, nat>, done: set<Pos>, added: seq<Pos>,
                   visited': set<Pos>, cameFrom': map<Pos, Option<Pos>>, dist': map<Pos, nat>)
    requires SearchInv(grid, rule, start, goal, queue, visited, cameFrom, dist, done)
    requires queue != [] && queue[0] != goal
    requires Expanded(grid, rule, goal, queue[0], visited, cameFrom, dist, added, visited', cameFrom', dist')
    ensures var q := queue[1..] + added;
      && (forall i :: 0 <= i < |q| ==> q[i] in visited')
      && (forall v :: v in visited' && v !in done + {queue[0]} ==> v in q)
      && (forall i, j :: 0 <= i <= j < |q| ==> dist'[q[i]] <= dist'[q[j]])
      && (forall i :: 0 <= i < |q| ==> dist'[q[i]] <= dist'[q[0]] + 1)
      && (forall i :: 0 <= i < |q| ==> dist[queue[0]] <= dist'[q[i]])
  {
    QueueDepths(grid, rule, start, goal, queue, visited, cameFrom, dist, done, added, visited', cameFrom', dist');
    QueueCovers(grid, rule, start, goal, queue, visited, cameFrom, dist, done, added, visited', cameFrom', dist');
  }

  lemma QueueDepths(grid: array2<int>, rule: Rule, start: Pos, goal: Pos,
                   queue: seq<Pos>, visited: set<Pos>, cameFrom: map<Pos, Option<Pos>>,
                   dist: map<Pos, nat>, done: set<Pos>, added: seq<Pos>,
                   visited': set<Pos>, cameFrom': map<Pos, Option<Pos>>, dist': map<Pos, nat>)
    requires SearchInv(grid, rule, start, goal, queue, visited, cameFrom, dist, done)
    requires queue != [] && queue[0] != goal
    requires Expanded(grid, rule, goal, queue[0], visited, cameFrom, dist, added, visited', cameFrom', dist')
    ensures var q := queue[1..] + added;
      && (forall i :: 0 <= i < |q| ==> q[i] in visited')
      && (forall i, j :: 0 <= i <= j < |q| ==> dist'[q[i]] <= dist'[q[j]])
      && (forall i :: 0 <= i < |q| ==> dist[queue[0]] <= dist'[q[i]] <= dist[queue[0]] + 1)
  {
    QueueLayers(grid, rule, start, goal, queue, visited, cameFrom, dist, done, added, visited', cameFrom', dist');
    forall i | 0 <= i < |queue| ensures queue[i] in dist && queue[i] in dist' && dist'[queue[i]] == dist[queue[i]] {
      assert queue[i] in visited;
    }
    QueueSorted(queue, added, dist, dist');
  }

  lemma QueueLayers(grid: array2<int>, rule: Rule, start: Pos, goal: Pos,
                   queue: seq<Pos>, visited: set<Pos>, cameFrom: map<Pos, Option<Pos>>,
                   dist: map<Pos, nat>, done: set<Pos>, added: seq<Pos>,
                   visited': set<Pos>, cameFrom': map<Pos, Option<Pos>>, dist': map<Pos, nat>)
    requires SearchInv(grid, rule, start, goal, queue, visited, cameFrom, dist, done)
    requires queue != [] && queue[0] != goal
    requires Expanded(grid, rule, goal, queue[0], visited, cameFrom, dist, added, visited', cameFrom', dist')
    ensures var q := queue[1..] + added;
      forall i :: 0 <= i < |q| ==> q[i] in visited' && dist[queue[0]] <= dist'[q[i]] <= dist[queue[0]] + 1
  {
    var q := queue[1..] + added;
    var d0 := dist[queue[0]];
    forall i | 0 <= i < |q| ensures q[i] in visited' && d0 <= dist'[q[i]] <= d0 + 1 {
      if i < |queue| - 1 { assert q[i] == queue[i + 1]; } else { assert q[i] == added[i - |queue| + 1]; }
    }
  }

  /** The queue after popping its front and appending one layer deeper is still sorted by depth. */
  lemma QueueSorted(queue: seq<Pos>, added: seq<Pos>, dist: map<Pos, nat>, dist': map<Pos, nat>)
    requires queue != []
    requires forall i :: 0 <= i < |queue| ==> queue[i] in dist && queue[i] in dist' && dist'[queue[i]] == dist[queue[i]]
    requires forall i, j :: 0 <= i <= j < |queue| ==> dist[queue[i]] <= dist[queue[j]]
    requires forall i :: 0 <= i < |queue| ==> dist[queue[i]] <= dist[queue[0]] + 1
    requires forall k :: 0 <= k < |added| ==> added[k] in dist' && dist'[added[k]] == dist[queue[0]] + 1
    ensures forall i, j :: 0 <= i <= j < |queue[1..] + added| ==>
      dist'[(queue[1..] + added)[i]] <= dist'[(queue[1..] + added)[j]]
  {
    var a := queue[1..];
    var d := dist[queue[0]] + 1;
    forall i | 0 <= i < |a| ensures a[i] in dist' && dist'[a[i]] <= d {
      assert a[i] == queue[i + 1];
    }
    forall i, j | 0 <= i <= j < |a| ensures dist'[a[i]] <= dist'[a[j]] {
      assert a[i] == queue[i + 1] && a[j] == queue[j + 1];
    }
    ConcatSorted(a, added, dist', d);
  }

  /** A sorted run of depths at most `d` followed by cells at depth `d` is sorted. */
  lemma ConcatSorted(a: seq<Pos>, b: seq<Pos>, m: map<Pos, nat>, d: nat)
    requires forall i :: 0 <= i < |a| ==> a[i] in m && m[a[i]] <= d
    requires forall i :: 0 <= i < |b| ==> b[i] in m && m[b[i]] == d
    requires forall i, j :: 0 <= i <= j < |a| ==> m[a[i]] <= m[a[j]]
    ensures forall i, j :: 0 <= i <= j < |a + b| ==> m[(a + b)[i]] <= m[(a + b)[j]]
  {
    var q := a + b;
    forall i, j | 0 <= i <= j < |q| ensures m[q[i]] <= m[q[j]] {
      if j < |a| {
        assert q[i] == a[i] && q[j] == a[j];
      } else if i >= |a| {
        assert q[i] == b[i - |a|] && q[j] == b[j - |a|];
      } else {
        assert q[i] == a[i] && q[j] == b[j - |a|];
      }
    }
  }

  lemma KeepsFront(grid: array2<int>, rule: Rule, start: Pos, goal: Pos,
                   queue: seq<Pos>, visited: set<Pos>, cameFrom: map<Pos, Option<Pos>>,
                   dist: map<Pos, nat>, done: set<Pos>, added: seq<Pos>,
                   visited': set<Pos>, cameFrom': map<Pos, Option<Pos>>, dist': map<Pos, nat>)
    requires SearchInv(grid, rule, start, goal, queue, visited, cameFrom, dist, done)
    requires queue != [] && queue[0] != goal
    requires Expanded(grid, rule, goal, queue[0], visited, cameFrom, dist, added, visited', cameFrom', dist')
    ensures var q := queue[1..] + added;
      forall p :: p in done + {queue[0]} && |q| > 0 ==> dist'[p] <= dist'[q[0]]
  {
    var q := queue[1..] + added;
    if |q| > 0 {
      QueueLayers(grid, rule, start, goal, queue, visited, cameFrom, dist, done, added, visited', cameFrom', dist');
      forall p | p in done + {queue[0]} ensures dist'[p] <= dist'[q[0]] {
        assert p in visited;
      }
    }
  }

  lemma QueueCovers(grid: array2<int>, rule: Rule, start: Pos, goal: Pos,
                   queue: seq<Pos>, visited: set<Pos>, cameFrom: map<Pos, Option<Pos>>,
                   dist: map<Pos, nat>, done: set<Pos>, added: seq<Pos>,
                   visited': set<Pos>, cameFrom': map<Pos, Option<Pos>>, dist': map<Pos, nat>)
    requires SearchInv(grid, rule, start, goal, queue, visited, cameFrom, dist, done)
    requires queue != [] && queue[0] != goal
    requires Expanded(grid, rule, goal, queue[0], visited, cameFrom, dist, added, visited', cameFrom', dist')
    ensures forall v :: v in visited' && v !in done + {queue[0]} ==> v in queue[1..] + added
  {
    var cur := queue[0];
    var q := queue[1..] + added;
    forall v | v in visited' && v !in done + {cur} ensures v in q {
      if v in visited {
        assert v in queue;
        var i :| 0 <= i < |queue| && queue[i] == v;
        assert q[i - 1] == v;
      } else {
        var k :| 0 <= k < |added| && added[k] == v;
        assert q[|queue| - 1 + k] == v;
      }
    }
  }

  lemma KeepsDone(grid: array2<int>, rule: Rule, start: Pos, goal: Pos,
                  queue: seq<Pos>, visited: set<Pos>, cameFrom: map<Pos, Option<Pos>>,
                  dist: map<Pos, nat>, done: set<Pos>, added: seq<Pos>,
                  visited': set<Pos>, cameFrom': map<Pos, Option<Pos>>, dist': map<Pos, nat>)
    requires SearchInv(grid, rule, start, goal, queue, visited, cameFrom, dist, done)
    requires queue != [] && queue[0] != goal
    requires Expanded(grid, rule, goal, queue[0], visited, cameFrom, dist, added, visited', cameFrom', dist')
    ensures forall p, d :: p in done + {queue[0]} ==> NeighbourSeen(grid, rule, goal, visited', dist', p, d)
  {
    var cur := queue[0];
    forall p, d | p in done + {cur}
      ensures NeighbourSeen(grid, rule, goal, visited', dist', p, d)
    {
      if p in done {
        assert NeighbourSeen(grid, rule, goal, visited, dist, p, d);
      } else if Passable(grid, rule, goal, Shift(cur, d)) {
        var n := Shift(cur, d);
        if n in visited {
          if n !in done {
            var i :| 0 <= i < |queue| && queue[i] == n;
          }
        } else {
          var k :| 0 <= k < |added| && added[k] == n;
        }
      }
    }
  }

  /**
   * A walk from `start` whose first `j` cells have all been expanded reaches,
   * at index `j`, a visited cell at most `j` layers deep.
   */
  lemma {:induction false} ExpandedPrefix(grid: array2<int>, rule: Rule, start: Pos, goal: Pos,
                                          queue: seq<Pos>, visited: set<Pos>, cameFrom: map<Pos, Option<Pos>>,
                                          dist: map<Pos, nat>, done: set<Pos>, w: seq<Pos>, j: nat)
    requires SearchInv(grid, rule, start, goal, queue, visited, cameFrom, dist, done)
    requires IsWalk(grid, rule, goal, start, w) && j < |w|
    requires forall k :: 0 <= k < j ==> w[k] in done
    ensures w[j] in visited && dist[w[j]] <= j
  {
    if j > 0 {
      ExpandedPrefix(grid, rule, start, goal, queue, visited, cameFrom, dist, done, w, j - 1);
      ChainStep(grid, rule, goal, w, j - 1);
      var d := DirectionTo(w[j - 1], w[j]);
      assert NeighbourSeen(grid, rule, goal, visited, dist, w[j - 1], d);
    }
  }

  /** When the goal is at the queue front, no path is shorter than its depth plus one. */
  lemma ShortestAtFront(grid: array2<int>, rule: Rule, start: Pos, goal: Pos,
                        queue: seq<Pos>, visited: set<Pos>, cameFrom: map<Pos, Option<Pos>>,
                        dist: map<Pos, nat>, done: set<Pos>, path: seq<Pos>)
    requires SearchInv(grid, rule, start, goal, queue, visited, cameFrom, dist, done)
    requires queue != [] && queue[0] == goal
    requires IsPath(grid, rule, start, goal, path) && |path| == dist[goal] + 1
    ensures IsShortestPath(grid, rule, start, goal, path)
  {
    forall w | IsPath(grid, rule, start, goal, w) ensures |path| <= |w| {
      var j := FirstUnexpanded(goal, done, w);
      ExpandedPrefix(grid, rule, start, goal, queue, visited, cameFrom, dist, done, w, j);
      var i :| 0 <= i < |queue| && queue[i] == w[j];
      assert dist[queue[0]] <= dist[queue[i]];
    }
  }

  /** When the queue is empty every visited cell is expanded, so the goal is never reached. */
  lemma NoPathWhenExhausted(grid: array2<int>, rule: Rule, start: Pos, goal: Pos,
                            visited: set<Pos>, cameFrom: map<Pos, Option<Pos>>,
                            dist: map<Pos, nat>, done: set<Pos>)
    requires SearchInv(grid, rule, start, goal, [], visited, cameFrom, dist, done)
    ensures !Reachable(grid, rule, start, goal)
  {
    if w :| IsPath(grid, rule, start, goal, w) {
      var j := FirstUnexpanded(goal, done, w);
      ExpandedPrefix(grid, rule, start, goal, [], visited, cameFrom, dist, done, w, j);
      assert false;
    }
  }

  /** The first index of a sequence ending at the goal whose cell has not been expanded. */
  lemma FirstUnexpanded(goal: Pos, done: set<Pos>, w: seq<Pos>) returns (j: nat)
    requires |w| >= 1 && w[|w| - 1] == goal && goal !in done
    ensures j < |w| && w[j] !in done && forall k :: 0 <= k < j ==> w[k] in done
  {
    j := 0;
    while w[j] in done
      invariant j < |w| && forall k :: 0 <= k < j ==> w[k] in done
      decreases |w| - j
    {
      j := j + 1;
    }
  }

  // ---------------------------------------------------------------------
  // What the callers rely on.

  /**
   * A shortest path passes the goal only at its end, so with `NotWall` each
   * cell after the start and before the goal is not a wall, and with
   * `FreeOnly` it is empty.
   */
  lemma ShortestInterior(grid: array2<int>, rule: Rule, start: Pos, goal: Pos, w: seq<Pos>, i: int)
    requires IsShortestPath(grid, rule, start, goal, w) && 0 < i < |w| - 1
    ensures w[i] != goal && InGrid(grid, w[i])
    ensures rule == NotWall ==> grid[w[i].0, w[i].1] != Wall
    ensures rule == FreeOnly ==> grid[w[i].0, w[i].1] == Empty
  {
    if w[i] == goal {
      ChainPrefix(grid, rule, goal, w, i + 1);
      assert IsPath(grid, rule, start, goal, w[..i + 1]);
      assert false;
    }
    ChainStep(grid, rule, goal, w, i - 1);
  }

  /** A search from the goal itself returns the one-cell path. */
  lemma StartIsGoal(grid: array2<int>, rule: Rule, start: Pos, w: seq<Pos>)
    requires IsShortestPath(grid, rule, start, start, w)
    ensures w == [start]
  {
    assert IsPath(grid, rule, start, start, [start]);
  }

  /** The search reads only the cells: a grid and a record of its cells have the same chains. */
  lemma {:induction false} ChainSameCells(a: array2<int>, b: array2<int>, rule: Rule, goal: Pos, w: seq<Pos>)
    requires SameCells(a, b)
    ensures Chain(a, rule, goal, w) == Chain(b, rule, goal, w)
    decreases |w|
  {
    if |w| > 1 {
      ChainSameCells(a, b, rule, goal, w[1..]);
    }
  }

  /**
   * A grid and a record of its cells have the same paths, so the same
   * reachability and the same shortest paths.
   */
  lemma SameCellsPaths(a: array2<int>, b: array2<int>, rule: Rule)
    requires SameCells(a, b)
    ensures forall start, goal, w :: IsPath(a, rule, start, goal, w) == IsPath(b, rule, start, goal, w)
    ensures forall start, goal :: Reachable(a, rule, start, goal) == Reachable(b, rule, start, goal)
    ensures forall start, goal, w :: IsShortestPath(a, rule, start, goal, w) == IsShortestPath(b, rule, start, goal, w)
  {
    forall start, goal, w
      ensures IsPath(a, rule, start, goal, w) == IsPath(b, rule, start, goal, w)
    {
      ChainSameCells(a, b, rule, goal, w);
    }
  }
}
