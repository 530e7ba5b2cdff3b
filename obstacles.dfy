/**
 * The obstacle sprites as the player's update sees them: a group, kept in
 * insertion order, of rectangles known by their top-left pixel. An
 * obstacle belongs to the tile of its top-left corner, as
 * `((rect.top - 25)//50, (rect.left - 25)//50)` computes it.
 */
module Obstacles {
  import opened Settings

  datatype Obstacle = Obstacle(topLeft: Point)

  function TileOfObstacle(o: Obstacle): Pos
  {
    TileOf(o.topLeft.x, o.topLeft.y)
  }

  /** `i` is the first index of an obstacle on tile `t`. */
  predicate FirstOnTile(items: seq<Obstacle>, t: Pos, i: int)
  {
    0 <= i < |items| && TileOfObstacle(items[i]) == t &&
    forall j :: 0 <= j < i ==> TileOfObstacle(items[j]) != t
  }

  class ObstacleGroup {
    var items: seq<Obstacle>

    constructor (items: seq<Obstacle>)
      ensures this.items == items
    {
      this.items := items;
    }

    /** `obstacles.add(o)`. */
    method Add(o: Obstacle)
      modifies this
      ensures items == old(items) + [o]
    {
      items := items + [o];
    }

    /**
     * The destroy loop of the player's update: walk the group in order and
     * remove the first obstacle standing on tile `t`, if any.
     */
    method RemoveFirstOnTile(t: Pos) returns (found: bool)
      modifies this
      ensures found <==> exists j :: 0 <= j < |old(items)| && TileOfObstacle(old(items)[j]) == t
      ensures found ==> exists i :: FirstOnTile(old(items), t, i) && items == old(items)[..i] + old(items)[i + 1..]
      ensures !found ==> items == old(items)
    {
      var i := 0;
      while i < |items| && TileOfObstacle(items[i]) != t
        invariant 0 <= i <= |items|
        invariant forall j :: 0 <= j < i ==> TileOfObstacle(items[j]) != t
      {
        i := i + 1;
      }
      found := i < |items|;
      if found {
        assert FirstOnTile(items, t, i);
        items := items[..i] + items[i + 1..];
      }
    }
  }
}
