/**
 * The two single-file fruit drafts. Both carry the same animated base and
 * grid mixin as the package (modelled once, by `FruitMover.MovingFruit`);
 * they differ in their fruit list. In the earlier draft (Fruits.py) the
 * strawberry has three frames and there is no pineapple; in the later one
 * (fruits.py) the pineapple is a mixin fruit that flies over single walls
 * without the package's departure and landing phases.
 */
module DraftFruits {
  import opened Wrappers
  import opened Settings
  import opened Motion
  import Text
  import FruitMover
  import FruitFactory
  import Pineapple

  /** The draft pineapple: the mixin fruit (`body`) plus the flight fields. */
  class DraftPineapple {
    const body: FruitMover.MovingFruit
    const grid: array2<int>
    var direction: Direction
    var flying: bool
    var flyTarget: Option<Point>

    ghost predicate Valid()
      reads this, body
    {
      body.Valid()
    }

    /** `Pineapple(x, y, grid)`: three frames at 200 ms, speed 2, facing `initial`. */
    constructor (x: int, y: int, grid: array2<int>, initial: Direction, now: int)
      ensures Valid() && fresh(body)
      ensures body.frameCount == 3 && body.animInterval == 200 && body.moveSpeed == 2
      ensures body.topLeft == Point(x, y) && body.gridPos == TileOf(x, y) && !body.moving
      ensures this.grid == grid && direction == initial && !flying && flyTarget == None
    {
      body := new FruitMover.MovingFruit(x, y, 3, 200, 2, now);
      this.grid := grid;
      direction := initial;
      flying := false;
      flyTarget := None;
    }

    /**
     * `_fly`: with no target the flight just ends; otherwise one pixel per
     * axis towards the target, and on arrival the flight ends and the
     * target is cleared.
     */
    method Fly()
      requires Valid()
      modifies this, body
      ensures Valid()
      ensures old(flyTarget) == None ==> !flying && flyTarget == None && body.topLeft == old(body.topLeft)
      ensures old(flyTarget).Some? ==>
                var s := Advance(old(body.topLeft), old(flyTarget).value, 1);
                body.topLeft == s.pos && flying == (old(flying) && !s.arrived) &&
                flyTarget == (if s.arrived then None else old(flyTarget))
      ensures direction == old(direction) && body.gridPos == old(body.gridPos) && body.moving == old(body.moving)
      ensures body.targetPos == old(body.targetPos) && body.nextDirection == old(body.nextDirection)
      ensures body.anim == old(body.anim) && body.image == old(body.image)
    {
      if flyTarget == None {
        flying := false;
        return;
      }
      var s := Advance(body.topLeft, flyTarget.value, 1);
      body.topLeft := s.pos;
      if s.arrived {
        flying := false;
        flyTarget := None;
      }
    }

    /**
     * `move(_)`, called by the level before `update`: a flight in progress
     * only advances; otherwise the package pineapple's decision (turn to
     * `turn`, fly over a wall, or step) is taken, a step being handed to the
     * mixin's `move` as an intent.
     */
    method Move(turn: Direction)
      requires Valid()
      modifies this, body
      ensures Valid()
      ensures old(flying) ==> body.gridPos == old(body.gridPos) && direction == old(direction) &&
                              body.nextDirection == old(body.nextDirection)
      ensures !old(flying) ==>
                var c := Pineapple.Decide(grid, old(body.gridPos), old(direction));
                && (c == Pineapple.Turn ==>
                      direction == turn && !flying && body.gridPos == old(body.gridPos) &&
                      body.nextDirection == old(body.nextDirection))
                && (c.Fly? ==> direction == old(direction) && flying && flyTarget == Some(TileTopLeft(c.far)) &&
                               body.gridPos == c.far && body.nextDirection == old(body.nextDirection))
                && (c.Walk? ==> direction == old(direction) && !flying && body.gridPos == old(body.gridPos) &&
                                body.nextDirection == (if old(body.moving) then old(body.nextDirection) else Some(direction)))
      ensures !old(flying) ==> body.topLeft == old(body.topLeft)
      ensures body.moving == old(body.moving) && body.targetPos == old(body.targetPos)
    {
      if flying {
        Fly();
        return;
      }
      var c := Pineapple.Decide(grid, body.gridPos, direction);
      match c
      case Turn =>
        direction := turn;
      case Fly(f) =>
        flying := true;
        flyTarget := Some(TileTopLeft(f));
        body.gridPos := f;
      case Walk(_) =>
        ParseDirectionNames(Name(direction), direction);
        body.Move(Name(direction));
    }
  }

  /** A fruit of either draft. */
  datatype DraftFruit = StrawberryFruit(s: FruitMover.MovingFruit) | OrangeFruit(topLeft: Point) | PineappleFruit(p: DraftPineapple)

  /** `FruitFactory.create(fruit_type, x, y)` of the earlier draft: three-frame strawberry or orange. */
  method CreateEarly(name: string, x: int, y: int, now: int) returns (r: Result<DraftFruit, Error>)
    ensures r.Failure? <==> FruitFactory.KindOf(name, false).Failure?
    ensures r.Failure? ==> r.error == FruitFactory.KindOf(name, false).error
    ensures FruitFactory.KindOf(name, false) == Success(FruitFactory.Strawberry) ==>
      r.Success? && r.value.StrawberryFruit? && fresh(r.value.s) && r.value.s.Valid() &&
      r.value.s.frameCount == 3 && r.value.s.animInterval == 180 && r.value.s.moveSpeed == 1 &&
      r.value.s.topLeft == Point(x, y)
    ensures FruitFactory.KindOf(name, false) == Success(FruitFactory.Orange) ==> r == Success(OrangeFruit(Point(x, y)))
  {
    var k := FruitFactory.KindOf(name, false);
    if k.Failure? {
      r := Failure(k.error);
    } else if k.value == FruitFactory.Strawberry {
      var s := new FruitMover.MovingFruit(x, y, 3, 180, 1, now);
      r := Success(StrawberryFruit(s));
    } else {
      r := Success(OrangeFruit(Point(x, y)));
    }
  }

  /** `FruitFactory.create(fruit_type, x, y, grid)` of the later draft. */
  method CreateLate(name: string, x: int, y: int, grid: array2<int>, initial: Direction, now: int) returns (r: Result<DraftFruit, Error>)
    ensures r.Failure? <==> FruitFactory.KindOf(name, true).Failure?
    ensures r.Failure? ==> r.error == FruitFactory.KindOf(name, true).error
    ensures FruitFactory.KindOf(name, true) == Success(FruitFactory.Strawberry) ==>
      r.Success? && r.value.StrawberryFruit? && fresh(r.value.s) && r.value.s.Valid() &&
      r.value.s.frameCount == 6 && r.value.s.animInterval == 180 && r.value.s.moveSpeed == 1 &&
      r.value.s.topLeft == Point(x, y)
    ensures FruitFactory.KindOf(name, true) == Success(FruitFactory.Orange) ==> r == Success(OrangeFruit(Point(x, y)))
    ensures FruitFactory.KindOf(name, true) == Success(FruitFactory.PineappleKind) ==>
      r.Success? && r.value.PineappleFruit? && fresh(r.value.p) && r.value.p.Valid() &&
      r.value.p.grid == grid && r.value.p.direction == initial && r.value.p.body.topLeft == Point(x, y)
  {
    var k := FruitFactory.KindOf(name, true);
    if k.Failure? {
      r := Failure(k.error);
    } else if k.value == FruitFactory.Strawberry {
      var s := new FruitMover.MovingFruit(x, y, 6, 180, 1, now);
      r := Success(StrawberryFruit(s));
    } else if k.value == FruitFactory.Orange {
      r := Success(OrangeFruit(Point(x, y)));
    } else {
      var p := new DraftPineapple(x, y, grid, initial, now);
      r := Success(PineappleFruit(p));
    }
  }

  /** The earlier draft knows no pineapple, in any spelling. */
  lemma EarlyDraftHasNoPineapple(name: string)
    requires Text.Lower(name) == "pineapple"
    ensures FruitFactory.KindOf(name, false) == Failure(ValueError("Unknown fruit type: " + name))
    ensures FruitFactory.KindOf(name, true) == Success(FruitFactory.PineappleKind)
  {
  }
}
