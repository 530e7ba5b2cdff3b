/**
 * `FruitFactory.create`: the fruit type name, matched case-insensitively,
 * chooses the class. The same dispatch appears in the package and in both
 * single-file drafts; the earlier draft has no pineapple.
 */
module FruitFactory {
  import opened Wrappers
  import opened Settings
  import Text
  import FruitMover
  import Pineapple

  datatype Kind = Strawberry | Orange | PineappleKind

  /**
   * `fruit_type.lower()` against the known names; an unknown name is a
   * `ValueError` naming the type as given. With `withPineapple` false,
   * 'pineapple' is unknown too.
   */
  function KindOf(name: string, withPineapple: bool): (r: Result<Kind, Error>)
    ensures r == Success(Strawberry) <==> Text.Lower(name) == "strawberry"
    ensures r == Success(Orange) <==> Text.Lower(name) == "orange"
    ensures r == Success(PineappleKind) <==> withPineapple && Text.Lower(name) == "pineapple"
    ensures r.Failure? ==> r.error == ValueError("Unknown fruit type: " + name)
  {
    var ft := Text.Lower(name);
    if ft == "strawberry" then Success(Strawberry)
    else if ft == "orange" then Success(Orange)
    else if withPineapple && ft == "pineapple" then Success(PineappleKind)
    else Failure(ValueError("Unknown fruit type: " + name))
  }

  /** Two names that lower-case alike choose the same class (or both fail). */
  lemma KindOfIgnoresCase(a: string, b: string, withPineapple: bool)
    requires Text.Lower(a) == Text.Lower(b)
    ensures KindOf(a, withPineapple).Success? <==> KindOf(b, withPineapple).Success?
    ensures KindOf(a, withPineapple).Success? ==> KindOf(a, withPineapple) == KindOf(b, withPineapple)
  {
  }

  /** The three names a package level map asks for are all known. */
  lemma LevelNames()
    ensures KindOf("orange", true) == Success(Orange)
    ensures KindOf("strawberry", true) == Success(Strawberry)
    ensures KindOf("pineapple", true) == Success(PineappleKind)
  {
    assert Text.Lower("orange") == "orange";
    assert Text.Lower("strawberry") == "strawberry";
    assert Text.Lower("pineapple") == "pineapple";
  }

  /** The strawberry's constructor arguments: six frames at 180 ms, speed 1. */
  const StrawberryFrames: int := 6
  const StrawberryInterval: int := 180
  const StrawberrySpeed: int := 1

  /**
   * A created fruit. The strawberry and the orange are always collectable;
   * the pineapple carries its own flag. The orange is a still image, known
   * only by its top-left pixel.
   */
  datatype Fruit = StrawberryFruit(s: FruitMover.MovingFruit) | OrangeFruit(topLeft: Point) | PineappleFruit(p: Pineapple.Pineapple)

  /**
   * `FruitFactory.create(fruit_type, x, y, grid)`; `initial` is the
   * pineapple's random first direction. Only the pineapple receives the grid.
   */
  method Create(name: string, x: int, y: int, grid: array2<int>, initial: Direction, now: int) returns (r: Result<Fruit, Error>)
    ensures r.Failure? <==> KindOf(name, true).Failure?
    ensures r.Failure? ==> r.error == KindOf(name, true).error
    ensures KindOf(name, true) == Success(Strawberry) ==>
      r.Success? && r.value.StrawberryFruit? && fresh(r.value.s) && r.value.s.Valid() &&
      r.value.s.frameCount == StrawberryFrames && r.value.s.animInterval == StrawberryInterval &&
      r.value.s.moveSpeed == StrawberrySpeed && r.value.s.topLeft == Point(x, y)
    ensures KindOf(name, true) == Success(Orange) ==> r == Success(OrangeFruit(Point(x, y)))
    ensures KindOf(name, true) == Success(PineappleKind) ==>
      r.Success? && r.value.PineappleFruit? && fresh(r.value.p) && r.value.p.Valid() &&
      r.value.p.grid == grid && r.value.p.topLeft == Point(x, y) && r.value.p.direction == initial &&
      r.value.p.collectable
  {
    match KindOf(name, true)
    case Failure(e) =>
      r := Failure(e);
    case Success(Strawberry) =>
      var s := new FruitMover.MovingFruit(x, y, StrawberryFrames, StrawberryInterval, StrawberrySpeed, now);
      r := Success(StrawberryFruit(s));
    case Success(Orange) =>
      r := Success(OrangeFruit(Point(x, y)));
    case Success(PineappleKind) =>
      var p := new Pineapple.Pineapple(x, y, grid, initial, now);
      r := Success(PineappleFruit(p));
  }
}
