/**
 * The animated fruit base (`BaseFruit`, and the drafts' `AnimatedFruit`)
 * combined with the grid-movement mixin (`GridMovableMixin`), as every
 * moving fruit class inherits them: one class carries the base's animation
 * fields and the mixin's movement fields, with the frame count, animation
 * interval and move speed each fruit passes to the two constructors.
 *
 * `hits(p, items)` stands for "the fruit's rectangle moved so that its
 * top-left is `p` overlaps some obstacle of `items`".
 */
module FruitMover {
  import opened Wrappers
  import opened Settings
  import opened Motion
  import opened Animation
  import opened Obstacles

  /** The rectangle moved by one tile in direction `d` (`rect.move(dcol*50, drow*50)`). */
  function Nudge(topLeft: Point, d: Direction): (r: Point)
    ensures TileOf(r.x, r.y) == Shift(TileOf(topLeft.x, topLeft.y), d)
  {
    Point(topLeft.x + Vector(d).1 * TileSize, topLeft.y + Vector(d).0 * TileSize)
  }

  /** The animation and movement state of a moving fruit, as a value. */
  datatype Pose = Pose(anim: Animator, image: Image, topLeft: Point, gridPos: Pos, targetPos: Point, moving: bool,
                       nextDirection: Option<Direction>)

  class MovingFruit {
    // BaseFruit
    const frameCount: int
    const animInterval: int
    var anim: Animator
    var image: Image
    var topLeft: Point              // rect.topleft
    // GridMovableMixin
    const moveSpeed: int
    var gridPos: Pos
    var targetPos: Point
    var moving: bool
    var nextDirection: Option<Direction>

    ghost predicate Valid()
      reads this
    {
      frameCount >= 2 && moveSpeed > 0 &&
      Animation.Valid(anim, frameCount) && (moving ==> nextDirection == None)
    }

    /**
     * `BaseFruit.__init__(x, y, frames, anim_interval)` followed by
     * `GridMovableMixin.__init__(move_speed)`.
     */
    constructor (x: int, y: int, frameCount: int, animInterval: int, moveSpeed: int, now: int)
      requires frameCount >= 2 && moveSpeed > 0
      ensures Valid()
      ensures this.frameCount == frameCount && this.animInterval == animInterval && this.moveSpeed == moveSpeed
      ensures anim == Start(now) && image == Image(FruitStrip, 0) && topLeft == Point(x, y)
      ensures gridPos == TileOf(x, y) && targetPos == Point(x, y) && !moving && nextDirection == None
    {
      this.frameCount := frameCount;
      this.animInterval := animInterval;
      this.moveSpeed := moveSpeed;
      anim := Start(now);
      image := Image(FruitStrip, 0);
      topLeft := Point(x, y);
      gridPos := TileOf(x, y);
      targetPos := Point(x, y);
      moving := false;
      nextDirection := None;
    }

    /** `BaseFruit.animate`: the time-gated ping-pong over the frames. */
    method Animate(now: int)
      requires Valid()
      modifies this
      ensures Valid()
      ensures (anim, image) == Animation.Animate(old(anim), old(image), now, animInterval, FruitStrip, frameCount)
      ensures topLeft == old(topLeft) && gridPos == old(gridPos) && targetPos == old(targetPos)
      ensures moving == old(moving) && nextDirection == old(nextDirection)
    {
      var r := Animation.Animate(anim, image, now, animInterval, FruitStrip, frameCount);
      anim, image := r.0, r.1;
    }

    /** `move(direction)`: an intent is recorded only when idle and only for a known direction name. */
    method Move(direction: string)
      requires Valid()
      modifies this
      ensures Valid()
      ensures !old(moving) && ParseDirection(direction).Some? ==> nextDirection == ParseDirection(direction)
      ensures old(moving) || ParseDirection(direction).None? ==> nextDirection == old(nextDirection)
      ensures anim == old(anim) && image == old(image) && topLeft == old(topLeft)
      ensures gridPos == old(gridPos) && targetPos == old(targetPos) && moving == old(moving)
    {
      var d := ParseDirection(direction);
      if !moving && d.Some? {
        nextDirection := d;
      }
    }

    /** The commit half of the mixin's `update`. */
    method Commit(obstacles: ObstacleGroup, hits: (Point, seq<Obstacle>) -> bool)
      requires Valid()
      modifies this
      ensures Valid()
      ensures var commits := !old(moving) && old(nextDirection).Some? &&
                             !hits(Nudge(topLeft, old(nextDirection).value), obstacles.items);
              && (commits ==> var n := Shift(old(gridPos), old(nextDirection).value);
                                gridPos == n && targetPos == TileTopLeft(n) && moving)
              && (!commits ==> gridPos == old(gridPos) && targetPos == old(targetPos) && moving == old(moving))
      ensures nextDirection == (if old(moving) then old(nextDirection) else None)
      ensures anim == old(anim) && image == old(image) && topLeft == old(topLeft)
    {
      if !moving && nextDirection.Some? {
        var d := nextDirection.value;
        if !hits(Nudge(topLeft, d), obstacles.items) {
          var n := Shift(gridPos, d);
          targetPos := TileTopLeft(n);
          gridPos := n;
          moving := true;
        }
        nextDirection := None;
      }
    }

    /** The motion half: glide and animate while moving, otherwise show frame 0. */
    method Glide(now: int)
      requires Valid()
      modifies this
      ensures Valid()
      ensures old(moving) ==>
                var s := Advance(old(topLeft), targetPos, moveSpeed);
                topLeft == s.pos && moving == !s.arrived &&
                (anim, image) == Animation.Animate(old(anim), old(image), now, animInterval, FruitStrip, frameCount)
      ensures !old(moving) ==>
                topLeft == old(topLeft) && !moving &&
                anim == old(anim).(frameIndex := 0) && image == Image(FruitStrip, 0)
      ensures gridPos == old(gridPos) && targetPos == old(targetPos) && nextDirection == old(nextDirection)
    {
      if moving {
        var s := Advance(topLeft, targetPos, moveSpeed);
        topLeft := s.pos;
        if s.arrived {
          moving := false;
        }
        Animate(now);
      } else {
        anim := anim.(frameIndex := 0);
        image := Image(FruitStrip, 0);
      }
    }

    /** The fruit's animation and movement state. */
    ghost function State(): Pose
      reads this
    {
      Pose(anim, image, topLeft, gridPos, targetPos, moving, nextDirection)
    }

    /**
     * One mixin `update` from a valid state `was` to state `became` that
     * starts with intent `intent`, among obstacles `items`: a step is committed
     * when idle with an intent whose shifted rectangle is clear, and the
     * glide starts in the same call.
     */
    ghost predicate StepFrom(was: Pose, became: Pose, intent: Option<Direction>, now: int, items: seq<Obstacle>,
                             hits: (Point, seq<Obstacle>) -> bool)
    {
      var commits := !was.moving && intent.Some? && !hits(Nudge(was.topLeft, intent.value), items);
      var n := if intent.Some? then Shift(was.gridPos, intent.value) else was.gridPos;
      var target := if commits then TileTopLeft(n) else was.targetPos;
      frameCount >= 2 && moveSpeed > 0 && Animation.Valid(was.anim, frameCount) &&
      became.gridPos == (if commits then n else was.gridPos) && became.targetPos == target &&
      became.nextDirection == (if was.moving then intent else None) &&
      (was.moving || commits ==>
         var s := Advance(was.topLeft, target, moveSpeed);
         became.topLeft == s.pos && became.moving == !s.arrived &&
         (became.anim, became.image) == Animation.Animate(was.anim, was.image, now, animInterval, FruitStrip, frameCount)) &&
      (!(was.moving || commits) ==>
         became.topLeft == was.topLeft && !became.moving && became.anim == was.anim.(frameIndex := 0) &&
         became.image == Image(FruitStrip, 0))
    }

    /** One mixin `update` that starts with intent `intent`, from a valid state. */
    twostate predicate Stepped(intent: Option<Direction>, now: int, obstacles: ObstacleGroup, hits: (Point, seq<Obstacle>) -> bool)
      reads this, obstacles
    {
      old(Valid()) && StepFrom(old(State()), State(), intent, now, obstacles.items, hits)
    }

    /** `GridMovableMixin.update(obstacles)`. */
    method Step(now: int, obstacles: ObstacleGroup, hits: (Point, seq<Obstacle>) -> bool)
      requires Valid()
      modifies this
      ensures Valid() && Stepped(old(nextDirection), now, obstacles, hits)
    {
      Commit(obstacles, hits);
      Glide(now);
    }

    /**
     * `Strawberry.update(obstacles)` with `turn` as the random direction: the
     * intent only takes when idle, so a step in progress is never redirected.
     */
    method Wander(turn: Direction, now: int, obstacles: ObstacleGroup, hits: (Point, seq<Obstacle>) -> bool)
      requires Valid()
      modifies this
      ensures Valid() && Stepped(if old(moving) then None else Some(turn), now, obstacles, hits)
    {
      ParseDirectionNames(Name(turn), turn);
      Move(Name(turn));
      Step(now, obstacles, hits);
    }
  }
}
