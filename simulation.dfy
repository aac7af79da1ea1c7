/** The animation's shared state and its per-frame driver: the ball
    collection, which every ball's collision scan reads and writes in place,
    the evil circle created on the first frame, and the canvas size fixed at
    start-up. */
module Simulation {
  import opened Geometry
  import opened Balls
  import opened EvilCircles

  /** The population each frame tops the collection up to. */
  const NumberOfBalls := 10

  /** A ball as the population top-up creates it: position drawn from
      `random(20, width)` and `random(20, height)`, each velocity component
      from `random(-7, 7)`, radius from `random(10, 20)`, a random colour,
      and `exists` set. Such a ball is well formed from the start. */
  predicate Spawned(b: Ball, width: int, height: int): (spawned: bool)
    ensures spawned ==> WellFormed(b)
  {
    && InRandomRange(b.x, 20, width)
    && InRandomRange(b.y, 20, height)
    && -7 <= b.velX < 7
    && -7 <= b.velY < 7
    && IsRandomColor(b.color)
    && 10 <= b.size < 20
    && b.present
  }

  /** A sequence of balls each as the top-up creates them. */
  predicate AllSpawned(added: seq<Ball>, width: int, height: int)
  {
    forall i :: 0 <= i < |added| ==> Spawned(added[i], width, height)
  }

  /** What every ball of the collection satisfies at all times: a radius
      drawn from [10, 20), a random colour, and `exists` still set (nothing
      in the animation ever clears it). */
  predicate WellFormed(b: Ball)
  {
    10 <= b.size < 20 && IsRandomColor(b.color) && b.present
  }

  class World {
    const width: int
    const height: int
    var balls: seq<Ball>
    var evilCircle: EvilCircle?

    /** The collection never exceeds the population, every ball is well
        formed, and the evil circle, once created, keeps its step, its radius,
        its white colour and its `exists` flag. */
    ghost predicate Valid()
      reads this, evilCircle
    {
      && |balls| <= NumberOfBalls
      && (forall i :: 0 <= i < |balls| ==> WellFormed(balls[i]))
      && (evilCircle != null ==>
            && evilCircle.velX == EvilCircleHorizontalSpeed
            && evilCircle.velY == EvilCircleVerticalSpeed
            && evilCircle.size == EvilCircleSize
            && evilCircle.color == White
            && evilCircle.present)
    }

    /** Start-up: an empty collection and no evil circle yet. */
    constructor (width: int, height: int)
      ensures this.width == width && this.height == height
      ensures balls == [] && evilCircle == null
      ensures Valid()
    {
      this.width := width;
      this.height := height;
      balls := [];
      evilCircle := null;
    }

    /** `collisionDetect` run by ball `k` (the loop skips `k` itself, the
        one index where `this == balls[i]`). */
    method CollisionDetect(k: nat, palette: Palette)
      requires k < |balls|
      modifies this`balls
      ensures balls == CollisionScan(old(balls), k, palette)
    {
      var i := 0;
      while i < |balls|
        invariant i <= |balls| == |old(balls)|
        invariant balls == ScanTo(old(balls), k, palette, i)
      {
        if i != k {
          var self, ball := balls[k], balls[i];
          if Touch(self, ball) {
            self := self.(velX := -self.velX);
            self := self.(velY := -self.velY);
            ball := ball.(velX := -ball.velX);
            ball := ball.(velY := -ball.velY);
            ball := ball.(color := palette(k, i));
            balls := balls[k := self][i := ball];
          }
        }
        i := i + 1;
      }
    }

    /** `update` of ball `k`: its collision scan, then the wall response and
        the move, field by field. */
    method UpdateBall(k: nat, palette: Palette)
      requires k < |balls|
      modifies this`balls
      ensures balls == StepBall(old(balls), k, palette, width, height)
    {
      CollisionDetect(k, palette);
      var status := CheckBounds(balls[k].x, balls[k].y, balls[k].size, width, height);
      if status.hitsLeftWall || status.hitsRightWall {
        balls := balls[k := balls[k].(velX := -balls[k].velX)];
      }
      if status.hitsTopWall || status.hitsBottomWall {
        balls := balls[k := balls[k].(velY := -balls[k].velY)];
      }
      balls := balls[k := balls[k].(x := balls[k].x + balls[k].velX)];
      balls := balls[k := balls[k].(y := balls[k].y + balls[k].velY)];
    }

    /** The population top-up: appends new balls at the end until there are
        `NumberOfBalls`; existing balls are untouched. */
    method TopUp()
      modifies this`balls
      ensures |balls| == if |old(balls)| < NumberOfBalls then NumberOfBalls else |old(balls)|
      ensures balls[..|old(balls)|] == old(balls)
      ensures AllSpawned(balls[|old(balls)|..], width, height)
    {
      while |balls| < NumberOfBalls
        invariant |old(balls)| <= |balls|
        invariant |old(balls)| < NumberOfBalls ==> |balls| <= NumberOfBalls
        invariant NumberOfBalls <= |old(balls)| ==> balls == old(balls)
        invariant balls[..|old(balls)|] == old(balls)
        invariant AllSpawned(balls[|old(balls)|..], width, height)
      {
        var x := Random(20, width);
        var y := Random(20, height);
        var velX := Random(-7, 7);
        var velY := Random(-7, 7);
        var color := RandomColor();
        var size := Random(10, 20);
        balls := balls + [Ball(x, y, velX, velY, color, size, true)];
      }
    }

    /** The frame's update loop: `update` on every index in order, whatever
        the ball's `exists` flag. */
    method UpdateAll(palette: Palette)
      modifies this`balls
      ensures balls == UpdateUpTo(old(balls), palette, width, height, |old(balls)|)
    {
      var i := 0;
      while i < |balls|
        invariant i <= |balls| == |old(balls)|
        invariant balls == UpdateUpTo(old(balls), palette, width, height, i)
      {
        UpdateBall(i, palette);
        i := i + 1;
      }
    }

    /** One animation frame: top the population up, update every ball, and
        create the evil circle if there is none yet (drawing is not part of
        this model). */
    method Loop(palette: Palette)
      requires Valid() && PaletteIsRandom(palette)
      modifies this
      ensures Valid()
      ensures |balls| == NumberOfBalls
      ensures exists added :: AllSpawned(added, width, height) &&
                |old(balls)| + |added| == NumberOfBalls &&
                balls == UpdateUpTo(old(balls) + added, palette, width, height, NumberOfBalls)
      ensures old(evilCircle) != null ==> evilCircle == old(evilCircle)
      ensures evilCircle != null
      ensures old(evilCircle) == null ==>
                fresh(evilCircle) && evilCircle.present &&
                InRandomRange(evilCircle.x, 0, width) && InRandomRange(evilCircle.y, 0, height)
    {
      TopUp();
      ghost var grown := balls;
      assert grown == old(balls) + grown[|old(balls)|..];
      UpdateAll(palette);
      UpdateUpToKeeps(grown, palette, width, height, |grown|);
      forall i | 0 <= i < |balls|
        ensures WellFormed(balls[i])
      {
        if i >= |old(balls)| {
          assert Spawned(grown[|old(balls)|..][i - |old(balls)|], width, height);
        }
      }
      if evilCircle == null {
        var x := Random(0, width);
        var y := Random(0, height);
        evilCircle := new EvilCircle(x, y, true);
      }
    }

    /** The window's key-down handler, installed with the evil circle: before
        the first frame there is none, and a key press does nothing. */
    method OnKeyDown(keyCode: int)
      requires Valid()
      modifies evilCircle
      ensures Valid()
      ensures evilCircle != null ==>
                evilCircle.color == old(evilCircle.color) && evilCircle.present == old(evilCircle.present)
      ensures evilCircle != null ==>
                evilCircle.Center() ==
                  Clamp(KeyMove(old(evilCircle.Center()), EvilCircleHorizontalSpeed, EvilCircleVerticalSpeed, keyCode),
                        EvilCircleSize, width, height)
    {
      if evilCircle != null {
        evilCircle.KeyDown(keyCode, width, height);
      }
    }
  }
}
