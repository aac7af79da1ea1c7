/** The bouncing balls as values: one ball record, the collision scan that a
    ball runs against the shared collection, its wall bounce and move, and
    one frame's pass that updates every ball in index order. The class
    `Simulation.World` performs these steps in place; the functions here are
    what its methods are proved against. */
module Balls {
  import opened Geometry

  /** A ball: a shape (position, velocity, existence flag) with a colour and
      a radius. `present` is the source's `exists` flag: stored, never read. */
  datatype Ball = Ball(x: int, y: int, velX: int, velY: int, color: Color, size: int, present: bool)

  /** The colour `getRandomColor` yields when the scan run by ball `k`
      recolours ball `i`; every call of `getRandomColor` in one frame is
      answered by this oracle. */
  type Palette = (nat, nat) -> Color

  /** Every answer of the palette is one `getRandomColor` can give. */
  ghost predicate PaletteIsRandom(palette: Palette)
  {
    forall k: nat, i: nat :: IsRandomColor(palette(k, i))
  }

  /** Two balls collide when their centres are at most the sum of their
      radii apart; the test gives the same answer from either ball's side. */
  predicate Touch(self: Ball, other: Ball): (t: bool)
    ensures t <==> WithinReach(other.x, other.y, self.x, self.y, other.size + self.size)
  {
    WithinReach(self.x, self.y, other.x, other.y, self.size + other.size)
  }

  /** Whether a ball touches another depends only on its position and size. */
  lemma TouchSamePlacement(a: Ball, a': Ball, b: Ball)
    requires a.x == a'.x && a.y == a'.y && a.size == a'.size
    ensures Touch(a, b) == Touch(a', b)
  {
  }

  /** Contact includes the boundary: two balls on one row whose centres are
      exactly the sum of their radii apart touch, and one unit further apart
      they do not. */
  lemma TouchAtExactReach(a: Ball, b: Ball)
    requires a.y == b.y && 0 <= a.size + b.size && b.x - a.x == a.size + b.size
    ensures Touch(a, b)
    ensures !Touch(a, b.(x := b.x + 1))
  {
    var r := a.size + b.size;
    assert r * r < (r + 1) * (r + 1);
  }

  /** Both velocity components negated; nothing else changes, and reversing
      again gives the ball back. */
  function Reverse(b: Ball): (r: Ball)
    ensures r.x == b.x && r.y == b.y && r.size == b.size && r.color == b.color && r.present == b.present
    ensures r.velX == -b.velX && r.velY == -b.velY
    ensures r.(velX := -r.velX, velY := -r.velY) == b
  {
    b.(velX := -b.velX, velY := -b.velY)
  }

  /** The collection after the scan run by ball `k` has visited indices
      `0 .. n-1`: at each index other than `k` whose ball it touches, both
      balls reverse and the other ball takes a new colour. */
  function ScanTo(bs: seq<Ball>, k: nat, palette: Palette, n: nat): (r: seq<Ball>)
    requires k < |bs| && n <= |bs|
    ensures |r| == |bs|
  {
    if n == 0 then bs else ScanStep(ScanTo(bs, k, palette, n - 1), k, palette, n - 1)
  }

  /** One iteration of the scan run by ball `k`, at index `i`. */
  function ScanStep(s: seq<Ball>, k: nat, palette: Palette, i: nat): (r: seq<Ball>)
    requires k < |s| && i < |s|
    ensures |r| == |s|
  {
    if i == k || !Touch(s[k], s[i]) then s
    else s[k := Reverse(s[k])][i := Reverse(s[i]).(color := palette(k, i))]
  }

  /** One iteration, ball by ball. */
  lemma ScanStepAt(s: seq<Ball>, k: nat, palette: Palette, i: nat, j: nat)
    requires k < |s| && i < |s| && j < |s|
    ensures var hit := i != k && Touch(s[k], s[i]);
      ScanStep(s, k, palette, i)[j] ==
        if hit && j == k then Reverse(s[k])
        else if hit && j == i then Reverse(s[i]).(color := palette(k, i))
        else s[j]
  {
  }

  /** The complete scan of `collisionDetect` run by ball `k`. */
  function CollisionScan(bs: seq<Ball>, k: nat, palette: Palette): (r: seq<Ball>)
    requires k < |bs|
    ensures |r| == |bs|
  {
    ScanTo(bs, k, palette, |bs|)
  }

  /** How many balls among indices `0 .. n-1`, other than `k` itself, ball
      `k` touches. */
  function Contacts(bs: seq<Ball>, k: nat, n: nat): nat
    requires k < |bs| && n <= |bs|
  {
    if n == 0 then 0
    else Contacts(bs, k, n - 1) + (if n - 1 != k && Touch(bs[k], bs[n - 1]) then 1 else 0)
  }

  /** A ball reversed `count` times over. */
  function ReverseTimes(b: Ball, count: nat): Ball
  {
    if count == 0 then b else Reverse(ReverseTimes(b, count - 1))
  }

  /** Reversing twice restores a ball, so only the parity of the count
      matters. */
  lemma {:induction false} ReverseTimesParity(b: Ball, count: nat)
    ensures ReverseTimes(b, count) == if count % 2 == 1 then Reverse(b) else b
  {
    if count > 1 {
      ReverseTimesParity(b, count - 2);
    }
  }

  /** No prefix of the scan moves a ball or changes its size or `exists`
      flag: the scan only writes velocities and colours. */
  lemma {:induction false} ScanToKeepsPlacement(bs: seq<Ball>, k: nat, palette: Palette, n: nat, j: nat)
    requires k < |bs| && n <= |bs| && j < |bs|
    ensures var r := ScanTo(bs, k, palette, n);
      r[j].x == bs[j].x && r[j].y == bs[j].y && r[j].size == bs[j].size && r[j].present == bs[j].present
  {
    if n > 0 {
      ScanToKeepsPlacement(bs, k, palette, n - 1, j);
      ScanStepAt(ScanTo(bs, k, palette, n - 1), k, palette, n - 1, j);
    }
  }

  /** The scan in closed form for a ball other than the scanning one.
      Positions and sizes never change during the scan, so whether ball `j`
      collides depends only on the original collection: a touched ball is
      reversed exactly once and recoloured once its index has been visited;
      any other ball is as it was. */
  lemma {:induction false} ScanToOther(bs: seq<Ball>, k: nat, palette: Palette, n: nat, j: nat)
    requires k < |bs| && n <= |bs| && j < |bs| && j != k
    ensures ScanTo(bs, k, palette, n)[j] ==
              if j < n && Touch(bs[k], bs[j]) then Reverse(bs[j]).(color := palette(k, j)) else bs[j]
  {
    if n > 0 {
      var s := ScanTo(bs, k, palette, n - 1);
      var i := n - 1;
      ScanToOther(bs, k, palette, n - 1, j);
      ScanStepAt(s, k, palette, i, j);
      if i != k {
        ScanToOther(bs, k, palette, n - 1, i);
        ScanToKeepsPlacement(bs, k, palette, n - 1, k);
        TouchSamePlacement(s[k], bs[k], bs[i]);
      }
    }
  }

  /** The scan in closed form for the scanning ball: it is reversed once per
      contact among the indices visited so far, and keeps its colour. */
  lemma {:induction false} ScanToSelf(bs: seq<Ball>, k: nat, palette: Palette, n: nat)
    requires k < |bs| && n <= |bs|
    ensures ScanTo(bs, k, palette, n)[k] == ReverseTimes(bs[k], Contacts(bs, k, n))
  {
    if n > 0 {
      var s := ScanTo(bs, k, palette, n - 1);
      var i := n - 1;
      ScanToSelf(bs, k, palette, n - 1);
      ScanStepAt(s, k, palette, i, k);
      if i != k {
        ScanToOther(bs, k, palette, n - 1, i);
        ScanToKeepsPlacement(bs, k, palette, n - 1, k);
        TouchSamePlacement(s[k], bs[k], bs[i]);
      }
    }
  }

  /** `collisionDetect` moves nothing: positions, sizes and existence flags of
      every ball, and the length of the collection, are as before. */
  lemma CollisionKeepsPlacement(bs: seq<Ball>, k: nat, palette: Palette)
    requires k < |bs|
    ensures var r := CollisionScan(bs, k, palette);
      |r| == |bs| &&
      forall i :: 0 <= i < |bs| ==>
        r[i].x == bs[i].x && r[i].y == bs[i].y && r[i].size == bs[i].size && r[i].present == bs[i].present
  {
    forall i | 0 <= i < |bs| {
      ScanToKeepsPlacement(bs, k, palette, |bs|, i);
    }
  }

  /** The scanning ball keeps its colour and ends with its velocity negated
      exactly when it touches an odd number of other balls. */
  lemma CollisionSelfParity(bs: seq<Ball>, k: nat, palette: Palette)
    requires k < |bs|
    ensures var r := CollisionScan(bs, k, palette);
      var odd := Contacts(bs, k, |bs|) % 2 == 1;
      r[k].velX == (if odd then -bs[k].velX else bs[k].velX) &&
      r[k].velY == (if odd then -bs[k].velY else bs[k].velY) &&
      r[k].color == bs[k].color
  {
    ScanToSelf(bs, k, palette, |bs|);
    ReverseTimesParity(bs[k], Contacts(bs, k, |bs|));
  }

  /** Every other ball within reach is reversed exactly once and recoloured;
      every ball out of reach is left exactly as it was. */
  lemma CollisionOthers(bs: seq<Ball>, k: nat, palette: Palette, i: nat)
    requires k < |bs| && i < |bs| && i != k
    ensures var r := CollisionScan(bs, k, palette);
      (Touch(bs[k], bs[i]) ==>
        r[i].velX == -bs[i].velX && r[i].velY == -bs[i].velY && r[i].color == palette(k, i)) &&
      (!Touch(bs[k], bs[i]) ==> r[i] == bs[i])
  {
    ScanToOther(bs, k, palette, |bs|, i);
  }

  /** The wall response and move of `update` for one ball: a velocity
      component is negated when the ball reaches a wall across its axis, and
      then the position advances by the resulting velocity. */
  function Bounce(b: Ball, width: int, height: int): (r: Ball)
    ensures r.x - b.x == r.velX && r.y - b.y == r.velY
    ensures r.velX == if b.x <= b.size || width - b.size <= b.x then -b.velX else b.velX
    ensures r.velY == if b.y <= b.size || height - b.size <= b.y then -b.velY else b.velY
    ensures r.color == b.color && r.size == b.size && r.present == b.present
  {
    var status := CheckBounds(b.x, b.y, b.size, width, height);
    var velX := if status.HitsVertical() then -b.velX else b.velX;
    var velY := if status.HitsHorizontal() then -b.velY else b.velY;
    b.(velX := velX, velY := velY, x := b.x + velX, y := b.y + velY)
  }

  /** A ball clear of every wall keeps its velocity and advances by it. */
  lemma FreeFlight(b: Ball, width: int, height: int)
    requires b.size < b.x < width - b.size && b.size < b.y < height - b.size
    ensures Bounce(b, width, height) == b.(x := b.x + b.velX, y := b.y + b.velY)
  {
  }

  /** A ball two units short of the right wall, moving right at 3 per frame
      along a clear row, passes the edge on the first frame and turns back on
      the second, ending where it started with its horizontal velocity
      negated. */
  lemma TurnsAtRightWall(b: Ball, width: int, height: int)
    requires b.x == width - b.size - 2 && b.velX == 3 && b.velY == 0
    requires 0 <= b.size && 2 * b.size + 2 < width && b.size < b.y < height - b.size
    ensures Bounce(b, width, height).x == width - b.size + 1
    ensures Bounce(b, width, height).velX == 3
    ensures Bounce(Bounce(b, width, height), width, height) == b.(velX := -3)
  {
  }

  /** `update` of ball `k`: its collision scan, then its bounce and move. */
  function StepBall(bs: seq<Ball>, k: nat, palette: Palette, width: int, height: int): (r: seq<Ball>)
    requires k < |bs|
    ensures |r| == |bs|
  {
    var s := CollisionScan(bs, k, palette);
    s[k := Bounce(s[k], width, height)]
  }

  /** The collection after the frame's loop has updated balls `0 .. n-1`;
      ball `n-1` starts from the velocities and colours the earlier updates
      left behind. */
  function UpdateUpTo(bs: seq<Ball>, palette: Palette, width: int, height: int, n: nat): (r: seq<Ball>)
    requires n <= |bs|
    ensures |r| == |bs|
  {
    if n == 0 then bs
    else StepBall(UpdateUpTo(bs, palette, width, height, n - 1), n - 1, palette, width, height)
  }

  /** What no part of a frame changes about a ball: its radius, its
      existence flag and the magnitude of each velocity component; a colour
      drawn from `getRandomColor` stays one. */
  ghost predicate Kept(before: Ball, after: Ball)
  {
    && after.size == before.size
    && after.present == before.present
    && (after.velX == before.velX || after.velX == -before.velX)
    && (after.velY == before.velY || after.velY == -before.velY)
    && (IsRandomColor(before.color) ==> IsRandomColor(after.color))
  }

  /** One ball's update keeps every ball's radius, existence flag and speeds. */
  lemma StepBallKeeps(bs: seq<Ball>, k: nat, palette: Palette, width: int, height: int)
    requires k < |bs| && PaletteIsRandom(palette)
    ensures forall i :: 0 <= i < |bs| ==> Kept(bs[i], StepBall(bs, k, palette, width, height)[i])
  {
    ScanToSelf(bs, k, palette, |bs|);
    ReverseTimesParity(bs[k], Contacts(bs, k, |bs|));
    forall i | 0 <= i < |bs| && i != k {
      ScanToOther(bs, k, palette, |bs|, i);
    }
  }

  /** A whole frame's update pass keeps every ball's radius, existence flag
      and speeds, whatever the collisions and bounces along the way. */
  lemma {:induction false} UpdateUpToKeeps(bs: seq<Ball>, palette: Palette, width: int, height: int, n: nat)
    requires n <= |bs| && PaletteIsRandom(palette)
    ensures forall i :: 0 <= i < |bs| ==> Kept(bs[i], UpdateUpTo(bs, palette, width, height, n)[i])
  {
    if n > 0 {
      var s := UpdateUpTo(bs, palette, width, height, n - 1);
      UpdateUpToKeeps(bs, palette, width, height, n - 1);
      StepBallKeeps(s, n - 1, palette, width, height);
    }
  }
}
