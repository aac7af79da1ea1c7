/** The player's evil circle: a shape moved only by arrow keys, a fixed step
    at a time, and clamped onto the canvas instead of bouncing off its
    walls. */
module EvilCircles {
  import opened Geometry

  const EvilCircleHorizontalSpeed := 20
  const EvilCircleVerticalSpeed := 20
  const EvilCircleSize := 10

  const KeyLeft := 37
  const KeyTop := 38
  const KeyRight := 39
  const KeyBottom := 40

  /** The centre of a shape. */
  datatype Position = Position(x: int, y: int)

  /** `update` of the evil circle: the walls are classified once, at the
      position on entry; a coordinate whose low wall is hit is set to
      `size`, then one whose high wall is hit to `extent - size`, so the high
      wall wins when a circle wider than the canvas hits both. */
  function Clamp(p: Position, size: int, width: int, height: int): (r: Position)
    ensures r.x == if width - size <= p.x then width - size else if p.x <= size then size else p.x
    ensures r.y == if height - size <= p.y then height - size else if p.y <= size then size else p.y
  {
    var status := CheckBounds(p.x, p.y, size, width, height);
    var x := if status.hitsLeftWall then size else p.x;
    var x := if status.hitsRightWall then width - size else x;
    var y := if status.hitsTopWall then size else p.y;
    var y := if status.hitsBottomWall then height - size else y;
    Position(x, y)
  }

  /** The key handler's move: left and up subtract the step, right and down
      add it, every other key code leaves the position alone. */
  function KeyMove(p: Position, velX: int, velY: int, keyCode: int): (r: Position)
    ensures r.x - p.x == if keyCode == KeyLeft then -velX else if keyCode == KeyRight then velX else 0
    ensures r.y - p.y == if keyCode == KeyTop then -velY else if keyCode == KeyBottom then velY else 0
  {
    if keyCode == KeyLeft then p.(x := p.x - velX)
    else if keyCode == KeyTop then p.(y := p.y - velY)
    else if keyCode == KeyRight then p.(x := p.x + velX)
    else if keyCode == KeyBottom then p.(y := p.y + velY)
    else p
  }

  /** The circle lies on the canvas: each coordinate at least one radius from
      both of its edges. */
  predicate OnCanvas(p: Position, size: int, width: int, height: int)
  {
    size <= p.x <= width - size && size <= p.y <= height - size
  }

  /** On a canvas wider and taller than the circle, the clamp always puts the
      circle on the canvas. */
  lemma ClampWithinWalls(p: Position, size: int, width: int, height: int)
    requires 2 * size < width && 2 * size < height
    ensures OnCanvas(Clamp(p, size, width, height), size, width, height)
  {
  }

  /** A coordinate whose axis has no wall hit is left unchanged; one whose
      axis has a wall hit is set onto an edge position. */
  lemma ClampKeepsFreeAxis(p: Position, size: int, width: int, height: int)
    ensures var status := CheckBounds(p.x, p.y, size, width, height);
      var r := Clamp(p, size, width, height);
      (!status.HitsVertical() ==> r.x == p.x) &&
      (!status.HitsHorizontal() ==> r.y == p.y) &&
      (status.HitsVertical() ==> r.x == size || r.x == width - size) &&
      (status.HitsHorizontal() ==> r.y == size || r.y == height - size)
  {
  }

  /** A circle already on the canvas is a fixed point of the clamp (one
      touching an edge is set back onto that same edge). */
  lemma ClampFixesOnCanvas(p: Position, size: int, width: int, height: int)
    requires OnCanvas(p, size, width, height)
    ensures Clamp(p, size, width, height) == p
  {
  }

  /** Clamping twice is clamping once. */
  lemma ClampIdempotent(p: Position, size: int, width: int, height: int)
    requires 2 * size < width && 2 * size < height
    ensures Clamp(Clamp(p, size, width, height), size, width, height) == Clamp(p, size, width, height)
  {
    ClampWithinWalls(p, size, width, height);
    ClampFixesOnCanvas(Clamp(p, size, width, height), size, width, height);
  }

  /** From a position on the canvas, one key press of the evil circle (step
      20, radius 10) moves it by the step along the key's axis, stopping at
      the edge it runs into; the other coordinate, and the whole position for
      a non-arrow key, stay put. */
  lemma KeyPressFromCanvas(p: Position, keyCode: int, width: int, height: int)
    requires 2 * EvilCircleSize < width && 2 * EvilCircleSize < height
    requires OnCanvas(p, EvilCircleSize, width, height)
    ensures var r := Clamp(KeyMove(p, EvilCircleHorizontalSpeed, EvilCircleVerticalSpeed, keyCode),
                           EvilCircleSize, width, height);
      var lo, step := EvilCircleSize, EvilCircleHorizontalSpeed;
      r == if keyCode == KeyLeft then p.(x := if p.x - step <= lo then lo else p.x - step)
           else if keyCode == KeyTop then p.(y := if p.y - step <= lo then lo else p.y - step)
           else if keyCode == KeyRight then p.(x := if p.x + step >= width - lo then width - lo else p.x + step)
           else if keyCode == KeyBottom then p.(y := if p.y + step >= height - lo then height - lo else p.y + step)
           else p
  {
  }

  /** The evil circle. Its velocity is the fixed per-key-press step; it never
      moves on its own. */
  class EvilCircle {
    var x: int
    var y: int
    var velX: int
    var velY: int
    var present: bool
    var color: Color
    var size: int

    /** `new EvilCircle(x, y, exists)`: white, radius 10, step 20 on each axis. */
    constructor (x: int, y: int, present: bool)
      ensures this.x == x && this.y == y && this.present == present
      ensures velX == EvilCircleHorizontalSpeed && velY == EvilCircleVerticalSpeed
      ensures color == White && size == EvilCircleSize
    {
      this.x := x;
      this.y := y;
      velX := EvilCircleHorizontalSpeed;
      velY := EvilCircleVerticalSpeed;
      this.present := present;
      color := White;
      size := EvilCircleSize;
    }

    /** The centre of the circle. */
    function Center(): Position
      reads this
    {
      Position(x, y)
    }

    /** `update`: clamps the centre onto the canvas; nothing but the position
        changes, so the velocity is never reflected. */
    method Update(width: int, height: int)
      modifies this
      ensures Center() == Clamp(old(Center()), size, width, height)
      ensures velX == old(velX) && velY == old(velY) && size == old(size)
      ensures color == old(color) && present == old(present)
    {
      var status := CheckBounds(x, y, size, width, height);
      if status.hitsLeftWall {
        x := size;
      }
      if status.hitsRightWall {
        x := width - size;
      }
      if status.hitsTopWall {
        y := size;
      }
      if status.hitsBottomWall {
        y := height - size;
      }
    }

    /** The key-down handler installed by `setControls`: steps the centre for
        an arrow key, then clamps it, whatever the key. */
    method KeyDown(keyCode: int, width: int, height: int)
      modifies this
      ensures Center() == Clamp(KeyMove(old(Center()), velX, velY, keyCode), size, width, height)
      ensures velX == old(velX) && velY == old(velY) && size == old(size)
      ensures color == old(color) && present == old(present)
    {
      if keyCode == KeyLeft {
        x := x - velX;
      } else if keyCode == KeyTop {
        y := y - velY;
      } else if keyCode == KeyRight {
        x := x + velX;
      } else if keyCode == KeyBottom {
        y := y + velY;
      }
      Update(width, height);
    }
  }
}
