/** Canvas geometry shared by every shape: the wall test of a shape, the
    distance test between two circles, and the random draws that seed new
    balls and recolour them. */
module Geometry {

  /** The four wall flags of a shape. They are computed independently, so a
      shape in a corner (or one wider than the canvas) reports several. */
  datatype Walls = Walls(hitsLeftWall: bool, hitsRightWall: bool, hitsTopWall: bool, hitsBottomWall: bool)
  {
    /** The shape reaches the left or the right edge. */
    predicate HitsVertical() { hitsLeftWall || hitsRightWall }

    /** The shape reaches the top or the bottom edge. */
    predicate HitsHorizontal() { hitsTopWall || hitsBottomWall }
  }

  /** A CSS colour: either an `rgb(r,g,b)` string or the named colour `white`. */
  datatype Color = Rgb(red: int, green: int, blue: int) | White

  /** Classifies a circle of radius `size` centred at (x, y) against the
      edges of a `width` by `height` canvas; every test includes the edge. */
  function CheckBounds(x: int, y: int, size: int, width: int, height: int): (w: Walls)
    ensures w.hitsLeftWall <==> x <= size
    ensures w.hitsRightWall <==> width - size <= x
    ensures w.hitsTopWall <==> y <= size
    ensures w.hitsBottomWall <==> height - size <= y
  {
    Walls(x - size <= 0, x + size >= width, y - size <= 0, y + size >= height)
  }

  /** A circle exactly one radius away from an edge touches it; one unit
      further in, it does not. */
  lemma CheckBoundsEdges(r: int, width: int, height: int)
    requires 0 <= r && 2 * r + 2 < width && 2 * r + 2 < height
    ensures CheckBounds(r, r, r, width, height) == Walls(true, false, true, false)
    ensures CheckBounds(r + 1, r + 1, r, width, height) == Walls(false, false, false, false)
    ensures CheckBounds(width - r, height - r, r, width, height) == Walls(false, true, false, true)
    ensures CheckBounds(width - r - 1, height - r - 1, r, width, height) == Walls(false, false, false, false)
  {
  }

  /** The squared form of `getDistance(x1, y1, x2, y2) <= reach`: the centres
      are at most `reach` apart. A negative reach is never met, as no square
      root is negative; centres within reach are within `reach` on each axis. */
  predicate WithinReach(x1: int, y1: int, x2: int, y2: int, reach: int): (within: bool)
    ensures within ==> 0 <= reach && -reach <= x2 - x1 <= reach && -reach <= y2 - y1 <= reach
  {
    var dx := x2 - x1;
    var dy := y2 - y1;
    0 <= reach && dx * dx + dy * dy <= reach * reach
  }

  /** For any real `d` that is the Euclidean distance between the centres,
      comparing `d` with the reach decides the same as the squared test. */
  lemma WithinReachIsDistanceTest(x1: int, y1: int, x2: int, y2: int, reach: int, d: real)
    requires 0.0 <= d
    requires d * d == ((x2 - x1) * (x2 - x1) + (y2 - y1) * (y2 - y1)) as real
    ensures WithinReach(x1, y1, x2, y2, reach) <==> d <= reach as real
  {
    var s := reach as real;
    var sq := (x2 - x1) * (x2 - x1) + (y2 - y1) * (y2 - y1);
    assert (reach * reach) as real == s * s;
    if 0 <= reach {
      if d <= s {
        assert d * d <= d * s <= s * s;
        assert sq <= reach * reach;
      } else {
        assert sq as real == d * d;
        var gap, sum := d - s, d + s;
        assert 0.0 < gap && 0.0 < sum;
        assert 0.0 < gap * sum;
        assert gap * sum == d * d - s * s;
        assert (reach * reach) as real < sq as real;
      }
    }
  }

  /** The values `random(lo, hi)` can return: `Math.floor(u * (hi - lo)) + lo`
      with `0 <= u < 1` lies in [lo, hi) when lo < hi, and in [hi, lo]
      otherwise (just `lo` when the two are equal). */
  predicate InRandomRange(r: int, lo: int, hi: int)
  {
    if lo < hi then lo <= r < hi else hi <= r <= lo
  }

  /** `random(lo, hi)`: an arbitrary value of its range; the second ensures
      spells out the common case `lo < hi` that callers rely on. */
  method Random(lo: int, hi: int) returns (r: int)
    ensures InRandomRange(r, lo, hi)
    ensures lo < hi ==> lo <= r < hi
  {
    assert InRandomRange(lo, lo, hi);
    r :| InRandomRange(r, lo, hi);
  }

  /** The colours `getRandomColor` can produce: each channel from `random(0, 255)`. */
  predicate IsRandomColor(c: Color)
  {
    c.Rgb? && 0 <= c.red < 255 && 0 <= c.green < 255 && 0 <= c.blue < 255
  }

  /** `getRandomColor`: three channel draws. */
  method RandomColor() returns (c: Color)
    ensures IsRandomColor(c)
  {
    var red := Random(0, 255);
    var green := Random(0, 255);
    var blue := Random(0, 255);
    c := Rgb(red, green, blue);
  }
}
