# Bouncing balls: a verified model of the physics step

The program is a canvas animation. Ten coloured balls bounce around a
`width` by `height` canvas, and the arrow keys move a white "evil circle".
Each frame does three things. It tops the ball collection up to ten balls.
It updates every ball in index order. It creates the evil circle on the first frame.
A ball's update has three steps:

1. A collision scan over the whole shared collection. Whenever this ball and
   another one touch, both reverse both velocity components, and the other
   ball gets a new random colour.
2. A wall response. A velocity component is negated when the ball reaches a
   wall across that axis.
3. A move by the resulting velocity.

The evil circle never moves on its own. Each arrow key moves it by a fixed
step of 20. It is then clamped onto the canvas; it does not bounce.

The model has four modules:

- `Geometry` (`geometry.dfy`): the wall classification `checkBounds`. It also
  holds the distance test of `getDistance` in squared integer form, and
  `random` and `getRandomColor`, given as nondeterministic methods with their
  exact ranges.
- `Balls` (`balls.dfy`): the ball record and the specification functions for
  one collision scan (`ScanTo`, `CollisionScan`), one ball update
  (`StepBall`) and the frame's update pass (`UpdateUpTo`). The lemmas give
  their effect in closed form and the invariants a frame keeps.
- `EvilCircles` (`evil_circle.dfy`): the `EvilCircle` class with its clamp
  (`Update`) and its key handler (`KeyDown`). Both are proved against the
  functions `Clamp` and `KeyMove`, and lemmas give the properties of those
  functions.
- `Simulation` (`simulation.dfy`): the class `World`. It holds the ball
  collection as a `seq` field that its methods reassign in place. It also
  holds the evil circle and the canvas size. Its methods are
  `CollisionDetect`, `UpdateBall`, `TopUp`, `UpdateAll`, the frame `Loop` and
  the key handler `OnKeyDown`. Each is proved against the `Balls` and
  `EvilCircles` functions, and `Valid()` states the invariant every frame
  keeps.

All quantities are integers. The program only ever adds integers drawn by
`random` to integers, so it never produces anything else. Two balls touch
when `getDistance(...) <= r1 + r2`. The model writes this as
`dx*dx + dy*dy <= (r1 + r2)^2`, guarded by `0 <= r1 + r2`, since a square
root is never negative. `Geometry.WithinReachIsDistanceTest` proves that
this agrees with the real-valued distance comparison.

The random colours that `collisionDetect` assigns come from a `Palette`
oracle. `palette(k, i)` is the colour that ball `k`'s scan gives ball `i`.
Each scan recolours a ball at most once, so an oracle indexed this way
covers every run.

The program's documented design describes three behaviours that `main.js`
does not implement. The model follows `main.js`:

- No code eliminates balls on contact with the evil circle.
- There is no population counter.
- Neither `collisionDetect` nor the frame loop reads a ball's `exists` flag.
  Every ball is updated, and every pair is checked.

Because nothing ever clears `exists`, `World.Valid()` states that every ball
keeps it set.

## Model

| member | source | states |
|---|---|---|
| `Geometry.CheckBounds` | main.js:136-147 | four independent flags, each inclusive of its edge: left iff `x <= size`, right iff `width - size <= x`, top iff `y <= size`, bottom iff `height - size <= y` |
| `Geometry.CheckBoundsEdges` | main.js:137-140 | a circle exactly one radius from an edge hits it, and one unit further in does not; opposite corners raise two flags at once |
| `Geometry.WithinReach` | main.js:153-155 | the squared form of `getDistance(...) <= reach`, checked at main.js:201-205 and 155; it never holds for a negative reach, and centres within reach are at most `reach` apart on each axis |
| `Geometry.WithinReachIsDistanceTest` | main.js:153-155 | for the real Euclidean distance `d` between the centres, the squared integer test holds iff `d <= r1 + r2` |
| `Geometry.Random` | main.js:207-210 | the result lies in `[lo, hi)` when `lo < hi`, and in `[hi, lo]` otherwise, as `Math.floor(u*(hi-lo)) + lo` with `0 <= u < 1` gives |
| `Geometry.RandomColor` | main.js:212-216 | an `rgb` colour whose three channels each lie in `[0, 255)` |
| `Balls.Touch` | main.js:153-155 | two balls touch when their centres are within the sum of their radii; the answer is the same when the other ball runs the test |
| `Balls.Reverse` | main.js:156-159 | both velocity components are negated and nothing else changes; reversing again restores the ball |
| `Balls.ScanTo` | main.js:150-162 | any prefix of the collision scan keeps the collection's length |
| `Balls.CollisionScan` | main.js:149-163 | the full collision scan keeps the collection's length |
| `Balls.ScanStep` | main.js:151-161 | one iteration of the scan keeps the collection's length |
| `Balls.ScanStepAt` | main.js:151-161 | one iteration at index `i`: when `i` is not the scanning ball `k` and the two touch, ball `k` is reversed, ball `i` is reversed and takes the palette colour, and every other ball is unchanged; otherwise nothing changes |
| `Balls.TouchSamePlacement` | main.js:153-155 | whether two balls touch depends only on their positions and sizes, not on velocity or colour |
| `Balls.TouchAtExactReach` | main.js:153-155 | two balls on one row whose centres are exactly `r1 + r2` apart touch; one unit further apart along the row they do not |
| `Balls.ReverseTimesParity` | main.js:156-157 | negating both velocity components `c` times equals negating them once when `c` is odd and not at all when `c` is even |
| `Balls.ScanToKeepsPlacement` | main.js:149-163 | no prefix of the scan changes any ball's position, size or `exists` flag |
| `Balls.ScanToOther` | main.js:149-163 | after the scan has visited `0..n-1`, each other ball it touched is reversed exactly once and takes the palette colour; every other ball is unchanged |
| `Balls.ScanToSelf` | main.js:149-163 | after the scan has visited `0..n-1`, the scanning ball is reversed once per other ball it touches among them |
| `Balls.CollisionKeepsPlacement` | main.js:149-163 | the scan changes no ball's position, size or `exists` flag, and not the collection's length |
| `Balls.CollisionSelfParity` | main.js:155-157 | the scanning ball keeps its colour; its velocity is negated when it touches an odd number of other balls and unchanged when the number is even |
| `Balls.CollisionOthers` | main.js:155-160 | another ball within reach has both velocity components negated exactly once and takes the new colour; one out of reach is left exactly as it was |
| `Balls.Bounce` | main.js:104-112 | `velX` is negated exactly when `x <= size` or `width - size <= x` (a left or right wall is hit) and kept otherwise; `velY` likewise with `y` and `height`; the ball then moves by its final velocity; colour, size and `exists` are unchanged |
| `Balls.FreeFlight` | main.js:104-112 | a ball clear of every wall keeps its velocity and advances by it |
| `Balls.TurnsAtRightWall` | main.js:102-113 | a ball 2 units short of the right wall moving at 3 passes the edge on frame one; it turns on frame two and returns to its start with velocity -3 |
| `Balls.StepBall` | main.js:102-113 | one ball's update keeps the collection's length |
| `Balls.UpdateUpTo` | main.js:50-53 | the frame's update pass over balls `0..n-1`, each starting from what the earlier updates left, keeps the collection's length |
| `Balls.StepBallKeeps` | main.js:102-113 | one ball's update keeps every ball's size, `exists` flag and speed per axis, and keeps a random colour a random colour |
| `Balls.UpdateUpToKeeps` | main.js:50-53 | a whole frame's update pass keeps every ball's size, `exists` flag and speed per axis, and keeps a random colour a random colour |
| `EvilCircles.Clamp` | main.js:115-134 | `x` becomes `width - size` when `width - size <= x`, else `size` when `x <= size`, else stays (the right wall wins when both are hit); `y` likewise with `height` |
| `EvilCircles.KeyMove` | main.js:180-194 | key 37 moves `x` by `-velX`, 39 by `+velX`, 38 moves `y` by `-velY`, 40 by `+velY`; every other key moves nothing |
| `EvilCircles.ClampWithinWalls` | main.js:115-134 | on a canvas wider and taller than the circle's diameter, the clamp leaves `size <= x <= width - size` and `size <= y <= height - size` |
| `EvilCircles.ClampKeepsFreeAxis` | main.js:115-134 | a coordinate with no wall hit on its axis is unchanged; a coordinate whose axis has a wall hit becomes `size` or `extent - size` |
| `EvilCircles.ClampFixesOnCanvas` | main.js:115-134 | a circle already on the canvas, whatever the canvas size, is not moved by the clamp |
| `EvilCircles.ClampIdempotent` | main.js:115-134 | on a canvas wider and taller than the circle's diameter, clamping twice equals clamping once |
| `EvilCircles.KeyPressFromCanvas` | main.js:179-196 | from a position on the canvas, key 37 moves left by 20, 38 moves up, 39 moves right and 40 moves down, each stopping at the edge it runs into; any other key leaves the position unchanged |
| `EvilCircles.EvilCircle.constructor` | main.js:87-93 | a new evil circle has step 20 on both axes, radius 10 and colour white |
| `EvilCircles.EvilCircle.Update` | main.js:115-134 | the centre becomes `Clamp` of the old centre; velocity, size, colour and `exists` are unchanged, so the circle never bounces |
| `EvilCircles.EvilCircle.KeyDown` | main.js:179-196 | the centre becomes the clamp of the key move; the velocity is never modified |
| `Simulation.World.constructor` | main.js:12-16 | start with an empty collection and no evil circle |
| `Simulation.Spawned` | main.js:38-46 | a new ball draws its position from `random(20, width)` and `random(20, height)`, each velocity component from `random(-7, 7)`, its radius from `random(10, 20)` and a random colour, with `exists` set; such a ball is well formed |
| `Simulation.World.CollisionDetect` | main.js:149-163 | the in-place scan leaves the collection equal to `CollisionScan` of the old one |
| `Simulation.World.UpdateBall` | main.js:102-113 | the in-place update leaves the collection equal to `StepBall` of the old one |
| `Simulation.World.TopUp` | main.js:37-48 | the new length is `max(old length, 10)`; the old entries are untouched; every appended ball is as `Spawned` describes (ranges of `random`, `exists` set) |
| `Simulation.World.UpdateAll` | main.js:50-53 | the collection becomes `UpdateUpTo` of the old one over every index in order, whatever the `exists` flags |
| `Simulation.World.Loop` | main.js:33-67 | keeps `Valid()`; afterwards there are exactly 10 balls, equal to the update pass over the old ones plus freshly spawned ones; the evil circle is created once (white, with `exists` set, step 20 and radius 10, as `Valid()` states) and then kept |
| `Simulation.World.OnKeyDown` | main.js:173-197 | before the evil circle exists a key does nothing; afterwards its centre becomes the clamp of the key move with step 20 and radius 10, its colour and `exists` flag are unchanged, and `Valid()` (white, `exists` set, step 20, radius 10) is kept |

## Left out

- Drawing is not modelled: `drawBall`, `drawEvilCircle` and the translucent `fillRect` of each frame only paint the canvas.
- Acquiring the canvas and reading the window size are not modelled. `width` and `height` are constants fixed when a `World` is constructed.
- `requestAnimationFrame` and the `window.onkeydown` registration are not modelled. One call of `World.Loop` is one frame, and a key press is a call of `World.OnKeyDown`.
- The `console.log` calls in the evil circle's `update` are diagnostics and are not modelled.
- `random` is modelled by its exact integer range, not by `Math.random`. Floating-point rounding of `u * (hi - lo)` is not modelled.
- `getRandomColor` is modelled as a colour with three channels. Formatting the colour as a CSS `rgb(...)` string is not modelled.
- JavaScript numbers are doubles; the model uses unbounded integers. Positions and velocities in this program stay far below 2^53, where doubles stop being exact.
- Balls are JavaScript objects in a shared array; the model stores them as records in the collection. The skip `this == balls[i]` becomes an index test. This is exact because every ball is pushed as a new object exactly once. Aliasing of a ball object from outside the array is not captured.
- The prototype wiring is not modelled. `Ball` and `EvilCircle` share `checkBounds` as a function of position, size and canvas.
- The evil circle's elimination pass, the displayed population counter and the `exists` checks belong to the documented design but not to `main.js`, so the model has none of them.
