# Falling-block game grid logic, in Dafny

A model of the grid logic of a small falling-block ("tetromino") game
written in JavaScript: shapes made of a position and a 0/1 pattern with
bounding-box edges, the seven canonical piece patterns, the unit moves and
the quarter-turn rotation of a piece, the one-row-lookahead collision test
with its two bounding-box rejections, the per-frame step of the game loop
(gravity on a timer, landing on the floor or on a settled piece, spawning a
new piece), and the arrow-key dispatch.

Modules, one per component of `src/index.js`:

- `Shapes` (shapes.dfy): `Pos`, `Pattern`, the `Shape` datatype and its
  derived edges `Left`, `Right`, `Top`, `Bottom`, `Width`, `Height`.
- `Rotation` (rotation.dfy): the quarter turn `Rotated` of a square pattern
  and what it preserves (squareness, 0/1 cells, the number of filled cells,
  the identity after four turns).
- `Collision` (collision.dfy): the meaning of the collision test, `Hits`
  (some filled cell of the moving shape has a filled stationary cell one
  row below it), the bounding-box rejections `BoxesApart`, and their
  soundness.
- `Pieces` (pieces.dfy): the seven canonical patterns and the class
  `Tetromino`, whose position and pattern change in place; `IsColliding`
  is the nested-loop scan with early returns, proved equal to `Hits`
  filtered by the rejections, and so equal to `Hits` on rectangular
  patterns.
- `Game` (game.dfy): the floor, the gravity interval, the pure frame
  function `Step` over a `GameState` snapshot with its properties, and the
  class `Game` holding the settled list, the active piece, the timer and
  the previous clock reading; `Tick` is one frame of the game loop and is
  proved to follow `Step`; `HandleKey` is the keyboard handler.

The wall clock (`Date.now`) and the random pattern choice (`Math.random`)
are parameters: `Tick(now, spawn)` takes the clock reading of the frame and
the pattern index a new piece would get, and the `Tetromino` constructor
takes the pattern index. A cell is filled when it is non-zero, as the
source reads cells as truth values; rows or columns outside a pattern read
as empty, as an out-of-range array read does in the source.

## Model

| member | source | states |
|---|---|---|
| `Shapes.BoundingBox` | src/index.js:67-89 | every filled cell of a rectangular shape lies in [left, right) x [top, bottom), and right - left is the length of every row |
| `Shapes.Shape.Translated` | src/index.js:75-89 | moving a shape by (dx, dy) shifts left and right by dx, top and bottom by dy, keeps width and height, and moves every filled cell with it |
| `Rotation.Rotated` | src/index.js:113-127 | the quarter turn of an n x n pattern is again n x n |
| `Rotation.RotatedBinary` | src/index.js:113-127 | the quarter turn of a 0/1 pattern is a 0/1 pattern |
| `Rotation.RotatedCells` | src/index.js:118-124 | the filled cells after the turn are exactly the filled cells before it, each moved from (x, y) to (n-1-y, x) |
| `Rotation.TurnKeepsSize` | src/index.js:118-124 | the cell map of the turn is one-to-one, so it keeps the size of any set of cells |
| `Rotation.RotatedCount` | src/index.js:113-127 | rotation keeps the number of filled cells |
| `Rotation.RotatedTwice` | src/index.js:113-127 | two turns mirror both rows and columns: cell (x, y) becomes cell (n-1-x, n-1-y) |
| `Rotation.RotatedFourTimes` | src/index.js:113-127 | four turns give back the original pattern |
| `Collision.BoxesApartSound` | src/index.js:133-147 | when either bounding-box rejection fires on rectangular patterns, no filled cell of the moving shape has a filled stationary cell one row below it |
| `Collision.HitsIsOverlapAfterFall` | src/index.js:136-149 | the lookahead test holds exactly when the moving shape, moved down one row, would share a filled cell with the stationary one |
| `Pieces.PossibleShapesArePiecePatterns` | src/index.js:10-46 | there are seven canonical patterns and each is a non-empty square 0/1 grid, so rotation is defined for every spawned piece |
| `Pieces.RotatedPiecePattern` | src/index.js:113-127 | a non-empty square 0/1 pattern stays one under rotation |
| `Pieces.BarRotatedTwice` | src/index.js:12-15 | the vertical bar (filled column 2 of 4) turned twice has column 1 filled in every row |
| `Pieces.Tetromino.constructor` | src/index.js:93-99 | a new piece is at (0, 0) with the canonical pattern of the given index, a non-empty square 0/1 grid |
| `Pieces.Tetromino.MoveRight` | src/index.js:101-103 | the column grows by exactly 1; row and pattern are unchanged; no bounds check |
| `Pieces.Tetromino.MoveLeft` | src/index.js:105-107 | the column shrinks by exactly 1; row and pattern are unchanged; no bounds check |
| `Pieces.Tetromino.MoveDown` | src/index.js:109-111 | the row grows by exactly 1; column and pattern are unchanged; no bounds check |
| `Pieces.Tetromino.Rotate` | src/index.js:113-127 | the pattern built cell by cell is the quarter turn of the old one; the position is unchanged; a valid piece stays valid |
| `Pieces.Tetromino.IsColliding` | src/index.js:129-150 | the result is true iff the bounding boxes are not rejected and some filled cell has a filled stationary cell one row below; on rectangular patterns, iff the latter alone; changes nothing |
| `Game.StepTimer` | src/index.js:190-198 | once time + delta reaches 500 the timer becomes 0 (not time - 500) and the piece falls exactly one row; before that the time accumulates and the piece stays |
| `Game.StepAppendOnly` | src/index.js:200-211 | the settled list grows by at most one, only when the fallen piece lands, by appending that piece; the earlier settled pieces are kept; after a landing the active piece is a new one at (0, 0) |
| `Game.StepValid` | src/index.js:195-211 | a frame keeps every settled and active pattern a non-empty square 0/1 grid |
| `Game.ThreeFramesFallOnce` | src/index.js:190-198 | from a fresh game, frames 200 time units apart move the piece down exactly once, on the third frame, and reset the timer to 0 |
| `Game.ContactWithFloorHits` | src/index.js:174-177 | a piece whose bottom edge meets the floor's top row, with a filled cell in its last row over the field, collides with the floor |
| `Game.SquareAboveFloorHits` | src/index.js:140-145 | the 2 x 2 square at (4, 16) collides with the floor |
| `Game.SquareOneRowHigherMisses` | src/index.js:133-133 | the 2 x 2 square at (4, 15) does not collide with the floor |
| `Game.RotateKeyFourTimes` | src/index.js:221-236 | every key keeps a piece a non-empty square 0/1 grid, and pressing the up key four times gives the piece back |
| `Game.Game.constructor` | src/index.js:219-219 | a new game has no settled pieces, a timer at 0, the start clock reading, and a fresh valid piece at (0, 0) |
| `Game.Game.FindObstacle` | src/index.js:200-211 | the floor is tested first; otherwise the settled pieces are tested in order and the first hit is reported, every earlier one missing; no hit iff the piece lands on nothing |
| `Game.Game.Tick` | src/index.js:184-211 | one frame follows Step: the new snapshot is Step of the old one; the settled references keep their prefix, the landed piece is the old active object, a fresh piece replaces it; the active piece is never a settled one |
| `Game.Game.HandleKey` | src/index.js:221-236 | 39 moves right, 37 left, 38 rotates, 40 moves down, any other key changes nothing; only the active piece changes |

## Left out

- Rendering (`render`, `drawDebugBlock`, the pixel conversion and the canvas
  calls) and the DOM lookups: drawing side effects with no game logic.
- `Date.now`, `requestAnimationFrame` and the self-rescheduling loop: one
  frame is modelled, with the clock reading as the parameter `now`.
- `Math.random` in the piece constructor: the pattern index is a parameter.
- `Pos extends Array`: a position is the value `Pos(x, y)`. Each piece owns
  its own position array, so a value field that the moves reassign behaves
  the same.
- The unused destructuring at the start of `isColliding`: dead code.
- `gameSpeed` is a module-level `let` that is never reassigned: it is the
  constant `GameSpeed`.
- Pieces.Tetromino.Rotate: requires a square pattern, which every piece
  has. On a non-square pattern the source's `n` is the row count: a pattern
  taller than wide reads missing cells as undefined, and a pattern wider
  than tall drops its extra columns (the 1 x 10 floor would turn into
  `[[1]]`). Neither case is modelled.
- Pieces.Tetromino.IsColliding: requires both patterns to be non-empty. No
  empty pattern exists in the game; the source would return false at the
  top test for an empty stationary pattern below the piece, and otherwise
  read the width of a missing first row.
- Patterns are values: the source never changes a pattern array in place
  (rotation builds a new one and replaces the reference), so sharing a
  canonical pattern between pieces has no observable effect.
