# Match-3 engine model

A Dafny model of the game engine of a small OpenGL match-3 game. The engine is a
9x9 board of tiles. Each tile has a colour (RED, GREEN or BLUE when drawn) and a
status (NONE, SELECTABLE or SELECTED). The engine also keeps a cursor
(`currentI`, `currentJ`), a score and a "something is selected" flag.

- Moving the cursor onto a neighbour either just moves it, or, when the cursor
  tile is SELECTED, swaps the two tiles' colours. A swap then scores both
  positions.
- Scoring a position counts the same-coloured run in each of the four directions.
- Every axis whose run reaches three tiles adds 10 points per tile and has its
  tiles redrawn from the random generator.

The model has five modules:

- `Shapes` (shapes.dfy): the tile `Shape`, its two enumerations, and the random
  generator. The generator is an injected stream of draws in 1..3.
- `Board` (board.dfy): the board as a value (`Grid`), the whole engine state as
  a value (`Game`), directions, and single-cell updates.
- `Matching` (matching.dfy): the four scans (`Ray`, `Run`, `Scan`), the refill
  loops (`PaintRay`, `Refill`), and the scoring of one position (`ScoreResult`).
  All are functions of a board value, with the properties proved about them.
- `Moves` (moves.dfy): `CheckShift`, `Move` and `SelectShape` as functions of a
  `Game`, the invariant the engine keeps, and a sequence of key presses (`Play`).
- `Engine` (engine.dfy): the class `GameLogic`.
  - The board is an `array2<Shape>` whose contents are mirrored in the ghost
    field `cells`.
  - Each method is proved equal to a pure function of the old state or the old
    board.
  - The four scan loops of `CalculateScore` are one loop, `CountRay`, with a
    direction parameter. It is proved equal to `Run`.

`Shape` is a datatype. In the C++ code a `Shape` lives by value inside the
static array: `GetShapeAt` returns a copy, and the mutators change the copy
that sits in the array cell. So its setters return the updated value, and the
in-place write happens in the engine (`SetColourAt`, `SetStatusAt`,
`RandomizeAt`).

Randomness is injected. `Generator.distr(k)` is the value of the k-th call of
`distr(gen)`, and `Generator.pos` counts the calls made so far (the `drawn`
field of `Game`). This makes every operation deterministic, so each method has
an exact postcondition.

### Behaviour of the code worth knowing

- After the switch, `Move` always sets the cursor tile to SELECTABLE
  (src/game_logic.cpp:384).
  - A move toward the edge therefore turns a SELECTED tile SELECTABLE.
  - It leaves the flag set (`BlockedMoveDeselectsCell`).
- The swap branch never clears `isSomethingSelected`. After a swap the flag can
  be true while no tile is SELECTED (`MoveSwapKeepsFlag`). So only one half of
  "the flag says whether a tile is selected" holds.
  - "Flag set, so a tile is SELECTED" fails.
  - "Flag clear, so no tile is SELECTED" holds and is part of the invariant
    (`Moves.ClearFlagNothingSelected`).
- Draws are in 1..3, so only RED, GREEN and BLUE ever appear on the board. The
  other seven enumerators, BASE included, exist only in the enumeration.
- The first scan of a swap runs at the old cursor position (which now holds the
  neighbour's former colour). The second runs at the neighbour, on the board
  the first scan left. The exact score of a swap is therefore the sum of what
  those two scans find (`MoveSwapScore`). It is not a fixed value for a given
  pattern.
- Each refill loop redraws the pivot. On each matched axis the pivot is drawn
  twice and keeps the second draw (`RefillDraw`).
- `GetShapeAt` does not check bounds, so the model requires indices on the board.

## Model

| member | source | states |
|---|---|---|
| Shapes.Ordinal | include/shape.hpp:7-19 | the enumerators' integer values lie in 0..9 |
| Shapes.ColourOf | src/shape.cpp:12 | the integer-to-enumeration conversion is the inverse of the enumerator values |
| Shapes.DrawnColour | src/shape.cpp:8 | a draw of the uniform 1..3 distribution always gives RED, GREEN or BLUE |
| Shapes.Generator.Next | src/shape.cpp:8 | one call of the distribution yields the stream value at the current position and advances the position by one |
| Shapes.GettersReadBack | src/shape.cpp:38-48 | GetColour and GetStatus return the colour and status a tile was built with, and the two together determine the tile |
| Shapes.StatusSuffix | src/shape.cpp:94-104 | only status NONE adds no suffix to the texture name; the other two suffixes start with '_' |
| Shapes.NewShape | src/shape.cpp:10-14 | a new tile has status NONE and the colour of the next draw, never BASE, and takes exactly one draw |
| Shapes.Shape.SetColour | src/shape.cpp:18-21 | after SetColour(c), GetColour returns c and the status is untouched |
| Shapes.Shape.SetRandomColour | src/shape.cpp:24-27 | the new colour is the next draw, so it is in the palette; the status is kept; one draw is taken |
| Shapes.Shape.SetStatus | src/shape.cpp:31-34 | after SetStatus(s), GetStatus returns s and the colour is untouched |
| Shapes.Shape.GetColourAsString | src/shape.cpp:52-71 | "RED", "GREEN", "BLUE" for those colours and "empty" exactly for every other colour |
| Shapes.Shape.GetTexturePath | src/shape.cpp:75-107 | every path starts with "../images/", ends with ".jpg" and has at least 17 characters |
| Shapes.TexturePathNamesColour | src/shape.cpp:77-106 | a palette tile's path is "../images/", the lower-cased colour name, the status suffix, then ".jpg" |
| Shapes.TexturePathOtherColour | src/shape.cpp:89-106 | any colour outside the palette uses the "base" texture with the status suffix |
| Shapes.TexturePathsDistinguishStatus | src/shape.cpp:94-106 | two different statuses of the same tile never share a texture path |
| Shapes.TexturePathsDistinguishColour | src/shape.cpp:78-92 | two different palette colours with the same status never share a texture path |
| Shapes.ColourNamesDistinct | src/shape.cpp:55-69 | different palette colours have different names |
| Board.CanMove | src/game_logic.cpp:269-353 | the guard of each case of Move holds exactly when the neighbour in that direction is on the board |
| Board.Neighbour | src/game_logic.cpp:13-17 | `shapeUp`, `shapeLeft`, `shapeDown` and `shapeRight` name a cell that differs from the cursor by one in exactly one coordinate |
| Board.WithColour | src/game_logic.cpp:274-275 | writing a colour into one cell keeps the board 9x9, sets that colour, keeps that cell's status and leaves every other cell unchanged |
| Board.WithStatus | src/game_logic.cpp:288 | writing a status into one cell keeps the board 9x9, sets that status, keeps that cell's colour and leaves every other cell unchanged |
| Matching.Ray | src/game_logic.cpp:121-137 | a scan loop never counts more cells than there are before the edge |
| Matching.RayIsRun | src/game_logic.cpp:121-194 | every counted cell has the pivot's colour, and the cell after the last counted one is off the board or of another colour |
| Matching.Run | src/game_logic.cpp:121-195 | the run from the pivot in one direction never reaches past the edge of the board |
| Matching.Scan | src/game_logic.cpp:117-195 | up <= I, down <= 8-I, left <= J, right <= 8-J |
| Matching.RunIsMaximal | src/game_logic.cpp:121-194 | the run from the pivot in each direction is exactly the maximal same-coloured run next to it |
| Matching.ScanRunsOnBoard | src/game_logic.cpp:203-212 | the runs handed to RandomizeCorrectShapes lie on the board on both axes, so no index leaves 0..8 |
| Matching.PaintRay | src/game_logic.cpp:229-239 | a refill loop keeps the board 9x9 (what it writes is stated by PaintRayWrites) |
| Matching.PaintRayWrites | src/game_logic.cpp:229-239 | for every k < n whose cell is on the board, the k-th cell of the ray gets draw pos+k and keeps its status; every cell not on the first n cells of the ray is unchanged |
| Matching.PaintRayNone | src/game_logic.cpp:229-239 | a refill loop of no iterations changes nothing |
| Matching.PaintRayStep | src/game_logic.cpp:229-239 | each iteration of a refill loop is one write of the next draw into the next cell of the ray |
| Matching.StepsToOffset | src/game_logic.cpp:232 | the ray index of the cell k steps from the pivot is k |
| Matching.Refill | src/game_logic.cpp:222-259 | RandomizeCorrectShapes keeps the board 9x9 (what it writes is stated by RefillAt and RefillKeeps) |
| Matching.RefillAt | src/game_logic.cpp:222-259 | RandomizeCorrectShapes writes only the run; each run cell gets the draw RefillDraw names, the pivot the second of its two; statuses are kept |
| Matching.RefillCellCombines | src/game_logic.cpp:227-254 | the two loops of one axis composed on one cell give the run/non-run case split RefillAt states |
| Matching.RefillKeeps | src/game_logic.cpp:222-259 | outside the run nothing changes; every status is kept; every run cell ends RED, GREEN or BLUE |
| Matching.ScoreAxis | src/game_logic.cpp:203-212 | one scoring block keeps the cursor and the flag |
| Matching.ScoreResult | src/game_logic.cpp:114-214 | CalculateScore never changes the cursor or the flag |
| Matching.ScoreResultScore | src/game_logic.cpp:197-213 | with sameShapesCountVertical = up+down+1 and sameShapesCountHorizontal = left+right+1, the score rises by exactly 10*vertical when vertical >= 3 plus 10*horizontal when horizontal >= 3, with both counts taken before any refill; it never falls; the draws taken are those of the refills that ran |
| Matching.StraightThreeScoresThirty | src/game_logic.cpp:203-207 | a vertical run of exactly three with no horizontal run adds 30 |
| Matching.ScoreResultNoMatch | src/game_logic.cpp:203-213 | with no run of three on either axis, nothing changes |
| Matching.ScoreAxisFrame | src/game_logic.cpp:203-212 | one scoring block changes only the cells of its run, to palette colours, and no status |
| Matching.ScoreResultFrame | src/game_logic.cpp:114-214 | CalculateScore changes only cells in a matched run, which end in the palette, keeps every status and keeps the palette invariant |
| Moves.SwapColours | src/game_logic.cpp:274-275 | the shift writes keep the board 9x9 |
| Moves.SwapColoursAt | src/game_logic.cpp:274-275 | the two cells trade colours and keep their statuses; no other cell changes |
| Moves.SwapColoursInvolution | src/game_logic.cpp:274-275 | swapping the same two cells twice restores the board |
| Moves.SwapColoursKeeps | src/game_logic.cpp:274-275 | a swap keeps every status and the palette |
| Moves.ShiftResult | src/game_logic.cpp:71-108 | CheckShift keeps the cursor and the flag |
| Moves.ShiftResultKeeps | src/game_logic.cpp:101-105 | CheckShift keeps every status and the palette and never lowers the score |
| Moves.ShiftResultScore | src/game_logic.cpp:101-105 | CheckShift adds what the scan at the old cursor finds, then what the scan at the neighbour finds on the board the first scan left |
| Moves.ShiftResultNoMatch | src/game_logic.cpp:101-105 | when neither scan finds a run of three, CheckShift changes nothing |
| Moves.Advance | src/game_logic.cpp:269-289 | the in-bounds branch moves the cursor onto the neighbour in the direction given |
| Moves.MoveResult | src/game_logic.cpp:263-385 | after any Move the cursor is on the board |
| Moves.SelectResult | src/game_logic.cpp:388-402 | SelectShape keeps the board 9x9 |
| Moves.InitialInvariant | src/game_logic.cpp:8-11 | the initial cursor, score and flag with an all-NONE palette board satisfy the invariant |
| Moves.ScoreResultKeeps | src/game_logic.cpp:114-214 | CalculateScore keeps every status and the palette and never lowers the score |
| Moves.ClearFlagNothingSelected | src/game_logic.cpp:61 | under the invariant a clear flag means that no tile is SELECTED |
| Moves.ClearCursorCell | src/game_logic.cpp:288 | clearing the old cursor cell leaves no status other than NONE on the board |
| Moves.AdvancePreservesInvariant | src/game_logic.cpp:269-289 | the in-bounds branch keeps the invariant |
| Moves.MovePreservesInvariant | src/game_logic.cpp:263-385 | Move keeps the board in the palette, the cursor on the board, the score non-negative, every non-cursor cell NONE, and a SELECTED cursor tile only with the flag set |
| Moves.MoveScoreMonotone | src/game_logic.cpp:263-385 | Move never lowers the score |
| Moves.MoveSteps | src/game_logic.cpp:269-289 | an unblocked move changes exactly one coordinate by one in the direction given; the old cell ends NONE and the new one SELECTABLE |
| Moves.MoveBlocked | src/game_logic.cpp:291-384 | a move toward the edge keeps the cursor, every colour, the score, the flag and the draws, and only sets the cursor tile SELECTABLE |
| Moves.BlockedMoveDeselectsCell | src/game_logic.cpp:291-384 | a blocked move from a SELECTED tile with the flag set leaves the flag set and no tile SELECTED |
| Moves.MoveWithoutSelection | src/game_logic.cpp:281-287 | a move from a tile that is not SELECTED changes no colour, the score or the draws, and clears the flag |
| Moves.MoveSwapNoMatch | src/game_logic.cpp:272-279 | a swap whose two scans find no run of three leaves exactly the swapped colours, the score, the flag and the draws |
| Moves.MoveSwapScore | src/game_logic.cpp:272-279 | a swap adds exactly what the two scans of the swapped board find, in order |
| Moves.MoveSwapKeepsFlag | src/game_logic.cpp:272-289 | a swap keeps the flag and leaves no tile SELECTED |
| Moves.SelectToggles | src/game_logic.cpp:388-402 | SelectShape turns a non-SELECTED cursor tile SELECTED and a SELECTED one SELECTABLE, makes the flag say whether it is now SELECTED, and changes nothing else |
| Moves.SelectTwiceRestores | src/game_logic.cpp:388-402 | two selections from SELECTABLE restore the board and clear the flag |
| Moves.SelectTwiceDeselects | src/game_logic.cpp:388-402 | two selections from a non-SELECTED tile leave it SELECTABLE with the flag clear |
| Moves.SelectPreservesInvariant | src/game_logic.cpp:388-402 | SelectShape keeps the invariant |
| Moves.Step | src/glfw_application.cpp:60-84 | one key press (E, W, A, S or D) keeps the invariant |
| Moves.Play | src/glfw_application.cpp:55-86 | any sequence of key presses keeps the invariant |
| Moves.PlayScoreMonotone | src/glfw_application.cpp:55-86 | over any sequence of key presses the score never decreases |
| Engine.StaticBoard | src/game_logic.cpp:7 | the statically initialised board is 9x9 |
| Engine.Redrawn | src/game_logic.cpp:21-27 | the constructor's loops keep the board 9x9 |
| Engine.InitialBoard | src/game_logic.cpp:19-28 | the board after construction is 9x9 |
| Engine.InitialBoardValid | src/game_logic.cpp:19-28 | after construction every tile is in the palette with status NONE, and the engine satisfies the invariant |
| Engine.NewBoard | src/game_logic.cpp:7 | the static array holds, row by row, one freshly drawn NONE tile per cell and takes 81 draws |
| Engine.GameLogic.constructor | src/game_logic.cpp:19-28 | the board array is new and owned by the engine alone; every cell is redrawn after the static initialisation (162 draws), the cursor is (0, 0), the score 0, the flag false, and the invariant holds |
| Engine.GameLogic.RandomizeAll | src/game_logic.cpp:21-27 | the constructor's loops give cell (i, j) draw pos+9i+j and keep every status |
| Engine.GameLogic.GetShapeAt | src/game_logic.cpp:34-37 | the tile returned is the model's tile at (i, j) |
| Engine.GameLogic.GetCurrentI | src/game_logic.cpp:41-44 | the row returned is on the board |
| Engine.GameLogic.GetCurrentJ | src/game_logic.cpp:48-51 | the column returned is on the board |
| Engine.GameLogic.GetScore | src/game_logic.cpp:55-58 | the score returned is non-negative |
| Engine.GameLogic.GetSomethingSelectedFlag | src/game_logic.cpp:60-65 | the flag returned is the model's flag, and when it is false no tile on the board is SELECTED |
| Engine.GameLogic.SetColourAt | src/game_logic.cpp:274-275 | an in-place colour write into the array is WithColour on the board value |
| Engine.GameLogic.SetStatusAt | src/game_logic.cpp:288 | an in-place status write into the array is WithStatus on the board value |
| Engine.GameLogic.RandomizeAt | src/game_logic.cpp:232 | an in-place SetRandomColour of one cell writes the next draw there and takes one draw |
| Engine.GameLogic.RandomizeRay | src/game_logic.cpp:229-233 | one refill loop's writes into the array are PaintRay on the board value and take one draw per cell |
| Engine.GameLogic.RandomizeCorrectShapes | src/game_logic.cpp:222-259 | the array ends as Refill of the old board and d1+d2+2 draws are taken |
| Engine.GameLogic.CountRay | src/game_logic.cpp:121-137 | the scan loop returns exactly Run, the maximal same-coloured run next to the pivot |
| Engine.GameLogic.ScoreRun | src/game_logic.cpp:203-207 | one scoring block's effect on the state is ScoreAxis |
| Engine.GameLogic.CalculateScore | src/game_logic.cpp:114-214 | the new state is ScoreResult of the old one |
| Engine.GameLogic.CheckShift | src/game_logic.cpp:71-108 | the new state is ShiftResult of the old one |
| Engine.GameLogic.MoveInBounds | src/game_logic.cpp:269-289 | the in-bounds branch's effect on the state is Advance |
| Engine.GameLogic.Move | src/game_logic.cpp:263-385 | the new state is MoveResult of the old one and the invariant is kept |
| Engine.GameLogic.SelectShape | src/game_logic.cpp:388-402 | the new state is SelectResult of the old one and the invariant is kept |

## Left out

- The `printf` logging of `CheckShift`, `CalculateScore`, `Move` and
  `SelectShape` is left out because it changes no state.
- `std::random_device` and `std::mt19937` are left out. The distribution is an
  injected stream of values in 1..3, so the model covers every possible
  sequence of draws but not how they are produced.
- The `default:` branches of the `Direction` and `Axis` switches are left out.
  They cannot be reached with Dafny's exhaustive datatypes.
- The data members are static in C++, so several `GameLogic` objects share one
  board. The model keeps them as fields of one object. It places the static
  initialisation of the board (81 draws) inside the constructor, ahead of the
  constructor's own 81 redraws.
- The `Shape&` parameters of `CheckShift` and `CalculateScore` are modelled as
  board positions. Those references always name `shapeMatrix[I][J]`, and the
  engine reads the cell again through them. So `CheckShift` takes only the
  direction.
- `Move` repeats one body four times. The model has one body with a direction
  parameter (`MoveInBounds`), entered under the same per-direction guards.
  - `CalculateScore` has four scan loops. The model has one loop with a
    direction parameter (`CountRay`).
  - `RandomizeCorrectShapes` has two pairs of refill loops. The model has one
    refill loop (`RandomizeRay`), called for the two directions of the axis.
- Engine.GameLogic.GetScore: does not model wrap-around of the 32-bit `score`;
  the score is an unbounded integer.
- Whether a `Shape` is a value or an object with fields changed in place is not
  captured. In the C++ code `Shape` is stored by value, and the model uses
  datatype values throughout.
- The renderer, the window and the GLFW callback registration are not part of
  this model. The model covers only the callback's dispatch to `SelectShape`
  and `Move` (`Moves.Step`):
  - E calls `SelectShape`.
  - W, A, S and D call `Move` with UP, LEFT, DOWN and RIGHT.
  - The key codes themselves are not modelled.
- Engine.NewBoard: assumes the generator is ready when the static board is
  initialised.
  - The 81 `Shape()` objects of src/game_logic.cpp:7 draw from `gen` and
    `distr`, which are globals of another file (src/shape.cpp:6-8).
  - C++ does not fix the order in which two files' globals are initialised.
  - The model treats the initial colours as the first 81 draws of the
    stream.
