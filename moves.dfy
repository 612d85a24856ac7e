/** The cursor and selection logic of the engine (`CheckShift`, `Move` and
    `SelectShape` in src/game_logic.cpp) as functions of a game state, the
    invariant the engine keeps, and what a sequence of key presses does. */
module Moves {
  import opened Shapes
  import opened Board
  import opened Matching

  /** The colours of (i, j) and (x, y) exchanged, the statuses kept: the two
      `SetColour` calls of the shift branch of `Move`. */
  function SwapColours(b: Grid, i: int, j: int, x: int, y: int): (r: Grid)
    requires WellFormed(b) && InBounds(i, j) && InBounds(x, y)
    ensures WellFormed(r)
  {
    WithColour(WithColour(b, i, j, b[x][y].colour), x, y, b[i][j].colour)
  }

  /** SwapColours cell by cell: the two cells trade colours, keep their
      statuses, and every other cell is unchanged. */
  lemma SwapColoursAt(b: Grid, i: int, j: int, x: int, y: int, u: int, v: int)
    requires WellFormed(b) && InBounds(i, j) && InBounds(x, y) && InBounds(u, v)
    requires (i, j) != (x, y)
    ensures var r := SwapColours(b, i, j, x, y);
      r[u][v] ==
        if (u, v) == (i, j) then Shape(b[x][y].colour, b[i][j].status)
        else if (u, v) == (x, y) then Shape(b[i][j].colour, b[x][y].status)
        else b[u][v]
  {
  }

  /** Swapping twice restores the board. */
  lemma SwapColoursInvolution(b: Grid, i: int, j: int, x: int, y: int)
    requires WellFormed(b) && InBounds(i, j) && InBounds(x, y) && (i, j) != (x, y)
    ensures SwapColours(SwapColours(b, i, j, x, y), i, j, x, y) == b
  {
    var r := SwapColours(SwapColours(b, i, j, x, y), i, j, x, y);
    forall u, v | InBounds(u, v)
      ensures r[u][v] == b[u][v]
    {
      SwapColoursAt(b, i, j, x, y, u, v);
      SwapColoursAt(b, i, j, x, y, i, j);
      SwapColoursAt(b, i, j, x, y, x, y);
      SwapColoursAt(SwapColours(b, i, j, x, y), i, j, x, y, u, v);
    }
    GridEquality(r, b);
  }

  /** A swap keeps every status and the palette. */
  lemma SwapColoursKeeps(b: Grid, i: int, j: int, x: int, y: int)
    requires WellFormed(b) && InBounds(i, j) && InBounds(x, y) && (i, j) != (x, y)
    ensures SameStatuses(b, SwapColours(b, i, j, x, y))
    ensures AllInPalette(b) ==> AllInPalette(SwapColours(b, i, j, x, y))
  {
    forall u, v | InBounds(u, v) {
      SwapColoursAt(b, i, j, x, y, u, v);
    }
  }

  /** `CheckShift(currentShape, neighbour, d)`: score the old cursor position,
      then the neighbour in direction d, the second scan reading the board the
      first one left. */
  function ShiftResult(g: Game, d: Direction, distr: nat -> Draw): (r: Game)
    requires WellFormed(g.board) && InBounds(g.row, g.col) && CanMove(d, g.row, g.col)
    ensures WellFormed(r.board)
    ensures r.row == g.row && r.col == g.col && r.selected == g.selected
  {
    var (x, y) := Neighbour(d, g.row, g.col);
    ScoreResult(ScoreResult(g, g.row, g.col, distr), x, y, distr)
  }

  /** The in-bounds branch of `Move(d)`: a SELECTED cursor cell trades
      colours with its neighbour in direction d and both positions are
      scored, any other cursor cell only clears the flag; then the old cursor
      cell becomes NONE and the cursor steps onto the neighbour. */
  function Advance(g: Game, d: Direction, distr: nat -> Draw): (r: Game)
    requires WellFormed(g.board) && InBounds(g.row, g.col) && CanMove(d, g.row, g.col)
    ensures WellFormed(r.board) && (r.row, r.col) == Neighbour(d, g.row, g.col)
  {
    var (x, y) := Neighbour(d, g.row, g.col);
    var g1 :=
      if g.board[g.row][g.col].status == SELECTED then
        ShiftResult(g.(board := SwapColours(g.board, g.row, g.col, x, y)), d, distr)
      else g.(selected := false);
    g1.(board := WithStatus(g1.board, g.row, g.col, NONE), row := x, col := y)
  }

  /** `Move(d)`: the in-bounds branch when the neighbour in direction d is on
      the board, nothing otherwise, and in every case the cell under the
      cursor ends SELECTABLE, so a blocked move turns a SELECTED cell
      SELECTABLE. */
  function MoveResult(g: Game, d: Direction, distr: nat -> Draw): (r: Game)
    requires WellFormed(g.board) && InBounds(g.row, g.col)
    ensures WellFormed(r.board) && InBounds(r.row, r.col)
  {
    var g1 := if CanMove(d, g.row, g.col) then Advance(g, d, distr) else g;
    g1.(board := WithStatus(g1.board, g1.row, g1.col, SELECTABLE))
  }

  /** `SelectShape()`: toggles the cursor cell between SELECTED and
      SELECTABLE and sets the flag to match. */
  function SelectResult(g: Game): (r: Game)
    requires WellFormed(g.board) && InBounds(g.row, g.col)
    ensures WellFormed(r.board)
  {
    if g.board[g.row][g.col].status != SELECTED then
      g.(board := WithStatus(g.board, g.row, g.col, SELECTED), selected := true)
    else
      g.(board := WithStatus(g.board, g.row, g.col, SELECTABLE), selected := false)
  }

  /** What the engine keeps between calls: a 9x9 board of palette colours, the
      cursor on the board, a non-negative score, every cell off the cursor
      NONE, and a SELECTED cursor tile only with the flag set. (The converse
      fails: see MoveSwapKeepsFlag.) */
  ghost predicate Invariant(g: Game) {
    WellFormed(g.board)
    && InBounds(g.row, g.col)
    && g.score >= 0
    && AllInPalette(g.board)
    && (forall x, y :: InBounds(x, y) && (x, y) != (g.row, g.col) ==> g.board[x][y].status == NONE)
    && (g.board[g.row][g.col].status == SELECTED ==> g.selected)
  }

  /** A clear flag means that no tile is SELECTED. */
  lemma ClearFlagNothingSelected(g: Game)
    requires Invariant(g) && !g.selected
    ensures forall x, y :: InBounds(x, y) ==> g.board[x][y].status != SELECTED
  {
  }

  /** The state right after construction satisfies the invariant. */
  lemma InitialInvariant(b: Grid, drawn: nat)
    requires WellFormed(b) && AllInPalette(b)
    requires forall x, y :: InBounds(x, y) ==> b[x][y].status == NONE
    ensures Invariant(Game(b, 0, 0, 0, false, drawn))
  {
  }

  /** Scoring a position keeps the invariant's board facts and never lowers
      the score. */
  lemma ScoreResultKeeps(g: Game, I: int, J: int, distr: nat -> Draw)
    requires WellFormed(g.board) && InBounds(I, J)
    ensures SameStatuses(g.board, ScoreResult(g, I, J, distr).board)
    ensures AllInPalette(g.board) ==> AllInPalette(ScoreResult(g, I, J, distr).board)
    ensures ScoreResult(g, I, J, distr).score >= g.score
  {
    ScoreResultFrame(g, I, J, distr);
    ScoreResultScore(g, I, J, distr);
  }

  /** A shift keeps every status and the palette and never lowers the score. */
  lemma ShiftResultKeeps(g: Game, d: Direction, distr: nat -> Draw)
    requires WellFormed(g.board) && InBounds(g.row, g.col) && CanMove(d, g.row, g.col)
    ensures SameStatuses(g.board, ShiftResult(g, d, distr).board)
    ensures AllInPalette(g.board) ==> AllInPalette(ShiftResult(g, d, distr).board)
    ensures ShiftResult(g, d, distr).score >= g.score
  {
    var (x, y) := Neighbour(d, g.row, g.col);
    var g1 := ScoreResult(g, g.row, g.col, distr);
    ScoreResultKeeps(g, g.row, g.col, distr);
    ScoreResultKeeps(g1, x, y, distr);
  }

  /** The score gained by a shift is what the two scans find: first at the
      old cursor position, then at the neighbour on the board the first scan
      left. */
  lemma ShiftResultScore(g: Game, d: Direction, distr: nat -> Draw)
    requires WellFormed(g.board) && InBounds(g.row, g.col) && CanMove(d, g.row, g.col)
    ensures var (x, y) := Neighbour(d, g.row, g.col);
      var g1 := ScoreResult(g, g.row, g.col, distr);
      var c1 := Scan(g.board, g.row, g.col);
      var c2 := Scan(g1.board, x, y);
      ShiftResult(g, d, distr).score == g.score
        + AxisPoints(c1.Vertical()) + AxisPoints(c1.Horizontal())
        + AxisPoints(c2.Vertical()) + AxisPoints(c2.Horizontal())
  {
    var (x, y) := Neighbour(d, g.row, g.col);
    var g1 := ScoreResult(g, g.row, g.col, distr);
    ScoreResultScore(g, g.row, g.col, distr);
    ScoreResultScore(g1, x, y, distr);
  }

  /** Clearing the old cursor cell of a board whose other statuses are NONE
      leaves every status NONE. */
  lemma ClearCursorCell(b: Grid, b1: Grid, i: int, j: int)
    requires WellFormed(b) && WellFormed(b1) && InBounds(i, j) && SameStatuses(b, b1)
    requires forall u, v :: InBounds(u, v) && (u, v) != (i, j) ==> b[u][v].status == NONE
    ensures AllInPalette(b1) ==> AllInPalette(WithStatus(b1, i, j, NONE))
    ensures forall u, v :: InBounds(u, v) ==> WithStatus(b1, i, j, NONE)[u][v].status == NONE
  {
  }

  /** The in-bounds branch keeps the invariant. */
  lemma AdvancePreservesInvariant(g: Game, d: Direction, distr: nat -> Draw)
    requires Invariant(g) && CanMove(d, g.row, g.col)
    ensures Invariant(Advance(g, d, distr))
  {
    var (x, y) := Neighbour(d, g.row, g.col);
    if g.board[g.row][g.col].status == SELECTED {
      var swapped := g.(board := SwapColours(g.board, g.row, g.col, x, y));
      SwapColoursKeeps(g.board, g.row, g.col, x, y);
      ShiftResultKeeps(swapped, d, distr);
      ClearCursorCell(g.board, ShiftResult(swapped, d, distr).board, g.row, g.col);
    } else {
      ClearCursorCell(g.board, g.board, g.row, g.col);
    }
  }

  /** Move keeps the invariant. */
  lemma MovePreservesInvariant(g: Game, d: Direction, distr: nat -> Draw)
    requires Invariant(g)
    ensures Invariant(MoveResult(g, d, distr))
  {
    if CanMove(d, g.row, g.col) {
      AdvancePreservesInvariant(g, d, distr);
    }
  }

  /** Move never lowers the score. */
  lemma MoveScoreMonotone(g: Game, d: Direction, distr: nat -> Draw)
    requires WellFormed(g.board) && InBounds(g.row, g.col)
    ensures MoveResult(g, d, distr).score >= g.score
  {
    var (x, y) := Neighbour(d, g.row, g.col);
    if CanMove(d, g.row, g.col) && g.board[g.row][g.col].status == SELECTED {
      ShiftResultKeeps(g.(board := SwapColours(g.board, g.row, g.col, x, y)), d, distr);
    }
  }

  /** An unblocked move changes exactly one cursor coordinate by one, in the
      direction given; the old cursor cell ends NONE and the new one
      SELECTABLE. */
  lemma MoveSteps(g: Game, d: Direction, distr: nat -> Draw)
    requires WellFormed(g.board) && InBounds(g.row, g.col) && CanMove(d, g.row, g.col)
    ensures var r := MoveResult(g, d, distr);
      (d == UP ==> r.row == g.row - 1 && r.col == g.col)
      && (d == LEFT ==> r.row == g.row && r.col == g.col - 1)
      && (d == DOWN ==> r.row == g.row + 1 && r.col == g.col)
      && (d == RIGHT ==> r.row == g.row && r.col == g.col + 1)
      && r.board[g.row][g.col].status == NONE
      && r.board[r.row][r.col].status == SELECTABLE
  {
  }

  /** A move toward the edge changes only the status of the cursor cell,
      which becomes SELECTABLE: cursor, score, flag, draws and every other
      cell stay as they were. */
  lemma MoveBlocked(g: Game, d: Direction, distr: nat -> Draw)
    requires WellFormed(g.board) && InBounds(g.row, g.col) && !CanMove(d, g.row, g.col)
    ensures var r := MoveResult(g, d, distr);
      r.row == g.row && r.col == g.col && r.score == g.score && r.selected == g.selected && r.drawn == g.drawn
      && r.board[g.row][g.col] == Shape(g.board[g.row][g.col].colour, SELECTABLE)
      && SameColours(g.board, r.board)
      && forall x, y :: InBounds(x, y) && (x, y) != (g.row, g.col) ==> r.board[x][y] == g.board[x][y]
  {
  }

  /** A blocked move deselects a SELECTED cursor cell but leaves the flag
      set: afterwards the flag claims a selection that no cell shows. */
  lemma BlockedMoveDeselectsCell(g: Game, d: Direction, distr: nat -> Draw)
    requires Invariant(g) && !CanMove(d, g.row, g.col)
    requires g.selected && g.board[g.row][g.col].status == SELECTED
    ensures var r := MoveResult(g, d, distr);
      r.selected && forall x, y :: InBounds(x, y) ==> r.board[x][y].status != SELECTED
  {
  }

  /** A move from a cell that is not SELECTED only moves the cursor: no
      colour, the score and the draws stay, and the flag is cleared. */
  lemma MoveWithoutSelection(g: Game, d: Direction, distr: nat -> Draw)
    requires WellFormed(g.board) && InBounds(g.row, g.col) && CanMove(d, g.row, g.col)
    requires g.board[g.row][g.col].status != SELECTED
    ensures var r := MoveResult(g, d, distr);
      SameColours(g.board, r.board) && r.score == g.score && !r.selected && r.drawn == g.drawn
  {
  }

  /** A shift whose two scans find no run of three changes nothing. */
  lemma ShiftResultNoMatch(g: Game, d: Direction, distr: nat -> Draw)
    requires WellFormed(g.board) && InBounds(g.row, g.col) && CanMove(d, g.row, g.col)
    requires var (x, y) := Neighbour(d, g.row, g.col);
      var c1 := Scan(g.board, g.row, g.col);
      var c2 := Scan(g.board, x, y);
      c1.Vertical() < 3 && c1.Horizontal() < 3 && c2.Vertical() < 3 && c2.Horizontal() < 3
    ensures ShiftResult(g, d, distr) == g
  {
    var (x, y) := Neighbour(d, g.row, g.col);
    ScoreResultNoMatch(g, g.row, g.col, distr);
    ScoreResultNoMatch(g, x, y, distr);
  }

  /** A move from a SELECTED cell exchanges the two colours and scores the old
      cursor position, then the new one.  When neither scan finds a run of
      three, the colours are exactly the swapped ones and the score and the
      draws are unchanged. */
  lemma MoveSwapNoMatch(g: Game, d: Direction, distr: nat -> Draw)
    requires WellFormed(g.board) && InBounds(g.row, g.col) && CanMove(d, g.row, g.col)
    requires g.board[g.row][g.col].status == SELECTED
    requires var (x, y) := Neighbour(d, g.row, g.col);
      var swapped := SwapColours(g.board, g.row, g.col, x, y);
      var c1 := Scan(swapped, g.row, g.col);
      var c2 := Scan(swapped, x, y);
      c1.Vertical() < 3 && c1.Horizontal() < 3 && c2.Vertical() < 3 && c2.Horizontal() < 3
    ensures var (x, y) := Neighbour(d, g.row, g.col);
      var r := MoveResult(g, d, distr);
      SameColours(r.board, SwapColours(g.board, g.row, g.col, x, y))
      && r.board[g.row][g.col].colour == g.board[x][y].colour
      && r.board[x][y].colour == g.board[g.row][g.col].colour
      && r.score == g.score && r.drawn == g.drawn && r.selected == g.selected
  {
    var (x, y) := Neighbour(d, g.row, g.col);
    var swapped := g.(board := SwapColours(g.board, g.row, g.col, x, y));
    ShiftResultNoMatch(swapped, d, distr);
    var r := MoveResult(g, d, distr);
    assert r.board == WithStatus(WithStatus(swapped.board, g.row, g.col, NONE), x, y, SELECTABLE);
    forall u, v | InBounds(u, v)
      ensures r.board[u][v].colour == swapped.board[u][v].colour
    {
    }
    SwapColoursAt(g.board, g.row, g.col, x, y, g.row, g.col);
    SwapColoursAt(g.board, g.row, g.col, x, y, x, y);
  }

  /** A move from a SELECTED cell scores exactly what the two scans of the
      swapped board find. */
  lemma MoveSwapScore(g: Game, d: Direction, distr: nat -> Draw)
    requires WellFormed(g.board) && InBounds(g.row, g.col) && CanMove(d, g.row, g.col)
    requires g.board[g.row][g.col].status == SELECTED
    ensures var (x, y) := Neighbour(d, g.row, g.col);
      var swapped := g.(board := SwapColours(g.board, g.row, g.col, x, y));
      var c1 := Scan(swapped.board, g.row, g.col);
      var c2 := Scan(ScoreResult(swapped, g.row, g.col, distr).board, x, y);
      MoveResult(g, d, distr).score == g.score
        + AxisPoints(c1.Vertical()) + AxisPoints(c1.Horizontal())
        + AxisPoints(c2.Vertical()) + AxisPoints(c2.Horizontal())
  {
    var (x, y) := Neighbour(d, g.row, g.col);
    ShiftResultScore(g.(board := SwapColours(g.board, g.row, g.col, x, y)), d, distr);
  }

  /** A shift never touches the flag, yet leaves no cell SELECTED: after
      it the flag says something is selected while nothing is. */
  lemma MoveSwapKeepsFlag(g: Game, d: Direction, distr: nat -> Draw)
    requires Invariant(g) && CanMove(d, g.row, g.col)
    requires g.board[g.row][g.col].status == SELECTED
    ensures var r := MoveResult(g, d, distr);
      r.selected == g.selected && forall x, y :: InBounds(x, y) ==> r.board[x][y].status != SELECTED
  {
    MovePreservesInvariant(g, d, distr);
  }

  /** SelectShape toggles the cursor cell and sets the flag to say whether
      it is now SELECTED; nothing else changes. */
  lemma SelectToggles(g: Game)
    requires WellFormed(g.board) && InBounds(g.row, g.col)
    ensures var r := SelectResult(g);
      var before := g.board[g.row][g.col];
      r.board[g.row][g.col] == Shape(before.colour, if before.status == SELECTED then SELECTABLE else SELECTED)
      && (r.selected <==> r.board[g.row][g.col].status == SELECTED)
      && r.row == g.row && r.col == g.col && r.score == g.score && r.drawn == g.drawn
      && forall x, y :: InBounds(x, y) && (x, y) != (g.row, g.col) ==> r.board[x][y] == g.board[x][y]
  {
  }

  /** Selecting twice from SELECTABLE gives back the same board. */
  lemma SelectTwiceRestores(g: Game)
    requires WellFormed(g.board) && InBounds(g.row, g.col)
    requires g.board[g.row][g.col].status == SELECTABLE
    ensures SelectResult(SelectResult(g)).board == g.board
    ensures !SelectResult(SelectResult(g)).selected
  {
    var r := SelectResult(SelectResult(g)).board;
    forall x, y | InBounds(x, y)
      ensures r[x][y] == g.board[x][y]
    {
    }
    GridEquality(r, g.board);
  }

  /** Selecting twice from a cell that is not SELECTED leaves it SELECTABLE
      with the flag clear. */
  lemma SelectTwiceDeselects(g: Game)
    requires WellFormed(g.board) && InBounds(g.row, g.col)
    requires g.board[g.row][g.col].status != SELECTED
    ensures SelectResult(SelectResult(g)).board[g.row][g.col] == Shape(g.board[g.row][g.col].colour, SELECTABLE)
    ensures !SelectResult(SelectResult(g)).selected
  {
  }

  /** SelectShape keeps the invariant. */
  lemma SelectPreservesInvariant(g: Game)
    requires Invariant(g)
    ensures Invariant(SelectResult(g))
  {
  }

  /** A key press of the game loop. */
  datatype Command = MoveCursor(direction: Direction) | Select

  /** One key press: E selects, W/A/S/D move. */
  function Step(g: Game, c: Command, distr: nat -> Draw): (r: Game)
    requires Invariant(g)
    ensures Invariant(r)
  {
    match c
    case MoveCursor(d) =>
      MovePreservesInvariant(g, d, distr);
      MoveResult(g, d, distr)
    case Select =>
      SelectPreservesInvariant(g);
      SelectResult(g)
  }

  /** The state after a sequence of key presses, with the draws of the
      random stream taken in order. */
  function Play(g: Game, cmds: seq<Command>, distr: nat -> Draw): (r: Game)
    requires Invariant(g)
    ensures Invariant(r)
    decreases |cmds|
  {
    if cmds == [] then g else Play(Step(g, cmds[0], distr), cmds[1..], distr)
  }

  /** Over any sequence of key presses the score never decreases. */
  lemma {:induction false} PlayScoreMonotone(g: Game, cmds: seq<Command>, distr: nat -> Draw)
    requires Invariant(g)
    ensures Play(g, cmds, distr).score >= g.score
    decreases |cmds|
  {
    if cmds != [] {
      match cmds[0] {
        case MoveCursor(d) => MoveScoreMonotone(g, d, distr);
        case Select =>
      }
      PlayScoreMonotone(Step(g, cmds[0], distr), cmds[1..], distr);
    }
  }
}
