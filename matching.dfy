/** Match detection, scoring and refill (`CalculateScore` and
    `RandomizeCorrectShapes` in src/game_logic.cpp) as functions of a board
    value, with the properties the engine relies on. */
module Matching {
  import opened Shapes
  import opened Board

  /** The number of cells from (i, j), inclusive, to the edge in direction d. */
  function Reach(d: Direction, i: int, j: int): int {
    match d
    case UP => i + 1
    case LEFT => j + 1
    case DOWN => N - i
    case RIGHT => N - j
  }

  /** The cell p is on the board and has colour c. */
  ghost predicate HasColour(b: Grid, p: (int, int), c: ShapeColour)
    requires WellFormed(b)
  {
    InBounds(p.0, p.1) && b[p.0][p.1].colour == c
  }

  /** Walking one more step is the same as starting one cell further. */
  lemma OffsetShift(d: Direction, i: int, j: int, k: int)
    ensures Offset(d, i, j, k + 1) == Offset(d, Neighbour(d, i, j).0, Neighbour(d, i, j).1, k)
  {
  }

  /** How many consecutive cells from (i, j) in direction d have colour c:
      one scan loop of `CalculateScore`, which stops at the first mismatch or
      at the edge of the board. */
  function Ray(b: Grid, d: Direction, i: int, j: int, c: ShapeColour): (n: nat)
    requires WellFormed(b)
    requires -1 <= i <= N && -1 <= j <= N
    ensures n <= Reach(d, i, j)
    decreases Reach(d, i, j)
  {
    if !InBounds(i, j) || b[i][j].colour != c then 0
    else
      var (x, y) := Neighbour(d, i, j);
      1 + Ray(b, d, x, y, c)
  }

  /** Ray counts exactly the run: every counted cell has colour c and the cell
      after the last counted one is off the board or of another colour. */
  lemma {:induction false} RayIsRun(b: Grid, d: Direction, i: int, j: int, c: ShapeColour)
    requires WellFormed(b)
    requires -1 <= i <= N && -1 <= j <= N
    ensures forall k :: 0 <= k < Ray(b, d, i, j, c) ==> HasColour(b, Offset(d, i, j, k), c)
    ensures !HasColour(b, Offset(d, i, j, Ray(b, d, i, j, c)), c)
    decreases Reach(d, i, j)
  {
    var n := Ray(b, d, i, j, c);
    if InBounds(i, j) && b[i][j].colour == c {
      var (x, y) := Neighbour(d, i, j);
      RayIsRun(b, d, x, y, c);
      forall k | 0 <= k <= n
        ensures Offset(d, i, j, k) == if k == 0 then (i, j) else Offset(d, x, y, k - 1)
      {
        if k > 0 {
          OffsetShift(d, i, j, k - 1);
        }
      }
    } else {
      assert Offset(d, i, j, 0) == (i, j);
    }
  }

  /** The run length from the pivot (I, J) in direction d, the pivot excluded. */
  function Run(b: Grid, d: Direction, I: int, J: int): (n: nat)
    requires WellFormed(b) && InBounds(I, J)
    ensures n < Reach(d, I, J)
  {
    var (x, y) := Neighbour(d, I, J);
    Ray(b, d, x, y, b[I][J].colour)
  }

  /** The four counts `sameShapesCountUP`, `...LEFT`, `...DOWN`, `...RIGHT`. */
  datatype Counts = Counts(up: nat, left: nat, down: nat, right: nat) {
    /** `sameShapesCountVertical`. */
    function Vertical(): (r: nat)
      ensures r > up && r > down
    {
      up + down + 1
    }
    /** `sameShapesCountHorizontal`. */
    function Horizontal(): (r: nat)
      ensures r > left && r > right
    {
      left + right + 1
    }
  }

  /** The four scans of `CalculateScore` around the pivot (I, J); all of them
      read the board before any refill. */
  function Scan(b: Grid, I: int, J: int): (r: Counts)
    requires WellFormed(b) && InBounds(I, J)
    ensures r.up <= I && r.down <= N - 1 - I && r.left <= J && r.right <= N - 1 - J
  {
    Counts(Run(b, UP, I, J), Run(b, LEFT, I, J), Run(b, DOWN, I, J), Run(b, RIGHT, I, J))
  }

  /** The cells the run from the pivot covers have the pivot's colour, and the
      next cell beyond it is off the board or of another colour. */
  lemma RunIsMaximal(b: Grid, d: Direction, I: int, J: int)
    requires WellFormed(b) && InBounds(I, J)
    ensures forall k :: 1 <= k <= Run(b, d, I, J) ==> HasColour(b, Offset(d, I, J, k), b[I][J].colour)
    ensures !HasColour(b, Offset(d, I, J, Run(b, d, I, J) + 1), b[I][J].colour)
  {
    var (x, y) := Neighbour(d, I, J);
    var c := b[I][J].colour;
    RayIsRun(b, d, x, y, c);
    forall k | 1 <= k <= Run(b, d, I, J) + 1
      ensures Offset(d, I, J, k) == Offset(d, x, y, k - 1)
    {
      OffsetShift(d, I, J, k - 1);
    }
  }

  /** The number of steps from (i, j) to (x, y) going d, or -1 when (x, y) is
      not on that ray. */
  function StepsTo(d: Direction, i: int, j: int, x: int, y: int): (k: int)
    ensures k >= -1
    ensures k >= 0 ==> Offset(d, i, j, k) == (x, y)
  {
    match d
    case UP => if y == j && x <= i then i - x else -1
    case LEFT => if x == i && y <= j then j - y else -1
    case DOWN => if y == j && x >= i then x - i else -1
    case RIGHT => if x == i && y >= j then y - j else -1
  }

  /** StepsTo inverts Offset. */
  lemma StepsToOffset(d: Direction, i: int, j: int, k: nat)
    ensures StepsTo(d, i, j, Offset(d, i, j, k).0, Offset(d, i, j, k).1) == k
  {
  }

  /** The cell (x, y) after a ray of n cells from (i, j) going d was painted
      with the draws pos, pos+1, ...: the k-th cell of the ray gets draw
      pos + k and keeps its status. */
  function PaintedCell(b: Grid, i: int, j: int, d: Direction, n: nat, distr: nat -> Draw, pos: nat, x: int, y: int): Shape
    requires WellFormed(b) && InBounds(x, y)
  {
    var k := StepsTo(d, i, j, x, y);
    if 0 <= k < n then b[x][y].SetColour(DrawnColour(distr, pos + k)) else b[x][y]
  }

  /** One refill loop: the cells at offsets 0 .. n-1 from (i, j) in
      direction d recoloured with the draws pos, pos+1, ... */
  function PaintRay(b: Grid, i: int, j: int, d: Direction, n: nat, distr: nat -> Draw, pos: nat): (r: Grid)
    requires WellFormed(b)
    ensures WellFormed(r)
  {
    seq(N, x requires 0 <= x < N =>
      seq(N, y requires 0 <= y < N => PaintedCell(b, i, j, d, n, distr, pos, x, y)))
  }

  /** PaintRay cell by cell. */
  lemma PaintRayAt(b: Grid, i: int, j: int, d: Direction, n: nat, distr: nat -> Draw, pos: nat, x: int, y: int)
    requires WellFormed(b) && InBounds(x, y)
    ensures PaintRay(b, i, j, d, n, distr, pos)[x][y] == PaintedCell(b, i, j, d, n, distr, pos, x, y)
  {
  }

  /** What one refill loop writes: the k-th cell of the ray, for k < n, gets
      draw pos + k and keeps its status; every other cell is unchanged. */
  lemma PaintRayWrites(b: Grid, i: int, j: int, d: Direction, n: nat, distr: nat -> Draw, pos: nat)
    requires WellFormed(b)
    ensures var r := PaintRay(b, i, j, d, n, distr, pos);
      forall k :: 0 <= k < n && InBounds(Offset(d, i, j, k).0, Offset(d, i, j, k).1) ==>
        r[Offset(d, i, j, k).0][Offset(d, i, j, k).1] == b[Offset(d, i, j, k).0][Offset(d, i, j, k).1].SetColour(DrawnColour(distr, pos + k))
    ensures var r := PaintRay(b, i, j, d, n, distr, pos);
      forall x, y :: InBounds(x, y) && (forall k :: 0 <= k < n ==> Offset(d, i, j, k) != (x, y)) ==> r[x][y] == b[x][y]
  {
    var r := PaintRay(b, i, j, d, n, distr, pos);
    forall k | 0 <= k < n && InBounds(Offset(d, i, j, k).0, Offset(d, i, j, k).1)
      ensures r[Offset(d, i, j, k).0][Offset(d, i, j, k).1] == b[Offset(d, i, j, k).0][Offset(d, i, j, k).1].SetColour(DrawnColour(distr, pos + k))
    {
      StepsToOffset(d, i, j, k);
      PaintRayAt(b, i, j, d, n, distr, pos, Offset(d, i, j, k).0, Offset(d, i, j, k).1);
    }
    forall x, y | InBounds(x, y) && (forall k :: 0 <= k < n ==> Offset(d, i, j, k) != (x, y))
      ensures r[x][y] == b[x][y]
    {
      PaintRayAt(b, i, j, d, n, distr, pos, x, y);
    }
  }

  /** Painting no cell leaves the board as it was. */
  lemma PaintRayNone(b: Grid, i: int, j: int, d: Direction, distr: nat -> Draw, pos: nat)
    requires WellFormed(b)
    ensures PaintRay(b, i, j, d, 0, distr, pos) == b
  {
    forall x, y | InBounds(x, y)
      ensures PaintRay(b, i, j, d, 0, distr, pos)[x][y] == b[x][y]
    {
      PaintRayAt(b, i, j, d, 0, distr, pos, x, y);
    }
    GridEquality(PaintRay(b, i, j, d, 0, distr, pos), b);
  }

  /** A ray of n cells from (i, j) lies on the board. */
  ghost predicate RayOnBoard(d: Direction, i: int, j: int, n: nat) {
    n == 0 || (InBounds(i, j) && InBounds(Offset(d, i, j, n - 1).0, Offset(d, i, j, n - 1).1))
  }

  /** Painting one more cell of the ray is one more write of the loop: the
      (k+1)-cell ray is the k-cell ray with cell k recoloured by draw pos + k. */
  lemma PaintRayStep(b: Grid, i: int, j: int, d: Direction, k: nat, distr: nat -> Draw, pos: nat)
    requires WellFormed(b) && RayOnBoard(d, i, j, k + 1)
    ensures var (x, y) := Offset(d, i, j, k);
      PaintRay(b, i, j, d, k + 1, distr, pos) == WithColour(PaintRay(b, i, j, d, k, distr, pos), x, y, DrawnColour(distr, pos + k))
  {
    var (x, y) := Offset(d, i, j, k);
    var after := PaintRay(b, i, j, d, k + 1, distr, pos);
    var before := WithColour(PaintRay(b, i, j, d, k, distr, pos), x, y, DrawnColour(distr, pos + k));
    StepsToOffset(d, i, j, k);
    forall u, v | InBounds(u, v)
      ensures after[u][v] == before[u][v]
    {
      PaintRayAt(b, i, j, d, k + 1, distr, pos, u, v);
      PaintRayAt(b, i, j, d, k, distr, pos, u, v);
    }
    GridEquality(after, before);
  }

  /** The direction of the first refill loop of an axis. */
  function First(axis: Axis): Direction {
    if axis == VERTICAL then UP else LEFT
  }

  /** The direction of the second refill loop of an axis. */
  function Second(axis: Axis): Direction {
    if axis == VERTICAL then DOWN else RIGHT
  }

  /** The run around (I, J) that a refill covers: rows [I-d1, I+d2] of column J,
      or columns [J-d1, J+d2] of row I. */
  predicate InRun(axis: Axis, I: int, J: int, d1: nat, d2: nat, x: int, y: int) {
    match axis
    case VERTICAL => y == J && I - d1 <= x <= I + d2
    case HORIZONTAL => x == I && J - d1 <= y <= J + d2
  }

  /** Both ends of the run are on the board. */
  ghost predicate RunOnBoard(axis: Axis, I: int, J: int, d1: nat, d2: nat) {
    InBounds(I, J)
    && InBounds(Offset(First(axis), I, J, d1).0, Offset(First(axis), I, J, d1).1)
    && InBounds(Offset(Second(axis), I, J, d2).0, Offset(Second(axis), I, J, d2).1)
  }

  /** The runs a scan finds stay on the board, so a refill of either axis
      indexes only cells in rows and columns 0 .. 8. */
  lemma ScanRunsOnBoard(b: Grid, I: int, J: int)
    requires WellFormed(b) && InBounds(I, J)
    ensures var cnt := Scan(b, I, J);
      RunOnBoard(VERTICAL, I, J, cnt.up, cnt.down) && RunOnBoard(HORIZONTAL, I, J, cnt.left, cnt.right)
  {
  }

  /** `RandomizeCorrectShapes`: from the pivot outwards d1 + 1 cells in the
      first direction, then d2 + 1 cells in the second; the pivot is drawn in
      both loops. It consumes d1 + d2 + 2 draws. */
  function Refill(b: Grid, I: int, J: int, d1: nat, d2: nat, axis: Axis, distr: nat -> Draw, pos: nat): (r: Grid)
    requires WellFormed(b)
    ensures WellFormed(r)
  {
    var firstPass := PaintRay(b, I, J, First(axis), d1 + 1, distr, pos);
    PaintRay(firstPass, I, J, Second(axis), d2 + 1, distr, pos + d1 + 1)
  }

  /** Which draw, counted from the start of the refill, a run cell keeps:
      k for the k-th cell of the first loop, d1 + 1 + k for the k-th cell of
      the second loop (so d1 + 1 for the pivot, whose first draw is lost). */
  function RefillDraw(axis: Axis, I: int, J: int, d1: nat, x: int, y: int): int {
    var k2 := StepsTo(Second(axis), I, J, x, y);
    if k2 >= 0 then d1 + 1 + k2 else StepsTo(First(axis), I, J, x, y)
  }

  /** Refill cell by cell: it writes only the run, every run cell gets a
      palette colour (exactly the draw RefillDraw names), and no status
      changes. */
  lemma RefillAt(b: Grid, I: int, J: int, d1: nat, d2: nat, axis: Axis, distr: nat -> Draw, pos: nat, x: int, y: int)
    requires WellFormed(b) && InBounds(x, y)
    ensures Refill(b, I, J, d1, d2, axis, distr, pos)[x][y] ==
      if InRun(axis, I, J, d1, d2, x, y) then b[x][y].SetColour(DrawnColour(distr, pos + RefillDraw(axis, I, J, d1, x, y)))
      else b[x][y]
  {
    var firstPass := PaintRay(b, I, J, First(axis), d1 + 1, distr, pos);
    var r := PaintRay(firstPass, I, J, Second(axis), d2 + 1, distr, pos + d1 + 1);
    PaintRayAt(b, I, J, First(axis), d1 + 1, distr, pos, x, y);
    PaintRayAt(firstPass, I, J, Second(axis), d2 + 1, distr, pos + d1 + 1, x, y);
    RefillCellCombines(b[x][y], firstPass[x][y], r[x][y], I, J, d1, d2, axis, distr, pos, x, y);
  }

  /** The two refill loops composed on one cell. */
  lemma RefillCellCombines(s: Shape, f: Shape, t: Shape, I: int, J: int, d1: nat, d2: nat, axis: Axis, distr: nat -> Draw, pos: nat, x: int, y: int)
    requires f == if 0 <= StepsTo(First(axis), I, J, x, y) < d1 + 1
      then s.SetColour(DrawnColour(distr, pos + StepsTo(First(axis), I, J, x, y))) else s
    requires t == if 0 <= StepsTo(Second(axis), I, J, x, y) < d2 + 1
      then f.SetColour(DrawnColour(distr, pos + d1 + 1 + StepsTo(Second(axis), I, J, x, y))) else f
    ensures t == if InRun(axis, I, J, d1, d2, x, y) then s.SetColour(DrawnColour(distr, pos + RefillDraw(axis, I, J, d1, x, y))) else s
  {
    match axis
    case VERTICAL =>
    case HORIZONTAL =>
  }

  /** The whole-board view of RefillAt. */
  lemma RefillKeeps(b: Grid, I: int, J: int, d1: nat, d2: nat, axis: Axis, distr: nat -> Draw, pos: nat)
    requires WellFormed(b)
    ensures var r := Refill(b, I, J, d1, d2, axis, distr, pos);
      SameStatuses(b, r)
      && (forall x, y :: InBounds(x, y) && !InRun(axis, I, J, d1, d2, x, y) ==> r[x][y] == b[x][y])
      && (forall x, y :: InBounds(x, y) && InRun(axis, I, J, d1, d2, x, y) ==> InPalette(r[x][y].colour))
      && (AllInPalette(b) ==> AllInPalette(r))
  {
    forall x, y | InBounds(x, y) {
      RefillAt(b, I, J, d1, d2, axis, distr, pos, x, y);
    }
  }

  /** The scoring of one axis: a run of d1 + d2 + 1 >= 3 cells through the
      pivot adds 10 per cell and is refilled. */
  function ScoreAxis(g: Game, I: int, J: int, axis: Axis, d1: nat, d2: nat, distr: nat -> Draw): (r: Game)
    requires WellFormed(g.board)
    ensures WellFormed(r.board)
    ensures r.row == g.row && r.col == g.col && r.selected == g.selected
  {
    var run := d1 + d2 + 1;
    if run >= 3 then
      g.(score := g.score + run * 10,
         board := Refill(g.board, I, J, d1, d2, axis, distr, g.drawn),
         drawn := g.drawn + d1 + d2 + 2)
    else g
  }

  /** `CalculateScore(shapeMatrix[I][J], I, J)` on the state g: the four counts
      are taken first; a vertical run of three or more adds 10 per cell and is
      refilled, then a horizontal run of three or more adds 10 per cell and is
      refilled. */
  function ScoreResult(g: Game, I: int, J: int, distr: nat -> Draw): (r: Game)
    requires WellFormed(g.board) && InBounds(I, J)
    ensures WellFormed(r.board)
    ensures r.row == g.row && r.col == g.col && r.selected == g.selected
  {
    var cnt := Scan(g.board, I, J);
    var g1 := ScoreAxis(g, I, J, VERTICAL, cnt.up, cnt.down, distr);
    ScoreAxis(g1, I, J, HORIZONTAL, cnt.left, cnt.right, distr)
  }

  /** Points per matched axis: 10 per cell for a run of three or more. */
  function AxisPoints(run: nat): nat {
    if run >= 3 then 10 * run else 0
  }

  /** The score rises by exactly the points of both axes (a cross scores both),
      and the draws consumed are those of the refills that ran. */
  lemma ScoreResultScore(g: Game, I: int, J: int, distr: nat -> Draw)
    requires WellFormed(g.board) && InBounds(I, J)
    ensures var cnt := Scan(g.board, I, J);
      var r := ScoreResult(g, I, J, distr);
      r.score == g.score + AxisPoints(cnt.up + cnt.down + 1) + AxisPoints(cnt.left + cnt.right + 1)
      && r.score >= g.score
      && r.drawn == g.drawn
           + (if cnt.Vertical() >= 3 then cnt.up + cnt.down + 2 else 0)
           + (if cnt.Horizontal() >= 3 then cnt.left + cnt.right + 2 else 0)
  {
  }

  /** A straight run of exactly three with no perpendicular run scores 30. */
  lemma StraightThreeScoresThirty(g: Game, I: int, J: int, distr: nat -> Draw)
    requires WellFormed(g.board) && InBounds(I, J)
    requires Scan(g.board, I, J).Vertical() == 3 && Scan(g.board, I, J).Horizontal() < 3
    ensures ScoreResult(g, I, J, distr).score == g.score + 30
  {
  }

  /** With no run of three on either axis, nothing at all changes. */
  lemma ScoreResultNoMatch(g: Game, I: int, J: int, distr: nat -> Draw)
    requires WellFormed(g.board) && InBounds(I, J)
    requires Scan(g.board, I, J).Vertical() < 3 && Scan(g.board, I, J).Horizontal() < 3
    ensures ScoreResult(g, I, J, distr) == g
  {
  }

  /** The cell (x, y) is in a run of three or more that an axis scoring refills. */
  predicate InScoredRun(axis: Axis, I: int, J: int, d1: nat, d2: nat, x: int, y: int) {
    d1 + d2 + 1 >= 3 && InRun(axis, I, J, d1, d2, x, y)
  }

  /** A cell is in a run that the scan at (I, J) matched. */
  ghost predicate InMatchedRun(b: Grid, I: int, J: int, x: int, y: int)
    requires WellFormed(b) && InBounds(I, J)
  {
    var cnt := Scan(b, I, J);
    InScoredRun(VERTICAL, I, J, cnt.up, cnt.down, x, y) || InScoredRun(HORIZONTAL, I, J, cnt.left, cnt.right, x, y)
  }

  /** Scoring one axis changes only the cells of a matched run, to palette
      colours, and no status. */
  lemma ScoreAxisFrame(g: Game, I: int, J: int, axis: Axis, d1: nat, d2: nat, distr: nat -> Draw)
    requires WellFormed(g.board)
    ensures var r := ScoreAxis(g, I, J, axis, d1, d2, distr);
      SameStatuses(g.board, r.board)
      && (forall x, y :: InBounds(x, y) && !InScoredRun(axis, I, J, d1, d2, x, y) ==> r.board[x][y] == g.board[x][y])
      && (forall x, y :: InBounds(x, y) && InScoredRun(axis, I, J, d1, d2, x, y) ==> InPalette(r.board[x][y].colour))
  {
    if d1 + d2 + 1 >= 3 {
      RefillKeeps(g.board, I, J, d1, d2, axis, distr, g.drawn);
    }
  }

  /** Scoring keeps the cursor, the flag and every status; it changes only the
      cells of the matched runs, and those end with palette colours. */
  lemma ScoreResultFrame(g: Game, I: int, J: int, distr: nat -> Draw)
    requires WellFormed(g.board) && InBounds(I, J)
    ensures var r := ScoreResult(g, I, J, distr);
      SameStatuses(g.board, r.board)
      && (forall x, y :: InBounds(x, y) && !InMatchedRun(g.board, I, J, x, y) ==> r.board[x][y] == g.board[x][y])
      && (forall x, y :: InBounds(x, y) && InMatchedRun(g.board, I, J, x, y) ==> InPalette(r.board[x][y].colour))
      && (AllInPalette(g.board) ==> AllInPalette(r.board))
  {
    var cnt := Scan(g.board, I, J);
    var g1 := ScoreAxis(g, I, J, VERTICAL, cnt.up, cnt.down, distr);
    ScoreAxisFrame(g, I, J, VERTICAL, cnt.up, cnt.down, distr);
    ScoreAxisFrame(g1, I, J, HORIZONTAL, cnt.left, cnt.right, distr);
  }
}
