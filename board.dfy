/** Board geometry and board values (include/game_logic.hpp, src/game_logic.cpp):
    the 9x9 grid as a value, directions, neighbours, and single-cell updates. */
module Board {
  import opened Shapes

  /** `GameLogic::gameBoardSize`. */
  const N := 9

  datatype Direction = UP | LEFT | DOWN | RIGHT

  datatype Axis = VERTICAL | HORIZONTAL

  /** The contents of `shapeMatrix` as a value: row i, column j is b[i][j]. */
  type Grid = seq<seq<Shape>>

  /** The engine's state as a value: the static fields of `GameLogic`
      (`shapeMatrix`, `currentI`, `currentJ`, `score`, `isSomethingSelected`)
      and the number of random draws taken so far. */
  datatype Game = Game(board: Grid, row: int, col: int, score: int, selected: bool, drawn: nat)

  predicate WellFormed(b: Grid) {
    |b| == N && forall i :: 0 <= i < N ==> |b[i]| == N
  }

  predicate InBounds(i: int, j: int) {
    0 <= i < N && 0 <= j < N
  }

  /** The cell k steps from (i, j) in direction d; rows grow downwards. */
  function Offset(d: Direction, i: int, j: int, k: int): (int, int) {
    match d
    case UP => (i - k, j)
    case LEFT => (i, j - k)
    case DOWN => (i + k, j)
    case RIGHT => (i, j + k)
  }

  /** The cells `shapeUp`, `shapeLeft`, `shapeDown` and `shapeRight` name. */
  function Neighbour(d: Direction, i: int, j: int): (r: (int, int))
    ensures (r.0 == i && (r.1 == j - 1 || r.1 == j + 1)) || (r.1 == j && (r.0 == i - 1 || r.0 == i + 1))
  {
    Offset(d, i, j, 1)
  }

  /** The guard of each case of `Move` (`currentI > 0`, ...). */
  function CanMove(d: Direction, i: int, j: int): (r: bool)
    ensures InBounds(i, j) ==> (r <==> InBounds(Neighbour(d, i, j).0, Neighbour(d, i, j).1))
  {
    match d
    case UP => i > 0
    case LEFT => j > 0
    case DOWN => i < N - 1
    case RIGHT => j < N - 1
  }

  /** The cell (i, j) recoloured. */
  function WithColour(b: Grid, i: int, j: int, c: ShapeColour): (r: Grid)
    requires WellFormed(b) && InBounds(i, j)
    ensures WellFormed(r)
    ensures r[i][j] == b[i][j].SetColour(c)
    ensures forall u, v :: InBounds(u, v) && (u, v) != (i, j) ==> r[u][v] == b[u][v]
  {
    b[i := b[i][j := b[i][j].SetColour(c)]]
  }

  /** The cell (i, j) with a new status. */
  function WithStatus(b: Grid, i: int, j: int, s: ShapeStatus): (r: Grid)
    requires WellFormed(b) && InBounds(i, j)
    ensures WellFormed(r)
    ensures r[i][j] == b[i][j].SetStatus(s)
    ensures forall u, v :: InBounds(u, v) && (u, v) != (i, j) ==> r[u][v] == b[u][v]
  {
    b[i := b[i][j := b[i][j].SetStatus(s)]]
  }

  /** Every cell holds a colour a draw can produce. */
  ghost predicate AllInPalette(b: Grid)
    requires WellFormed(b)
  {
    forall i, j :: InBounds(i, j) ==> InPalette(b[i][j].colour)
  }

  /** Two boards agree on every status. */
  ghost predicate SameStatuses(a: Grid, b: Grid)
    requires WellFormed(a) && WellFormed(b)
  {
    forall i, j :: InBounds(i, j) ==> a[i][j].status == b[i][j].status
  }

  /** Two boards agree on every colour. */
  ghost predicate SameColours(a: Grid, b: Grid)
    requires WellFormed(a) && WellFormed(b)
  {
    forall i, j :: InBounds(i, j) ==> a[i][j].colour == b[i][j].colour
  }

  /** Two well-formed boards that agree cell by cell are equal. */
  lemma GridEquality(a: Grid, b: Grid)
    requires WellFormed(a) && WellFormed(b)
    requires forall i, j :: InBounds(i, j) ==> a[i][j] == b[i][j]
    ensures a == b
  {
    forall i | 0 <= i < N
      ensures a[i] == b[i]
    {
      assert forall j :: 0 <= j < N ==> a[i][j] == b[i][j];
    }
  }
}
