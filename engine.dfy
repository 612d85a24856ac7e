/** The engine object (`GameLogic`, include/game_logic.hpp and
    src/game_logic.cpp).  The static board `shapeMatrix` is a 9x9 array of
    tiles; `cells` is its contents as a value, and each method is proved
    equal to a pure function of the old state or the old board. */
module Engine {
  import opened Shapes
  import opened Board
  import opened Matching
  import opened Moves

  /** The board every tile of which came from draw `base + 9i + j`: the static
      initialisation of `shapeMatrix`, one `Shape()` per cell in row order. */
  function StaticBoard(distr: nat -> Draw, base: nat): (b: Grid)
    ensures WellFormed(b)
  {
    seq(N, i requires 0 <= i < N => seq(N, j requires 0 <= j < N => Shape(DrawnColour(distr, base + N * i + j), NONE)))
  }

  /** Every cell of b recoloured, in row order, with the draws pos, pos+1, ...;
      the statuses are kept. */
  function Redrawn(b: Grid, distr: nat -> Draw, pos: nat): (r: Grid)
    requires WellFormed(b)
    ensures WellFormed(r)
  {
    seq(N, i requires 0 <= i < N => seq(N, j requires 0 <= j < N => b[i][j].SetColour(DrawnColour(distr, pos + N * i + j))))
  }

  /** The board after construction: the constructor redraws every cell, in
      row order, after the 81 draws of the static initialisation. */
  function InitialBoard(distr: nat -> Draw, base: nat): (b: Grid)
    ensures WellFormed(b)
  {
    Redrawn(StaticBoard(distr, base), distr, base + N * N)
  }

  /** A new engine's board has palette colours and no status set, so the new
      engine satisfies the invariant. */
  lemma InitialBoardValid(distr: nat -> Draw, base: nat)
    ensures AllInPalette(InitialBoard(distr, base))
    ensures forall x, y :: InBounds(x, y) ==> InitialBoard(distr, base)[x][y].status == NONE
    ensures Invariant(Game(InitialBoard(distr, base), 0, 0, 0, false, base + 2 * N * N))
  {
    var b: Grid := InitialBoard(distr, base);
    forall x: int, y: int | InBounds(x, y)
      ensures InPalette(b[x][y].colour) && b[x][y].status == NONE
    {
      assert b[x][y] == StaticBoard(distr, base)[x][y].SetColour(DrawnColour(distr, base + N * N + N * x + y));
    }
    InitialInvariant(b, base + 2 * N * N);
  }

  /** The static initialisation of `shapeMatrix`: 81 default-constructed
      tiles, row by row. */
  method NewBoard(gen: Generator) returns (m: array2<Shape>)
    modifies gen
    ensures fresh(m) && m.Length0 == N && m.Length1 == N
    ensures forall u, v :: 0 <= u < N && 0 <= v < N ==> m[u, v] == StaticBoard(gen.distr, old(gen.pos))[u][v]
    ensures gen.pos == old(gen.pos) + N * N
  {
    var base := gen.pos;
    m := new Shape[N, N];
    for i := 0 to N
      invariant gen.pos == base + N * i
      invariant forall u, v :: 0 <= u < i && 0 <= v < N ==> m[u, v] == StaticBoard(gen.distr, base)[u][v]
    {
      for j := 0 to N
        invariant gen.pos == base + N * i + j
        invariant forall u, v :: 0 <= u < i && 0 <= v < N ==> m[u, v] == StaticBoard(gen.distr, base)[u][v]
        invariant forall v :: 0 <= v < j ==> m[i, v] == StaticBoard(gen.distr, base)[i][v]
      {
        var s := NewShape(gen);
        m[i, j] := s;
      }
    }
  }

  class GameLogic {
    const shapeMatrix: array2<Shape>
    ghost var cells: Grid
    var currentI: int
    var currentJ: int
    var score: int
    var isSomethingSelected: bool
    const gen: Generator

    /** The array is 9x9 and holds exactly `cells`. */
    ghost predicate Sync()
      reads this, shapeMatrix
    {
      shapeMatrix.Length0 == N && shapeMatrix.Length1 == N && WellFormed(cells)
      && forall i, j :: 0 <= i < N && 0 <= j < N ==> shapeMatrix[i, j] == cells[i][j]
    }

    /** The engine's state as a value. */
    ghost function State(): Game
      reads this, gen
    {
      Game(cells, currentI, currentJ, score, isSomethingSelected, gen.pos)
    }

    ghost predicate Valid()
      reads this, shapeMatrix, gen
    {
      Sync() && Invariant(State())
    }

    /** The static initialisation of the board followed by `GameLogic()`,
        which redraws every cell: 162 draws in all. */
    constructor (stream: Generator)
      modifies stream
      ensures Valid() && gen == stream && fresh(shapeMatrix)
      ensures cells == InitialBoard(gen.distr, old(stream.pos)) && gen.pos == old(stream.pos) + 2 * N * N
      ensures currentI == 0 && currentJ == 0 && score == 0 && !isSomethingSelected
    {
      var base := stream.pos;
      var m := NewBoard(stream);
      shapeMatrix := m;
      cells := StaticBoard(stream.distr, base);
      currentI, currentJ, score, isSomethingSelected := 0, 0, 0, false;
      gen := stream;
      new;
      RandomizeAll();
      InitialBoardValid(gen.distr, base);
    }

    /** The loops of `GameLogic()`: every cell, row by row, gets the next draw. */
    method RandomizeAll()
      requires Sync()
      modifies this`cells, shapeMatrix, gen
      ensures Sync() && cells == Redrawn(old(cells), gen.distr, old(gen.pos))
      ensures gen.pos == old(gen.pos) + N * N
    {
      ghost var b, p := cells, gen.pos;
      for i := 0 to N
        invariant Sync() && gen.pos == p + N * i
        invariant forall u, v :: 0 <= u < N && 0 <= v < N ==>
          cells[u][v] == if u < i then Redrawn(b, gen.distr, p)[u][v] else b[u][v]
      {
        for j := 0 to N
          invariant Sync() && gen.pos == p + N * i + j
          invariant forall u, v :: 0 <= u < N && 0 <= v < N ==>
            cells[u][v] == if u < i || (u == i && v < j) then Redrawn(b, gen.distr, p)[u][v] else b[u][v]
        {
          RandomizeAt(i, j);
        }
      }
      GridEquality(cells, Redrawn(b, gen.distr, p));
    }

    /** `GetShapeAt(i, j)`: a copy of the tile; there is no bounds check, so
        the indices must be on the board. */
    function GetShapeAt(i: int, j: int): (s: Shape)
      reads this, shapeMatrix
      requires Sync() && InBounds(i, j)
      ensures s == cells[i][j]
    {
      shapeMatrix[i, j]
    }

    function GetCurrentI(): (r: int)
      reads this, shapeMatrix, gen
      ensures Valid() ==> 0 <= r < N && r == State().row
    {
      currentI
    }

    function GetCurrentJ(): (r: int)
      reads this, shapeMatrix, gen
      ensures Valid() ==> 0 <= r < N && r == State().col
    {
      currentJ
    }

    function GetScore(): (r: int)
      reads this, shapeMatrix, gen
      ensures Valid() ==> r >= 0 && r == State().score
    {
      score
    }

    function GetSomethingSelectedFlag(): (r: bool)
      reads this, shapeMatrix, gen
      ensures r == State().selected
      ensures Valid() && !r ==> forall i, j :: InBounds(i, j) ==> cells[i][j].status != SELECTED
    {
      isSomethingSelected
    }

    /** Writes one colour into the board. */
    method SetColourAt(i: int, j: int, c: ShapeColour)
      requires Sync() && InBounds(i, j)
      modifies this`cells, shapeMatrix
      ensures Sync() && cells == WithColour(old(cells), i, j, c)
    {
      var s := shapeMatrix[i, j].SetColour(c);
      shapeMatrix[i, j] := s;
      cells := cells[i := cells[i][j := s]];
    }

    /** Writes one status into the board. */
    method SetStatusAt(i: int, j: int, st: ShapeStatus)
      requires Sync() && InBounds(i, j)
      modifies this`cells, shapeMatrix
      ensures Sync() && cells == WithStatus(old(cells), i, j, st)
    {
      var s := shapeMatrix[i, j].SetStatus(st);
      shapeMatrix[i, j] := s;
      cells := cells[i := cells[i][j := s]];
    }

    /** `shapeMatrix[i][j].SetRandomColour()`: takes the next draw. */
    method RandomizeAt(i: int, j: int)
      requires Sync() && InBounds(i, j)
      modifies this`cells, shapeMatrix, gen
      ensures Sync() && cells == WithColour(old(cells), i, j, DrawnColour(gen.distr, old(gen.pos)))
      ensures gen.pos == old(gen.pos) + 1
    {
      var s := shapeMatrix[i, j].SetRandomColour(gen);
      shapeMatrix[i, j] := s;
      cells := cells[i := cells[i][j := s]];
    }

    /** One refill loop of `RandomizeCorrectShapes`: the n cells from (I, J)
        going d, in that order, each get the next draw. */
    method RandomizeRay(I: int, J: int, d: Direction, n: nat)
      requires Sync() && RayOnBoard(d, I, J, n)
      modifies this`cells, shapeMatrix, gen
      ensures Sync() && cells == PaintRay(old(cells), I, J, d, n, gen.distr, old(gen.pos))
      ensures gen.pos == old(gen.pos) + n
    {
      ghost var b, p := cells, gen.pos;
      PaintRayNone(b, I, J, d, gen.distr, p);
      for k := 0 to n
        invariant Sync() && gen.pos == p + k
        invariant cells == PaintRay(b, I, J, d, k, gen.distr, p)
      {
        PaintRayStep(b, I, J, d, k, gen.distr, p);
        var (x, y) := Offset(d, I, J, k);
        RandomizeAt(x, y);
      }
    }

    /** `RandomizeCorrectShapes(I, J, d1, d2, axis)`: the run of d1 cells on
        one side of the pivot and d2 on the other is redrawn, the pivot twice. */
    method RandomizeCorrectShapes(I: int, J: int, d1: nat, d2: nat, axis: Axis)
      requires Sync() && RunOnBoard(axis, I, J, d1, d2)
      modifies this`cells, shapeMatrix, gen
      ensures Sync() && cells == Refill(old(cells), I, J, d1, d2, axis, gen.distr, old(gen.pos))
      ensures gen.pos == old(gen.pos) + d1 + d2 + 2
    {
      RandomizeRay(I, J, First(axis), d1 + 1);
      RandomizeRay(I, J, Second(axis), d2 + 1);
    }

    /** One scan loop of `CalculateScore`: the number of cells after the
        pivot, going d, that have the pivot's colour, up to the first that
        does not or to the edge. */
    method CountRay(d: Direction, I: int, J: int) returns (count: nat)
      requires Sync() && InBounds(I, J)
      ensures count == Run(cells, d, I, J)
    {
      var c := GetShapeAt(I, J).GetColour();
      count := 0;
      var x, y := Neighbour(d, I, J).0, Neighbour(d, I, J).1;
      while InBounds(x, y)
        invariant -1 <= x <= N && -1 <= y <= N
        invariant count + Ray(cells, d, x, y, c) == Run(cells, d, I, J)
        decreases Reach(d, x, y)
      {
        if GetShapeAt(x, y).GetColour() == c {
          count := count + 1;
          x, y := Neighbour(d, x, y).0, Neighbour(d, x, y).1;
        } else {
          break;
        }
      }
    }

    /** One scoring block of `CalculateScore`: a run of d1 + d2 + 1 >= 3
        cells through the pivot adds 10 per cell and is refilled. */
    method ScoreRun(I: int, J: int, d1: nat, d2: nat, axis: Axis)
      requires Sync() && RunOnBoard(axis, I, J, d1, d2)
      modifies this, shapeMatrix, gen
      ensures Sync() && State() == ScoreAxis(old(State()), I, J, axis, d1, d2, gen.distr)
    {
      var run := d1 + d2 + 1;
      if run >= 3 {
        score := score + run * 10;
        RandomizeCorrectShapes(I, J, d1, d2, axis);
      }
    }

    /** `CalculateScore(shapeMatrix[I][J], I, J)`: all four scans first, then
        the vertical and the horizontal scoring. */
    method CalculateScore(I: int, J: int)
      requires Sync() && InBounds(I, J)
      modifies this, shapeMatrix, gen
      ensures Sync() && State() == ScoreResult(old(State()), I, J, gen.distr)
    {
      ghost var g0 := State();
      var up := CountRay(UP, I, J);
      var left := CountRay(LEFT, I, J);
      var down := CountRay(DOWN, I, J);
      var right := CountRay(RIGHT, I, J);
      assert Scan(cells, I, J) == Counts(up, left, down, right);
      ScoreRun(I, J, up, down, VERTICAL);
      ScoreRun(I, J, left, right, HORIZONTAL);
    }

    /** `CheckShift(currentShape, neighbour, d)`. */
    method CheckShift(d: Direction)
      requires Sync() && InBounds(currentI, currentJ) && CanMove(d, currentI, currentJ)
      modifies this, shapeMatrix, gen
      ensures Sync() && State() == ShiftResult(old(State()), d, gen.distr)
    {
      var firstI, firstJ := currentI, currentJ;
      var secondI, secondJ;
      match d {
        case UP => secondI, secondJ := currentI - 1, currentJ;
        case LEFT => secondI, secondJ := currentI, currentJ - 1;
        case DOWN => secondI, secondJ := currentI + 1, currentJ;
        case RIGHT => secondI, secondJ := currentI, currentJ + 1;
      }
      assert (secondI, secondJ) == Neighbour(d, firstI, firstJ);
      CalculateScore(firstI, firstJ);
      CalculateScore(secondI, secondJ);
    }

    /** The in-bounds branch of `Move(d)`, shared by its four cases. */
    method MoveInBounds(d: Direction)
      requires Sync() && InBounds(currentI, currentJ) && CanMove(d, currentI, currentJ)
      modifies this, shapeMatrix, gen
      ensures Sync() && State() == Advance(old(State()), d, gen.distr)
    {
      var currentShapeColour := shapeMatrix[currentI, currentJ].GetColour();
      var x, y := Neighbour(d, currentI, currentJ).0, Neighbour(d, currentI, currentJ).1;
      if shapeMatrix[currentI, currentJ].GetStatus() == SELECTED {
        SetColourAt(currentI, currentJ, shapeMatrix[x, y].GetColour());
        SetColourAt(x, y, currentShapeColour);
        CheckShift(d);
      } else {
        isSomethingSelected := false;
      }
      SetStatusAt(currentI, currentJ, NONE);
      currentI, currentJ := x, y;
    }

    /** `Move(d)`. */
    method Move(d: Direction)
      requires Valid()
      modifies this, shapeMatrix, gen
      ensures Valid() && State() == MoveResult(old(State()), d, gen.distr)
    {
      ghost var g0 := State();
      var canMove := match d
        case UP => currentI > 0
        case LEFT => currentJ > 0
        case DOWN => currentI < N - 1
        case RIGHT => currentJ < N - 1;
      if canMove {
        MoveInBounds(d);
      }
      SetStatusAt(currentI, currentJ, SELECTABLE);
      MovePreservesInvariant(g0, d, gen.distr);
    }

    /** `SelectShape()`. */
    method SelectShape()
      requires Valid()
      modifies this, shapeMatrix
      ensures Valid() && State() == SelectResult(old(State()))
    {
      ghost var g0 := State();
      if shapeMatrix[currentI, currentJ].GetStatus() != SELECTED {
        SetStatusAt(currentI, currentJ, SELECTED);
        isSomethingSelected := true;
      } else {
        SetStatusAt(currentI, currentJ, SELECTABLE);
        isSomethingSelected := false;
      }
      SelectPreservesInvariant(g0);
    }
  }
}
