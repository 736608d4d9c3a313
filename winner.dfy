/**
 * Win detection (`calculateWinner`) on a `side` by `side` board stored as a
 * sequence of squares in row-major order: square (row, col) is at index
 * `row * side + col`.
 */
module WinDetection {
  import opened Squares

  // ---------------------------------------------------------------------------
  // The candidate lines
  // ---------------------------------------------------------------------------

  /** Grid row `row`, left to right: it starts at `row * side` and steps by 1. */
  function Row(side: nat, row: int): (line: seq<int>)
    ensures |line| == side
    ensures side > 0 ==> line[0] == row * side
    ensures forall j :: 0 <= j < side - 1 ==> line[j + 1] == line[j] + 1
  {
    seq(side, c => row * side + c)
  }

  /** Grid column `col`, top to bottom: it starts at `col` and steps by `side`. */
  function Column(side: nat, col: int): (line: seq<int>)
    ensures |line| == side
    ensures side > 0 ==> line[0] == col
    ensures forall j :: 0 <= j < side - 1 ==> line[j + 1] == line[j] + side
  {
    seq(side, r => r * side + col)
  }

  /** The diagonal from the top-left corner to the bottom-right one: from 0 in steps of `side + 1`. */
  function MainDiagonal(side: nat): (line: seq<int>)
    ensures |line| == side
    ensures side > 0 ==> line[0] == 0
    ensures forall j :: 0 <= j < side - 1 ==> line[j + 1] == line[j] + side + 1
  {
    seq(side, i => i * side + i)
  }

  /** The diagonal from the top-right corner to the bottom-left one: from `side - 1` in steps of `side - 1`. */
  function AntiDiagonal(side: nat): (line: seq<int>)
    ensures |line| == side
    ensures side > 0 ==> line[0] == side - 1
    ensures forall j :: 0 <= j < side - 1 ==> line[j + 1] == line[j] + side - 1
  {
    seq(side, i => (i + 1) * side - (i + 1))
  }

  function Rows(side: nat): seq<seq<int>> {
    seq(side, row => Row(side, row))
  }

  function Columns(side: nat): seq<seq<int>> {
    seq(side, col => Column(side, col))
  }

  /** All candidate lines, in the order the scan visits them. */
  function Lines(side: nat): (lines: seq<seq<int>>)
    ensures |lines| == 2 * side + 2
    ensures forall n :: 0 <= n < |lines| ==> |lines[n]| == side
  {
    Rows(side) + Columns(side) + [MainDiagonal(side), AntiDiagonal(side)]
  }

  /** The grid coordinates (row, column) of board index `idx`. */
  function Coord(side: nat, idx: int): (int, int)
    requires side > 0
  {
    (idx / side, idx % side)
  }

  /** The indices of `line` increase strictly from its first to its last. */
  predicate Increasing(line: seq<int>) {
    forall j, j' :: 0 <= j < j' < |line| ==> line[j] < line[j']
  }

  // ---------------------------------------------------------------------------
  // Winning a line
  // ---------------------------------------------------------------------------

  /**
   * The line is won: its first square holds a mark and every other square of
   * it holds the same mark. An index outside the board reads as no mark, as an
   * out-of-range read does in the source, so an empty line is never won.
   */
  predicate Won(squares: seq<Square>, line: seq<int>): (won: bool)
    ensures won <==> exists m :: m != Empty && Owns(squares, line, m)
  {
    var won :=
      && |line| > 0
      && 0 <= line[0] < |squares|
      && squares[line[0]] != Empty
      && forall j :: 1 <= j < |line| ==> 0 <= line[j] < |squares| && squares[line[j]] == squares[line[0]];
    assert won ==> Owns(squares, line, squares[line[0]]);
    won
  }

  /** Every square of the (non-empty) line holds `m`. */
  ghost predicate Owns(squares: seq<Square>, line: seq<int>, m: Square) {
    && |line| > 0
    && forall j :: 0 <= j < |line| ==> 0 <= line[j] < |squares| && squares[line[j]] == m
  }

  /** The mark of the first won line among `lines[k..]`, or Empty if there is none. */
  function WinnerFrom(squares: seq<Square>, lines: seq<seq<int>>, k: nat): (w: Square)
    requires k <= |lines|
    ensures w == Empty ==> forall n :: k <= n < |lines| ==> !Won(squares, lines[n])
    ensures w != Empty ==>
      exists n :: && k <= n < |lines|
                  && Won(squares, lines[n])
                  && squares[lines[n][0]] == w
                  && forall j :: k <= j < n ==> !Won(squares, lines[j])
    decreases |lines| - k
  {
    if k == |lines| then Empty
    else if Won(squares, lines[k]) then squares[lines[k][0]]
    else WinnerFrom(squares, lines, k + 1)
  }

  /**
   * The winner of a board: the mark of the first won line in the order rows,
   * columns, main diagonal, anti-diagonal; Empty when no line is won.
   */
  function Winner(squares: seq<Square>, side: nat): (w: Square)
    requires |squares| == side * side
    ensures w == Empty ==> forall n :: 0 <= n < |Lines(side)| ==> !Won(squares, Lines(side)[n])
    ensures w != Empty ==>
      exists n :: && 0 <= n < |Lines(side)|
                  && Won(squares, Lines(side)[n])
                  && squares[Lines(side)[n][0]] == w
                  && forall j :: 0 <= j < n ==> !Won(squares, Lines(side)[j])
  {
    WinnerFrom(squares, Lines(side), 0)
  }

  // ---------------------------------------------------------------------------
  // The imperative implementation
  // ---------------------------------------------------------------------------

  /** Fills the list of lines: the rows, then the columns, then the two diagonals. */
  method BuildLines(side: nat) returns (lines: seq<seq<int>>)
    ensures lines == Lines(side)
  {
    lines := [];
    for row := 0 to side
      invariant lines == Rows(side)[..row]
    {
      assert Rows(side)[..row + 1] == Rows(side)[..row] + [Row(side, row)];
      lines := lines + [Row(side, row)];
    }
    for col := 0 to side
      invariant lines == Rows(side) + Columns(side)[..col]
    {
      assert Columns(side)[..col + 1] == Columns(side)[..col] + [Column(side, col)];
      lines := lines + [Column(side, col)];
    }
    lines := lines + [MainDiagonal(side)];
    lines := lines + [AntiDiagonal(side)];
  }

  /** Builds the lines, then returns the mark of the first won one, or Empty. */
  method CalculateWinner(squares: seq<Square>, side: nat) returns (winner: Square)
    requires |squares| == side * side
    ensures winner == Winner(squares, side)
  {
    var lines := BuildLines(side);
    for n := 0 to |lines|
      invariant WinnerFrom(squares, lines, n) == WinnerFrom(squares, lines, 0)
    {
      if Won(squares, lines[n]) {
        return squares[lines[n][0]];
      }
    }
    return Empty;
  }

  // ---------------------------------------------------------------------------
  // Arithmetic helpers
  // ---------------------------------------------------------------------------

  lemma MulLess(a: int, b: int, c: int)
    requires a < b && 0 < c
    ensures a * c < b * c
  {
  }

  lemma CellInBounds(side: nat, row: int, col: int)
    requires 0 <= row < side && 0 <= col < side
    ensures 0 <= row * side + col < side * side
  {
    MulLess(row, side, side);
    if row + 1 < side {
      MulLess(row + 1, side, side);
    }
    assert (row + 1) * side == row * side + side;
  }

  lemma AntiDiagonalCell(side: nat, i: int)
    requires 0 <= i < side
    ensures (i + 1) * side - (i + 1) == i * side + (side - 1 - i)
  {
  }

  lemma MulLeq(a: int, b: int, c: int)
    requires a <= b && 0 <= c
    ensures a * c <= b * c
  {
  }

  lemma DivMod(side: nat, row: int, col: int)
    requires 0 <= col < side
    ensures (row * side + col) / side == row && (row * side + col) % side == col
  {
    var q := (row * side + col) / side;
    if q < row {
      MulLeq(q + 1, row, side);
    }
    if row < q {
      MulLeq(row + 1, q, side);
    }
  }

  /** The index formula of element `j` of line `n`. */
  lemma LineAt(side: nat, n: int, j: int)
    requires 0 <= n < 2 * side + 2 && 0 <= j < side
    ensures |Lines(side)| == 2 * side + 2 && |Lines(side)[n]| == side
    ensures n < side ==> Lines(side)[n][j] == n * side + j
    ensures side <= n < 2 * side ==> Lines(side)[n][j] == j * side + (n - side)
    ensures n == 2 * side ==> Lines(side)[n][j] == j * side + j
    ensures n == 2 * side + 1 ==> Lines(side)[n][j] == (j + 1) * side - (j + 1)
  {
  }

  /** There are 2 * side + 2 lines, each `side` long, all inside the board. */
  lemma LinesInBounds(side: nat)
    ensures |Lines(side)| == 2 * side + 2
    ensures forall n :: 0 <= n < |Lines(side)| ==> |Lines(side)[n]| == side
    ensures forall n, j :: 0 <= n < |Lines(side)| && 0 <= j < side ==> 0 <= Lines(side)[n][j] < side * side
  {
    assert |Lines(side)| == 2 * side + 2;
    forall n | 0 <= n < 2 * side + 2
      ensures |Lines(side)[n]| == side
    {
      if n < side {
        assert Lines(side)[n] == Row(side, n);
      } else if n < 2 * side {
        assert Lines(side)[n] == Column(side, n - side);
      }
    }
    forall n, j | 0 <= n < 2 * side + 2 && 0 <= j < side
      ensures 0 <= Lines(side)[n][j] < side * side
    {
      LineAt(side, n, j);
      if n < side {
        CellInBounds(side, n, j);
      } else if n < 2 * side {
        CellInBounds(side, j, n - side);
      } else if n == 2 * side {
        CellInBounds(side, j, j);
      } else {
        AntiDiagonalCell(side, j);
        CellInBounds(side, j, side - 1 - j);
      }
    }
  }

  lemma RowCell(side: nat, r: int, c: int)
    requires 0 <= r < side && 0 <= c < side
    ensures |Lines(side)| == 2 * side + 2 && |Lines(side)[r]| == side
    ensures Coord(side, Lines(side)[r][c]) == (r, c)
  {
    LineAt(side, r, c);
    DivMod(side, r, c);
  }

  lemma ColumnCell(side: nat, r: int, c: int)
    requires 0 <= r < side && 0 <= c < side
    ensures |Lines(side)| == 2 * side + 2 && |Lines(side)[side + c]| == side
    ensures Coord(side, Lines(side)[side + c][r]) == (r, c)
  {
    LineAt(side, side + c, r);
    DivMod(side, r, c);
  }

  lemma DiagonalCells(side: nat, i: int)
    requires 0 <= i < side
    ensures |Lines(side)| == 2 * side + 2 && |Lines(side)[2 * side]| == side && |Lines(side)[2 * side + 1]| == side
    ensures Coord(side, Lines(side)[2 * side][i]) == (i, i)
    ensures Coord(side, Lines(side)[2 * side + 1][i]) == (i, side - 1 - i)
  {
    LineAt(side, 2 * side, i);
    LineAt(side, 2 * side + 1, i);
    DivMod(side, i, i);
    AntiDiagonalCell(side, i);
    DivMod(side, i, side - 1 - i);
  }

  /**
   * Line `r` is grid row r, line `side + c` is grid column c, and the last two
   * lines are the two diagonals.
   */
  lemma LinesGeometry(side: nat)
    ensures forall r, c :: 0 <= r < side && 0 <= c < side ==>
      && Coord(side, Lines(side)[r][c]) == (r, c)
      && Coord(side, Lines(side)[side + c][r]) == (r, c)
    ensures forall i :: 0 <= i < side ==>
      && Coord(side, Lines(side)[2 * side][i]) == (i, i)
      && Coord(side, Lines(side)[2 * side + 1][i]) == (i, side - 1 - i)
  {
    forall r, c | 0 <= r < side && 0 <= c < side
      ensures Coord(side, Lines(side)[r][c]) == (r, c)
      ensures Coord(side, Lines(side)[side + c][r]) == (r, c)
    {
      RowCell(side, r, c);
      ColumnCell(side, r, c);
    }
    forall i | 0 <= i < side
      ensures Coord(side, Lines(side)[2 * side][i]) == (i, i)
      ensures Coord(side, Lines(side)[2 * side + 1][i]) == (i, side - 1 - i)
    {
      DiagonalCells(side, i);
    }
  }

  lemma IncreasingPair(side: nat, n: int, j: int, j': int)
    requires 0 <= n < 2 * side + 2 && 0 <= j < j' < side
    ensures |Lines(side)| == 2 * side + 2 && |Lines(side)[n]| == side
    ensures Lines(side)[n][j] < Lines(side)[n][j']
  {
    LineAt(side, n, j);
    LineAt(side, n, j');
    if n < side {
    } else if n <= 2 * side {
      MulLess(j, j', side);
    } else {
      MulLess(j, j', side - 1);
      assert (j + 1) * side - (j + 1) == j * (side - 1) + (side - 1);
      assert (j' + 1) * side - (j' + 1) == j' * (side - 1) + (side - 1);
    }
  }

  /** Along every line the indices increase strictly, so no square repeats. */
  lemma LinesIncreasing(side: nat, n: int)
    requires 0 <= n < 2 * side + 2
    ensures Increasing(Lines(side)[n])
  {
    LinesInBounds(side);
    forall j, j' | 0 <= j < j' < |Lines(side)[n]|
      ensures Lines(side)[n][j] < Lines(side)[n][j']
    {
      IncreasingPair(side, n, j, j');
    }
  }

  // ---------------------------------------------------------------------------
  // Properties of the winner
  // ---------------------------------------------------------------------------

  /**
   * A reported winner owns a whole line of the board, and when no winner is
   * reported no line is owned by a mark.
   */
  lemma WinnerOwnsLine(squares: seq<Square>, side: nat)
    requires |squares| == side * side
    ensures Winner(squares, side) != Empty ==>
      exists n :: 0 <= n < |Lines(side)| && Owns(squares, Lines(side)[n], Winner(squares, side))
    ensures Winner(squares, side) == Empty ==>
      forall n, m :: 0 <= n < |Lines(side)| && m != Empty ==> !Owns(squares, Lines(side)[n], m)
  {
  }

  /** A board with no marks has no winner. */
  lemma EmptyBoardHasNoWinner(side: nat)
    ensures Winner(EmptyBoard(side * side), side) == Empty
  {
  }

  /**
   * When mark `m` owns a line and no other mark holds `side` squares, `m` is
   * the winner, whatever line the scan meets first.
   */
  lemma OwnedLineDecidesWinner(squares: seq<Square>, side: nat, n: int, m: Square)
    requires |squares| == side * side && 0 <= n < 2 * side + 2 && m != Empty
    requires Owns(squares, Lines(side)[n], m)
    requires forall p :: p != Empty && p != m ==> multiset(squares)[p] < side
    ensures Winner(squares, side) == m
  {
    LinesInBounds(side);
    assert Won(squares, Lines(side)[n]);
    WinnerNeedsSideMarks(squares, side);
  }

  /** The board whose squares on `line` hold `m` and whose other squares are empty. */
  function FillLine(size: nat, line: seq<int>, m: Square): seq<Square> {
    seq(size, j => if j in line then m else Empty)
  }

  /** Filling any one line with a mark, on an otherwise empty board, makes that mark the winner. */
  lemma UniformLineWins(side: nat, n: int, m: Square)
    requires side > 0 && 0 <= n < 2 * side + 2 && m != Empty
    ensures Winner(FillLine(side * side, Lines(side)[n], m), side) == m
  {
    LinesInBounds(side);
    var line := Lines(side)[n];
    var squares := FillLine(side * side, line, m);
    forall j | 0 <= j < |line|
      ensures squares[line[j]] == m
    {
      assert line[j] in line;
    }
    assert Won(squares, line);
  }

  /** Counts the squares holding `m` at the indices of an increasing line inside `squares[..size]`. */
  lemma {:induction false} CountAlongLine(squares: seq<Square>, line: seq<int>, m: Square, size: nat)
    requires Increasing(line) && size <= |squares|
    requires forall j :: 0 <= j < |line| ==> 0 <= line[j] < size && squares[line[j]] == m
    ensures multiset(squares[..size])[m] >= |line|
    decreases size
  {
    if size > 0 {
      var last := size - 1;
      assert squares[..size] == squares[..last] + [squares[last]];
      if |line| > 0 && line[|line| - 1] == last {
        var front := line[..|line| - 1];
        assert forall j :: 0 <= j < |front| ==> front[j] == line[j] && line[j] < line[|line| - 1];
        CountAlongLine(squares, front, m, last);
      } else {
        assert forall j :: 0 <= j < |line| ==> line[j] <= line[|line| - 1];
        CountAlongLine(squares, line, m, last);
      }
    }
  }

  /** A winner holds at least `side` squares of the board. */
  lemma WinnerNeedsSideMarks(squares: seq<Square>, side: nat)
    requires |squares| == side * side
    ensures Winner(squares, side) != Empty ==> multiset(squares)[Winner(squares, side)] >= side
  {
    var w := Winner(squares, side);
    if w != Empty {
      LinesInBounds(side);
      var n :| 0 <= n < |Lines(side)| && Won(squares, Lines(side)[n]) && squares[Lines(side)[n][0]] == w;
      LinesIncreasing(side, n);
      CountAlongLine(squares, Lines(side)[n], w, |squares|);
      assert squares[..|squares|] == squares;
    }
  }
}
