/** Whole games played through `GameState`, using only its contracts. */
module Scenarios {
  import opened Squares
  import WinDetection
  import opened Game

  /** On a 3 by 3 board X plays 0, O plays 1 and X plays 3. */
  method PlayLeftColumnOpening() returns (g: GameState)
    ensures fresh(g) && g.Valid() && g.Played() && g.side == 3
    ensures |g.history| == 4 && g.currentMove == 3
    ensures g.CurrentSquares() == [X, O, Empty, X, Empty, Empty, Empty, Empty, Empty]
  {
    g := new GameState(3);
    var e := Empty;
    assert g.CurrentSquares() == [e, e, e, e, e, e, e, e, e];
    NoEarlyWinner(3, g.history, 0);
    g.Play(0);
    assert g.CurrentSquares() == [X, e, e, e, e, e, e, e, e];
    NoEarlyWinner(3, g.history, 1);
    g.Play(1);
    assert g.CurrentSquares() == [X, O, e, e, e, e, e, e, e];
    NoEarlyWinner(3, g.history, 2);
    g.Play(3);
  }

  /** The opening, then O plays 4 and X plays 6. */
  method PlayLeftColumn() returns (g: GameState)
    ensures fresh(g) && g.Valid() && g.Played() && g.side == 3
    ensures |g.history| == 6 && g.currentMove == 5
    ensures g.CurrentSquares() == [X, O, Empty, X, O, Empty, X, Empty, Empty]
  {
    g := PlayLeftColumnOpening();
    var e := Empty;
    assert g.CurrentSquares() == [X, O, e, X, e, e, e, e, e];
    NoEarlyWinner(3, g.history, 3);
    g.Play(4);
    assert g.CurrentSquares() == [X, O, e, X, O, e, e, e, e];
    NoEarlyWinner(3, g.history, 4);
    g.Play(6);
  }

  /**
   * After the left-column game X is the winner, and a further click leaves the
   * history and the current position as they were.
   */
  method LeftColumnGame() returns (board: seq<Square>, winner: Square, ignored: bool)
    ensures board == [X, O, Empty, X, O, Empty, X, Empty, Empty]
    ensures winner == X
    ensures ignored
  {
    var g := PlayLeftColumn();
    board := g.CurrentSquares();
    winner := WinDetection.CalculateWinner(board, 3);
    MarkCounts(9, g.history, 5);
    LeftColumnWins(board);
    var before, at := g.history, g.currentMove;
    g.Play(2);
    ignored := g.history == before && g.currentMove == at;
  }

  /** A game started without a side is played on a 4 by 4 board. */
  method DefaultGame() returns (side: nat, squares: nat)
    ensures side == 4 && squares == 16
  {
    var g := new GameState();
    side := g.side;
    squares := |g.CurrentSquares()|;
  }

  /** On a 3 by 3 board where X owns the left column and O holds fewer than three squares, X wins. */
  lemma LeftColumnWins(board: seq<Square>)
    requires |board| == 9 && board[0] == X && board[3] == X && board[6] == X
    requires multiset(board)[O] < 3
    ensures WinDetection.Winner(board, 3) == X
  {
    WinDetection.LineAt(3, 3, 0);
    WinDetection.LineAt(3, 3, 1);
    WinDetection.LineAt(3, 3, 2);
    WinDetection.OwnedLineDecidesWinner(board, 3, 3, X);
  }

  /** On a 1 by 1 board the first move wins: the one square is every line at once. */
  method OneSquareGame() returns (winner: Square)
    ensures winner == X
  {
    var g := new GameState(1);
    NoEarlyWinner(1, g.history, 0);
    g.Play(0);
    winner := WinDetection.CalculateWinner(g.CurrentSquares(), 1);
    WinDetection.LinesInBounds(1);
    assert WinDetection.Won(g.CurrentSquares(), WinDetection.Lines(1)[0]);
  }

  /**
   * Three moves on a 3 by 3 board, a jump back to position 1, and a move from
   * there: the history is cut to the first two snapshots plus the new one.
   */
  method TimeTravel() returns (lengthBefore: nat, lengthAfter: nat, kept: bool)
    ensures lengthBefore == 4 && lengthAfter == 3 && kept
  {
    var g := new GameState(3);
    NoEarlyWinner(3, g.history, 0);
    g.Play(0);
    NoEarlyWinner(3, g.history, 1);
    g.Play(1);
    NoEarlyWinner(3, g.history, 2);
    g.Play(2);
    lengthBefore := |g.history|;
    var start := g.history[..2];
    g.JumpTo(1);
    NoEarlyWinner(3, g.history, 1);
    g.Play(8);
    lengthAfter := |g.history|;
    kept := g.history[..2] == start;
  }
}
