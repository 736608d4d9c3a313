/** The click handler of the board (`Board.handleClick`). */
module Board {
  import opened Squares
  import WinDetection

  /**
   * A click on square `i` while the player given by `xIsNext` is to move.
   * None when the click is ignored (the square is taken or the board already
   * has a winner); otherwise the board handed to `onPlay`: a copy of
   * `squares` with the mover's mark written into square `i`.
   */
  method HandleClick(side: nat, xIsNext: bool, squares: seq<Square>, i: int)
    returns (played: Option<seq<Square>>)
    requires |squares| == side * side && 0 <= i < |squares|
    ensures played.None? <==> squares[i] != Empty || WinDetection.Winner(squares, side) != Empty
    ensures played.Some? ==> played.value == squares[i := Mark(xIsNext)]
    ensures played.Some? ==>
      && |played.value| == |squares|
      && squares[i] == Empty && played.value[i] == Mark(xIsNext)
      && forall j :: 0 <= j < |squares| && j != i ==> played.value[j] == squares[j]
  {
    if squares[i] != Empty {
      return None;
    }
    var winner := WinDetection.CalculateWinner(squares, side);
    if winner != Empty {
      return None;
    }
    var nextSquares := new Square[|squares|](k requires 0 <= k < |squares| => squares[k]);
    if xIsNext {
      nextSquares[i] := X;
    } else {
      nextSquares[i] := O;
    }
    return Some(nextSquares[..]);
  }
}
