/** The values a board is made of. */
module Squares {

  /** What one square holds: the source's `Player` type, whose `null` is Empty. */
  datatype Square = Empty | X | O

  /** The conventional Some/None datatype; None stands for "nothing happened". */
  datatype Option<+T> = None | Some(value: T)

  /** The mark of the player to move: X when `xIsNext`, O otherwise. */
  function Mark(xIsNext: bool): (m: Square)
    ensures m != Empty
    ensures (m == X) == xIsNext
  {
    if xIsNext then X else O
  }

  /** A board of `size` empty squares, `Array(size).fill(null)`. */
  function EmptyBoard(size: nat): (board: seq<Square>)
    ensures |board| == size && X !in board && O !in board
  {
    seq(size, _ => Empty)
  }
}
