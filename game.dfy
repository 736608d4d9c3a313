/**
 * The game state (`Game`): the list of board snapshots and the index of the
 * one on display. Playing from an earlier snapshot discards the later ones.
 */
module Game {
  import opened Squares
  import WinDetection
  import Board

  /** The mark written by the move made from position `k`: X from even positions. */
  function MarkAt(k: nat): (m: Square)
    ensures m != Empty && (m == O) == (k % 2 == 1)
  {
    Mark(k % 2 == 0)
  }

  /** `b` is `a` with `m` written into one square that was empty. */
  ghost predicate OneMove(a: seq<Square>, b: seq<Square>, m: Square) {
    exists i :: 0 <= i < |a| && a[i] == Empty && b == a[i := m]
  }

  /**
   * A history as play builds it: it starts from the empty board, and each
   * snapshot is the previous one with the mover's mark in one empty square.
   */
  ghost predicate PlayedHistory(size: nat, h: seq<seq<Square>>) {
    && |h| > 0
    && h[0] == EmptyBoard(size)
    && forall k :: 0 < k < |h| ==> OneMove(h[k - 1], h[k], MarkAt(k - 1))
  }

  /** The history after a move from position `currentMove` produced `nextSquares`. */
  function NextHistory(history: seq<seq<Square>>, currentMove: nat, nextSquares: seq<Square>)
    : (r: seq<seq<Square>>)
    requires currentMove < |history|
    ensures |r| == currentMove + 2
    ensures forall k :: 0 <= k <= currentMove ==> r[k] == history[k]
    ensures r[|r| - 1] == nextSquares
  {
    history[..currentMove + 1] + [nextSquares]
  }

  /** Writing `m` into an empty square adds one `m` and leaves the other mark's count alone. */
  lemma MoveCounts(a: seq<Square>, i: int, m: Square)
    requires 0 <= i < |a| && a[i] == Empty && m != Empty
    ensures multiset(a[i := m])[X] == multiset(a)[X] + (if m == X then 1 else 0)
    ensures multiset(a[i := m])[O] == multiset(a)[O] + (if m == O then 1 else 0)
  {
  }

  /**
   * In a played history, snapshot `k` holds (k + 1) / 2 X marks and k / 2 O
   * marks, so X is to move exactly when both marks are equally many.
   */
  lemma {:induction false} MarkCounts(size: nat, h: seq<seq<Square>>, k: nat)
    requires PlayedHistory(size, h) && k < |h|
    ensures |h[k]| == size
    ensures multiset(h[k])[X] == (k + 1) / 2 && multiset(h[k])[O] == k / 2
    ensures (MarkAt(k) == X) == (multiset(h[k])[X] == multiset(h[k])[O])
  {
    if k == 0 {
      assert X !in h[0] && O !in h[0];
    } else {
      MarkCounts(size, h, k - 1);
      assert OneMove(h[k - 1], h[k], MarkAt(k - 1));
      var i :| 0 <= i < |h[k - 1]| && h[k - 1][i] == Empty && h[k] == h[k - 1][i := MarkAt(k - 1)];
      MoveCounts(h[k - 1], i, MarkAt(k - 1));
    }
  }

  /** No snapshot of a played history before position 2 * side - 1 has a winner. */
  lemma NoEarlyWinner(side: nat, h: seq<seq<Square>>, k: nat)
    requires PlayedHistory(side * side, h) && k < |h| && k < 2 * side - 1
    ensures |h[k]| == side * side && WinDetection.Winner(h[k], side) == Empty
  {
    MarkCounts(side * side, h, k);
    WinDetection.WinnerNeedsSideMarks(h[k], side);
  }

  class GameState {
    const side: nat
    var history: seq<seq<Square>>
    var currentMove: nat

    /** Every snapshot has side * side squares and `currentMove` indexes one of them. */
    ghost predicate Valid()
      reads this
    {
      && currentMove < |history|
      && forall k :: 0 <= k < |history| ==> |history[k]| == side * side
    }

    /** The history was built by play from the empty board. */
    ghost predicate Played()
      reads this
    {
      PlayedHistory(side * side, history)
    }

    /** A new game: one empty board, at position 0; the board is 4 by 4 unless a side is given. */
    constructor (side: nat := 4)
      ensures this.side == side
      ensures history == [EmptyBoard(side * side)] && currentMove == 0
      ensures Valid() && Played()
    {
      this.side := side;
      history := [EmptyBoard(side * side)];
      currentMove := 0;
    }

    /** X is to move when the move from `currentMove` writes X. */
    function XIsNext(): (xIsNext: bool)
      reads this
      ensures Mark(xIsNext) == MarkAt(currentMove)
    {
      MarkAt(currentMove) == X
    }

    /** The snapshot on display. */
    function CurrentSquares(): (squares: seq<Square>)
      reads this
      requires Valid()
      ensures |squares| == side * side
    {
      history[currentMove]
    }

    /** Keeps the snapshots up to the current one, appends `nextSquares` and moves to it. */
    method HandlePlay(nextSquares: seq<Square>)
      requires Valid() && |nextSquares| == side * side
      modifies this`history, this`currentMove
      ensures Valid()
      ensures history == old(history[..currentMove + 1]) + [nextSquares]
      ensures |history| == old(currentMove) + 2
      ensures currentMove == old(currentMove) + 1 == |history| - 1
    {
      var nextHistory := NextHistory(history, currentMove, nextSquares);
      history := nextHistory;
      currentMove := |nextHistory| - 1;
    }

    /** Shows snapshot `move`; the history, later snapshots included, is kept. */
    method JumpTo(move: nat)
      requires Valid() && move < |history|
      modifies this`currentMove
      ensures Valid() && Played() == old(Played())
      ensures currentMove == move && history == old(history)
      ensures CurrentSquares() == history[move]
    {
      currentMove := move;
    }

    /**
     * A click on square `i` of the snapshot on display, passed through the
     * board's click handler to `HandlePlay`. A click on a taken square or on a
     * won board changes nothing.
     */
    method Play(i: int)
      requires Valid() && 0 <= i < side * side
      modifies this`history, this`currentMove
      ensures Valid()
      ensures old(Played()) ==> Played()
      ensures old(CurrentSquares()[i] != Empty || WinDetection.Winner(CurrentSquares(), side) != Empty) ==>
        history == old(history) && currentMove == old(currentMove)
      ensures old(CurrentSquares()[i] == Empty && WinDetection.Winner(CurrentSquares(), side) == Empty) ==>
        && history == old(history[..currentMove + 1]) + [old(CurrentSquares()[i := Mark(XIsNext())])]
        && currentMove == old(currentMove) + 1
        && XIsNext() == !old(XIsNext())
    {
      var played := Board.HandleClick(side, XIsNext(), history[currentMove], i);
      if played.Some? {
        ghost var before := history;
        ghost var k := currentMove;
        HandlePlay(played.value);
        if PlayedHistory(side * side, before) {
          forall n | 0 < n < |history|
            ensures OneMove(history[n - 1], history[n], MarkAt(n - 1))
          {
            if n <= k {
              assert history[n - 1] == before[n - 1] && history[n] == before[n];
            } else {
              assert history[n - 1] == before[k] && MarkAt(n - 1) == MarkAt(k);
              assert history[n] == before[k][i := MarkAt(n - 1)];
            }
          }
          assert history[0] == before[0];
        }
      }
    }
  }
}
