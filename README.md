# Tic-tac-toe engine on an N×N board, modelled in Dafny

The repository is a browser tic-tac-toe game written in React over the Calcite
component library. Its engine sits in `src/App.tsx`. The engine has three parts:

- `calculateWinner` builds the `2 * side + 2` candidate lines of a square board
  stored in row-major order. These are the rows, the columns, the main diagonal
  and the anti-diagonal. It returns the mark of the first line whose first square
  holds a mark that every other square of the line repeats, and null otherwise.
- `Board.handleClick` ignores a click on a taken square or on a board that
  already has a winner. Otherwise it copies the board, writes the mover's mark
  into the clicked square and hands the copy to `onPlay`.
- `Game` keeps a history of board snapshots and the index `currentMove` of the
  snapshot on display. X moves from even indices. `handlePlay` cuts the
  history after `currentMove`, appends the new board and moves to it.
  `jumpTo` changes only the index.

The model has one module per part, plus one for shared values and one for whole games:

- `squares.dfy`, module `Squares`: the square values (`Empty | X | O`, the
  source's `Player` with `null` as `Empty`), the mover's mark and the empty board.
- `winner.dfy`, module `WinDetection`: the lines as functions (`Row`, `Column`,
  `MainDiagonal`, `AntiDiagonal`, `Lines`). The won-line test `Won` follows
  `rest.every(...)`. `Winner` is the specification of the scan. The imperative
  `BuildLines` fills the list with loops, as the source's `push` loops do.
  `CalculateWinner` then scans that list with an early return. Both methods are
  proved equal to the functions. The lemmas cover bounds, geometry, soundness
  and completeness of the winner, and the number of marks a winner needs.
- `board.dfy`, module `Board`: `HandleClick`, the guarded move. It copies the
  board into a fresh array and writes one element.
- `game.dfy`, module `Game`: class `GameState` with the fields `history` and
  `currentMove`, the constructor (the initial `useState` values), `XIsNext`,
  `HandlePlay`, `JumpTo` and `Play`. `Play` is a click passed through
  `HandleClick` to `HandlePlay`, as `Game` wires `onPlay={handlePlay}`. The
  ghost predicate `PlayedHistory` describes a history made only by play. It
  starts from the empty board, and each snapshot is the previous one with the
  mover's mark in one empty square. `Play` preserves it. `MarkCounts` derives
  from it how many X and O marks each snapshot holds.
- `scenarios.dfy`, module `Scenarios`: whole games played through the class's
  contracts. One is a 3×3 game won by X on the left column, after which a click
  is ignored. One is a 1×1 game won by its first move. One jumps back and plays
  to show the history being cut. One starts a game without a side and gets 4×4.

The side length is an integer parameter, and boards must have `side * side`
squares. The source computes the side as `Math.sqrt(squares.length)`.

## Model

| member | source | states |
|---|---|---|
| `Squares.Mark` | src/App.tsx:82-86 | the mark written is never Empty, and it is X exactly when `xIsNext` holds (O otherwise) |
| `Squares.EmptyBoard` | src/App.tsx:133 | `Array(n).fill(null)`: a board of `n` squares holding neither X nor O |
| `WinDetection.Row` | src/App.tsx:42-46 | row `row` has `side` indices, starts at `row * side` and steps by 1 |
| `WinDetection.Column` | src/App.tsx:47-51 | column `col` has `side` indices, starts at `col` and steps by `side` |
| `WinDetection.MainDiagonal` | src/App.tsx:52 | the main diagonal has `side` indices, starts at 0 and steps by `side + 1` |
| `WinDetection.AntiDiagonal` | src/App.tsx:53-55 | the anti-diagonal has `side` indices, starts at `side - 1` and steps by `side - 1` |
| `WinDetection.Lines` | src/App.tsx:40-55 | the rows, then the columns, then the two diagonals: `2 * side + 2` lines of `side` indices each |
| `WinDetection.Won` | src/App.tsx:57-61 | `squares[first] && rest.every(...)`: a line is won exactly when some mark other than Empty sits on every one of its squares (an index off the board reads as no mark) |
| `WinDetection.LinesInBounds` | src/App.tsx:40-55 | there are exactly `2 * side + 2` lines, each `side` long, and every index of every line lies in `[0, side * side)` |
| `WinDetection.LinesGeometry` | src/App.tsx:42-55 | line `r` is grid row r, line `side + c` is grid column c, line `2 * side` visits (i, i) and line `2 * side + 1` visits (i, side - 1 - i), with coordinates read back from the index by division and remainder |
| `WinDetection.LinesIncreasing` | src/App.tsx:42-55 | the indices along every line increase strictly, so no line visits a square twice |
| `WinDetection.BuildLines` | src/App.tsx:40-55 | the list built by the two `push` loops and the two diagonal pushes is exactly `Lines(side)`: rows, then columns, then main and anti-diagonal |
| `WinDetection.WinnerFrom` | src/App.tsx:56-66 | scanning `lines[k..]` returns the mark of the first won line, and that line is won and no earlier line is; Empty is returned only when no line of `lines[k..]` is won |
| `WinDetection.Winner` | src/App.tsx:37-67 | a non-empty result is the mark of the first won line in the order rows, columns, main diagonal, anti-diagonal; Empty exactly when no line is won |
| `WinDetection.CalculateWinner` | src/App.tsx:37-67 | the imperative build-then-scan with early return yields exactly `Winner(squares, side)` |
| `WinDetection.WinnerOwnsLine` | src/App.tsx:56-66 | a reported winner has some line all of whose squares hold its mark; when no winner is reported, no line is filled with one mark |
| `WinDetection.EmptyBoardHasNoWinner` | src/App.tsx:58-63 | a board of `side * side` empty squares has no winner, because a line counts only when its first square is taken |
| `WinDetection.UniformLineWins` | src/App.tsx:56-63 | for every side of at least 1 and every line, filling that line with a mark on an otherwise empty board makes that mark the winner |
| `WinDetection.WinnerNeedsSideMarks` | src/App.tsx:56-63 | a winner holds at least `side` squares of the board |
| `WinDetection.OwnedLineDecidesWinner` | src/App.tsx:56-66 | if a mark fills some line and no other mark holds `side` squares, that mark is the winner, whichever line the scan meets first |
| `Board.HandleClick` | src/App.tsx:77-88 | the click is ignored exactly when the square is taken or the board has a winner; otherwise the board passed on is the old one with only square `i` changed, from Empty to X when `xIsNext` and to O otherwise |
| `Game.MarkAt` | src/App.tsx:136 | the one statement of the turn parity: the move from position `k` writes a mark, and it is O exactly when `k` is odd |
| `Game.NextHistory` | src/App.tsx:140 | the new history has `currentMove + 2` entries, keeps entries `0..currentMove` and ends with the new board |
| `Game.MarkCounts` | src/App.tsx:136 | in a history built by play, snapshot k holds (k + 1) / 2 X marks and k / 2 O marks, so X is to move (k even) exactly when both counts are equal |
| `Game.NoEarlyWinner` | src/App.tsx:78 | in a history built by play, no snapshot before index `2 * side - 1` has a winner, so such clicks on empty squares are never ignored for a win |
| `Game.GameState.constructor` | src/App.tsx:131-135 | a new game holds one board of `side * side` empty squares at `currentMove == 0`, with `side` 4 when none is given, and that history is valid and built by play |
| `Game.GameState.XIsNext` | src/App.tsx:136 | `xIsNext`, defined through `MarkAt`: the mark it selects is the one for the move from `currentMove` |
| `Game.GameState.CurrentSquares` | src/App.tsx:137 | `history[currentMove]`, a board of `side * side` squares |
| `Game.GameState.HandlePlay` | src/App.tsx:139-143 | history becomes `old(history[..currentMove + 1]) + [nextSquares]`, its length `old(currentMove) + 2`, and `currentMove` its last index `old(currentMove) + 1`; `currentMove < |history|` is kept |
| `Game.GameState.JumpTo` | src/App.tsx:145-147 | only `currentMove` changes, to `move`; the history, later snapshots included, is untouched and the board on display is `history[move]` |
| `Game.GameState.Play` | src/App.tsx:77-88 | on a taken square or a won board nothing changes; otherwise the history is cut after `currentMove` and extended by the displayed board with the mover's mark in square `i`, `currentMove` advances by one and the turn passes; a history built by play stays one |
| `Scenarios.PlayLeftColumnOpening` | src/App.tsx:131-147 | on 3×3, moves 0, 1, 3 are all applied and give four snapshots, the last `[X, O, _, X, _, _, _, _, _]` at position 3 |
| `Scenarios.PlayLeftColumn` | src/App.tsx:131-147 | after the opening, moves 4 and 6 are applied too, giving six snapshots, the last `[X, O, _, X, O, _, X, _, _]` at position 5 |
| `Scenarios.LeftColumnGame` | src/App.tsx:131-147 | after those moves X is the winner, and a further click leaves the history and `currentMove` equal to their values before it |
| `Scenarios.DefaultGame` | src/App.tsx:131-134 | a game started without a side has side 4 and a board of 16 squares |
| `Scenarios.LeftColumnWins` | src/App.tsx:56-66 | on 3×3, X on squares 0, 3 and 6 with fewer than three O marks makes X the winner |
| `Scenarios.OneSquareGame` | src/App.tsx:131-147 | on 1×1 the first move wins for X |
| `Scenarios.TimeTravel` | src/App.tsx:139-147 | after three moves, `jumpTo(1)` and a move, the history has three snapshots and its first two are the ones played before |

## Left out

- Rendering: `Square`, the row layout in `Board`, the Calcite shell, panels and
  move list (src/App.tsx:1-35, 98-128, 167-198). These are presentation over a foreign UI library.
- The status text and history labels ("Winner: X", "Next Player: O", "Move N",
  "You are here"; src/App.tsx:90-96, 149-165). These are display strings.
- React `useState` and re-rendering. The two pieces of state are plain fields
  updated by methods, and both setters of `handlePlay` take effect together.
- `Math.sqrt(squares.length)` (src/App.tsx:38) is floating point. The model takes
  `side` as a parameter and requires `|squares| == side * side`. The source has no
  check that the length is a perfect square. A non-square length there would give
  a fractional side, and that case is not modelled.
- `Board.HandleClick`: requires `0 <= i < side * side`. In the source an
  out-of-range index reads `undefined`, so the click would be accepted. An index
  of `side * side` or more would then write past the end of the copy and extend
  it. A negative index would set a property that is not an array element, and
  the copy's squares would stay as they were. The UI only produces indices of
  real squares.
- `Game.GameState.JumpTo`: requires `move < |history|`. The source sets any
  number, but it is only called with indices of the rendered history list.
- `Game.GameState.constructor`: takes `side: nat` and builds a board for every
  one. In the source `Array(sideLength * sideLength)` at src/App.tsx:133 throws
  a RangeError unless the length is a whole number below 2^32. That happens for a
  fractional side (2.5 gives 6.25) and for a side of 65536 or more. Neither error
  is modelled, and neither is a negative side. In the source a negative `sideLength` builds a board of
  `sideLength * sideLength` squares (src/App.tsx:133) that the render loop
  (src/App.tsx:99) never shows. The code has no guard against side 0 either,
  and the model allows it: it gives an empty board whose two empty lines are
  never won.
