# Tic-tac-toe game logic, modelled in Dafny

This project models the game logic of a two-player tic-tac-toe web app (`src/App.js`). Rendering is not part of it. The model has three parts:

- **Win evaluator** (`win_evaluator.dfy`, module `WinEvaluator`): `calculateWinner`. It scans the eight winning lines in their fixed order (three rows, three columns, two diagonals) and reports the first line whose three squares hold the same mark, together with that mark. If no line is completed it reports no winner. The scan is a recursive specification function, `WinnerOf`. The source's loop with an early return is a method, `CalculateWinner`, proved equal to it.
- **Board rules** (`board.dfy`, module `Board`):
  - `HandleClick` models `Board.handleClick` as a function on board values. A click is ignored when the board is already won or the square is taken. Otherwise the result is a copy of the board with the mover's mark in the clicked square.
  - `StatusOf` classifies a board as won, drawn or still in play.
- **Game state** (`game_state.dfy`, module `GameState`): the `Game` component as a class. Its fields are `history` (a sequence of boards), `currentMove` and `score`. Its methods are:
  - `HandlePlay`, `Play`, `Restart` and `ResetScore`;
  - `RecordResult`, which models the effect that counts a win and asks for a restart.

  `Legal` describes the histories that play can produce. Lemmas about it prove that turns alternate starting with X, that a history never holds more than ten boards, and that a reported winner is always the player who moved last.
- **Scenarios** (`scenarios.dfy`): three whole games played through the class, using only the contracts of its methods: a column win, an unfinished game and a draw.

A board is a sequence of nine `Cell`s (`Empty` or `Mark(X)` / `Mark(O)`) in row-major order. The source uses `null` for an empty square. The turn is not stored: X moves when `currentMove` is even.

Two behaviours of the code that the model keeps:
- The clicked index is never range-checked. Indices only come from the 3×3 grid, so the model requires `i < 9` (the `Index` type).
- A click is not tested for a draw. `Board.ClickAcceptedIffInProgress` proves that on a drawn board every click is ignored anyway, because every square is taken.

## Model

| member | source | states |
|---|---|---|
| `WinEvaluator.ScanFromFindsFirst` | src/App.js:130-136 | The scan from position k finds no winner exactly when no line from k on is completed. Otherwise it reports the first completed line from k on, and that line's first square holds the reported mark. |
| `WinEvaluator.WinnerOfFindsFirst` | src/App.js:119-137 | `calculateWinner` reports no winner exactly when none of the eight lines is completed. Otherwise it reports the first completed line in the fixed order, and all three of its squares hold the reported mark. |
| `WinEvaluator.CalculateWinner` | src/App.js:119-137 | The loop over the lines, returning at the first completed one, gives the same result as the specification `WinnerOf` on every board. |
| `WinEvaluator.WinnerIsFirstCompletedLine` | src/App.js:130-134 | For every player p and line position j: the result is (p, Lines[j]) if and only if Lines[j] is the first completed line and p's mark fills it. Both directions are proved. |
| `WinEvaluator.SingleCompletedLine` | src/App.js:120-134 | A board on which exactly one of the eight lines is completed is won by that line's owner, with that line. |
| `Board.Turn` | src/App.js:19 | The mover is X exactly when `xIsNext` holds. |
| `Board.HandleClick` | src/App.js:16-21 | A click is ignored exactly when the board already has a winner or square i is taken. An accepted click puts the mover's mark in square i and leaves the other eight squares as they were. |
| `Board.ClickFillsOneSquare` | src/App.js:18-19 | An accepted click leaves one empty square fewer and one more of the mover's marks. The opponent's count is unchanged. |
| `Board.StatusOf` | src/App.js:27-30 | The status is a winner exactly when the evaluator reports one, and that winner is named, even on a full board. It is a draw exactly when there is no winner and no square is empty. Otherwise it names the player given by `xIsNext`. |
| `Board.ClickAcceptedIffInProgress` | src/App.js:17 | Some click is accepted if and only if the status names a next player. Once a board is won or drawn, every click is ignored. |
| `GameState.Score.Incremented` | src/App.js:77 | The winner's count goes up by exactly one and the other player's count is unchanged. |
| `GameState.LegalMarks` | src/App.js:66-69 | Board k of a legal history holds (k+1)/2 X marks, k/2 O marks and 9-k empty squares. This means turns alternate X, O, X, … starting with X. |
| `GameState.LegalHistoryBounded` | src/App.js:84-87 | A legal history holds at most ten boards, and a tenth board is full. |
| `GameState.LegalLinesBelongToLastMover` | src/App.js:17-19 | Every completed line on a board of a legal history belongs to the player who made the last move. The empty starting board has none, so a reachable board never shows completed lines of both players. |
| `GameState.LegalWinnerIsLastMover` | src/App.js:17-19 | On a board of a legal history, a reported winner is X after an odd number of moves and O after an even number. |
| `GameState.LegalAfterPlay` | src/App.js:85 | Truncating a legal history after the current board and appending a board reached by an accepted click keeps the history legal. |
| `GameState.Game.constructor` | src/App.js:66-68 | The initial state is one empty board, pointer 0 and score 0 to 0. This history is legal. |
| `GameState.Game.HandlePlay` | src/App.js:84-88 | The new history is the old one up to and including the current board, followed by the new board. The pointer moves up by one and ends on the last board. The score is not touched. |
| `GameState.Game.Play` | src/App.js:16-21 | A click on square i is accepted exactly when the current board has no winner and square i is empty. A rejected click changes nothing. An accepted click truncates and appends the clicked board, advances the pointer and flips the turn. The new board has the mover's mark at i and equals the old board elsewhere. Legality of the history is preserved. |
| `GameState.Game.Restart` | src/App.js:90-93 | From any state, the history becomes a single empty board and the pointer 0. The score is not touched. The result does not depend on the prior state, so restarting twice equals restarting once. |
| `GameState.Game.ResetScore` | src/App.js:95-97 | Both counts become 0. The history and the pointer are not touched, so the class invariant still holds. |
| `GameState.Game.RecordResult` | src/App.js:75-81 | When the current board has a winner, that player's count goes up by one and the other's stays. Without a winner the score is unchanged, including on a draw. A restart is asked for exactly when the board is won or drawn. On a legally played history the winner is the player who moved last. |
| `Scenarios.ColumnWin` | src/App.js:75-77 | The moves 0, 1, 3, 4, 6 end with X winning on line (0, 3, 6), a score of 1 to 0 and a restart asked for. |
| `Scenarios.NoWinYet` | src/App.js:27-30 | The moves 0, 1, 4, 5, 2 leave the game in play with O to move. The score is unchanged and no restart is asked for. |
| `Scenarios.DrawnGame` | src/App.js:79-81 | The moves 0, 2, 1, 3, 5, 4, 6, 7, 8 end in a draw. The score is unchanged, a restart is asked for, and a further click is ignored. |

## Left out

- Rendering is not modelled: the `Square` component, the JSX, the CSS class names, the highlighted winning squares and the banner and status texts (src/App.js:4-13, 32-61, 99-115). They are presentation only. The status is modelled as the `Status` datatype, not as text.
- The two-second `setTimeout` restart is not modelled (src/App.js:78, 80). `RecordResult` returns a `restart` flag where the source schedules the timer, and `Restart` is an ordinary method. The source never cancels that timer. A pending timer can therefore reset a round started after a manual restart. A model without time cannot state this.
- React's `useState`/`useEffect` scheduling is not modelled: how often the effect runs for one board. `RecordResult` is one explicit transition, meant to be called once per new board; the scenarios call it once per game. Whether a win is counted once or several times depends on how often the host runs the effect, and that is not captured.
- Out-of-range click indices are excluded by the `Index` type. The source never checks them, because indices only come from `row * 3 + col` (src/App.js:48).
- The app has no control for jumping back in the history, so `currentMove` is always the last position. The model keeps the general pointer and the truncation in `HandlePlay`, as the source does.
