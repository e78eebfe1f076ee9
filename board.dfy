/** The rules of the `Board` component in src/App.js: what a click on a
    square does to the board, and how the board's status is classified. */
module Board {
  import opened WinEvaluator

  /** The symbol of the player to move (`xIsNext ? "X" : "O"`). */
  function Turn(xIsNext: bool): (p: Player)
    ensures (p == X) == xIsNext
  {
    if xIsNext then X else O
  }

  /** Number of cells of `s` that equal `c`. */
  function CountOf(s: seq<Cell>, c: Cell): (n: nat)
    ensures n <= |s|
  {
    if s == [] then 0 else (if s[0] == c then 1 else 0) + CountOf(s[1..], c)
  }

  /** A symbol occurs in `s` exactly when it is counted there. */
  lemma {:induction false} CountOfZero(s: seq<Cell>, c: Cell)
    ensures CountOf(s, c) == 0 <==> c !in s
  {
    if s != [] {
      CountOfZero(s[1..], c);
      assert s == [s[0]] + s[1..];
    }
  }

  /** Overwriting one cell moves one unit of count from the old content of
      that cell to the new one; every other symbol keeps its count. */
  lemma {:induction false} CountOfUpdate(s: seq<Cell>, i: nat, c: Cell, d: Cell)
    requires i < |s|
    ensures CountOf(s[i := c], d) ==
            CountOf(s, d) + (if d == c then 1 else 0) - (if d == s[i] then 1 else 0)
  {
    if i > 0 {
      CountOfUpdate(s[1..], i - 1, c, d);
      assert s[i := c][1..] == s[1..][i - 1 := c];
    }
  }

  /** No square is empty (`!squares.includes(null)`). */
  predicate Full(s: Squares)
  {
    Empty !in s
  }

  /** What `handleClick` does with a click: it returns early, or it hands
      the next board to `onPlay`. */
  datatype ClickResult = Ignored | Played(next: Squares)

  /** `handleClick(i)`: a click is ignored on a board that already has a
      winner or on an occupied square; otherwise the next board is a copy
      of the current one with the mover's symbol in square `i`. */
  function HandleClick(s: Squares, i: Index, xIsNext: bool): (r: ClickResult)
    ensures r.Ignored? <==> WinnerOf(s).Won? || s[i] != Empty
    ensures r.Played? ==> r.next[i] == Mark(Turn(xIsNext))
    ensures r.Played? ==> forall j :: 0 <= j < 9 && j != i ==> r.next[j] == s[j]
  {
    if WinnerOf(s).Won? || s[i] != Empty then Ignored
    else
      var nextSquares := s[i := Mark(Turn(xIsNext))];
      Played(nextSquares)
  }

  /** An accepted click fills exactly one empty square with the mover's
      symbol: one empty square fewer, one more of the mover's marks, and
      the opponent's marks unchanged. */
  lemma ClickFillsOneSquare(s: Squares, i: Index, xIsNext: bool)
    requires HandleClick(s, i, xIsNext).Played?
    ensures var next := HandleClick(s, i, xIsNext).next;
      && CountOf(next, Empty) == CountOf(s, Empty) - 1
      && CountOf(next, Mark(Turn(xIsNext))) == CountOf(s, Mark(Turn(xIsNext))) + 1
      && CountOf(next, Mark(Other(Turn(xIsNext)))) == CountOf(s, Mark(Other(Turn(xIsNext))))
  {
    var m := Mark(Turn(xIsNext));
    assert HandleClick(s, i, xIsNext).next == s[i := m];
    CountOfUpdate(s, i, m, Empty);
    CountOfUpdate(s, i, m, m);
    CountOfUpdate(s, i, m, Mark(Other(Turn(xIsNext))));
  }

  /** The status line of the board: a winner, a draw, or the next player. */
  datatype Status = Winner(player: Player) | Draw | NextPlayer(player: Player)

  /** The status classification: a winner if the evaluator reports one
      (even on a full board), else a draw if no square is empty, else the
      player whose turn it is. */
  function StatusOf(s: Squares, xIsNext: bool): (r: Status)
    ensures r.Winner? <==> WinnerOf(s).Won?
    ensures r.Winner? ==> r.player == WinnerOf(s).winner
    ensures r.Draw? <==> WinnerOf(s).NoWinner? && Full(s)
    ensures r.NextPlayer? ==> r.player == Turn(xIsNext)
  {
    var result := WinnerOf(s);
    if result.Won? then Winner(result.winner)
    else if Full(s) then Draw
    else NextPlayer(Turn(xIsNext))
  }

  /** Some click is accepted exactly when the status names a next player:
      once the board is won or drawn every click is ignored, and while the
      game is on there is an empty square to play. */
  lemma ClickAcceptedIffInProgress(s: Squares, xIsNext: bool)
    ensures (exists i: Index :: HandleClick(s, i, xIsNext).Played?) <==> StatusOf(s, xIsNext).NextPlayer?
  {
    if StatusOf(s, xIsNext).NextPlayer? {
      assert Empty in s;
      var i :| 0 <= i < |s| && s[i] == Empty;
      assert HandleClick(s, i, xIsNext).Played?;
    }
  }
}
