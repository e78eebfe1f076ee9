/** Whole games played through the `Game` class, from its initial state,
    using nothing but the contracts of its methods. */
module Scenarios {
  import opened WinEvaluator
  import opened Board
  import opened GameState

  /** One accepted click of a scenario, from board `before` to board
      `after`, stated with only what the scenarios need of `Play`. */
  method Step(g: Game, i: Index, ghost before: Squares, ghost after: Squares)
    requires g.Valid() && g.CurrentSquares() == before
    requires WinnerOf(before).NoWinner? && before[i] == Empty
    requires after == before[i := Mark(Turn(g.XIsNext()))]
    modifies g
    ensures g.Valid() && g.CurrentSquares() == after
    ensures g.XIsNext() == !old(g.XIsNext()) && g.score == old(g.score)
  {
    var played := g.Play(i);
  }

  /** X takes squares 0, 3 and 6, O takes 1 and 4: X wins with the left
      column, the score becomes 1 to 0 and a restart is asked for. */
  method ColumnWin() returns (result: WinResult, score: Score, restart: bool)
    ensures result == Won(X, Line(0, 3, 6))
    ensures score == Score(1, 0)
    ensures restart
  {
    var g := new Game();
    Step(g, 0, EmptySquares,
      [Mark(X), Empty, Empty, Empty, Empty, Empty, Empty, Empty, Empty]);
    Step(g, 1, [Mark(X), Empty, Empty, Empty, Empty, Empty, Empty, Empty, Empty],
      [Mark(X), Mark(O), Empty, Empty, Empty, Empty, Empty, Empty, Empty]);
    Step(g, 3, [Mark(X), Mark(O), Empty, Empty, Empty, Empty, Empty, Empty, Empty],
      [Mark(X), Mark(O), Empty, Mark(X), Empty, Empty, Empty, Empty, Empty]);
    Step(g, 4, [Mark(X), Mark(O), Empty, Mark(X), Empty, Empty, Empty, Empty, Empty],
      [Mark(X), Mark(O), Empty, Mark(X), Mark(O), Empty, Empty, Empty, Empty]);
    Step(g, 6, [Mark(X), Mark(O), Empty, Mark(X), Mark(O), Empty, Empty, Empty, Empty],
      [Mark(X), Mark(O), Empty, Mark(X), Mark(O), Empty, Mark(X), Empty, Empty]);
    result := CalculateWinner(g.CurrentSquares());
    restart := g.RecordResult();
    score := g.score;
  }

  /** X takes 0, 4 and 2, O takes 1 and 5: no line is completed, so the
      game goes on with O to move and the score is unchanged. */
  method NoWinYet() returns (status: Status, score: Score, restart: bool)
    ensures status == NextPlayer(O)
    ensures score == Score(0, 0)
    ensures !restart
  {
    var g := new Game();
    Step(g, 0, EmptySquares,
      [Mark(X), Empty, Empty, Empty, Empty, Empty, Empty, Empty, Empty]);
    Step(g, 1, [Mark(X), Empty, Empty, Empty, Empty, Empty, Empty, Empty, Empty],
      [Mark(X), Mark(O), Empty, Empty, Empty, Empty, Empty, Empty, Empty]);
    Step(g, 4, [Mark(X), Mark(O), Empty, Empty, Empty, Empty, Empty, Empty, Empty],
      [Mark(X), Mark(O), Empty, Empty, Mark(X), Empty, Empty, Empty, Empty]);
    Step(g, 5, [Mark(X), Mark(O), Empty, Empty, Mark(X), Empty, Empty, Empty, Empty],
      [Mark(X), Mark(O), Empty, Empty, Mark(X), Mark(O), Empty, Empty, Empty]);
    Step(g, 2, [Mark(X), Mark(O), Empty, Empty, Mark(X), Mark(O), Empty, Empty, Empty],
      [Mark(X), Mark(O), Mark(X), Empty, Mark(X), Mark(O), Empty, Empty, Empty]);
    status := StatusOf(g.CurrentSquares(), g.XIsNext());
    restart := g.RecordResult();
    score := g.score;
  }

  /** The first five moves of the drawn game below: X on 0, 1 and 5,
      O on 2 and 3. */
  method DrawOpening() returns (g: Game)
    ensures fresh(g) && g.Valid()
    ensures g.CurrentSquares() == [Mark(X), Mark(X), Mark(O), Mark(O), Empty, Mark(X), Empty, Empty, Empty]
    ensures !g.XIsNext() && g.score == Score(0, 0)
  {
    g := new Game();
    Step(g, 0, EmptySquares,
      [Mark(X), Empty, Empty, Empty, Empty, Empty, Empty, Empty, Empty]);
    Step(g, 2, [Mark(X), Empty, Empty, Empty, Empty, Empty, Empty, Empty, Empty],
      [Mark(X), Empty, Mark(O), Empty, Empty, Empty, Empty, Empty, Empty]);
    Step(g, 1, [Mark(X), Empty, Mark(O), Empty, Empty, Empty, Empty, Empty, Empty],
      [Mark(X), Mark(X), Mark(O), Empty, Empty, Empty, Empty, Empty, Empty]);
    Step(g, 3, [Mark(X), Mark(X), Mark(O), Empty, Empty, Empty, Empty, Empty, Empty],
      [Mark(X), Mark(X), Mark(O), Mark(O), Empty, Empty, Empty, Empty, Empty]);
    Step(g, 5, [Mark(X), Mark(X), Mark(O), Mark(O), Empty, Empty, Empty, Empty, Empty],
      [Mark(X), Mark(X), Mark(O), Mark(O), Empty, Mark(X), Empty, Empty, Empty]);
  }

  /** X takes 0, 1, 5, 6 and 8, O takes 2, 3, 4 and 7: the board fills up
      without a completed line; a draw, no score change, a restart, and a
      further click is ignored. */
  method DrawnGame() returns (status: Status, score: Score, restart: bool, ignored: bool)
    ensures status == Draw
    ensures score == Score(0, 0)
    ensures restart
    ensures ignored
  {
    var g := DrawOpening();
    Step(g, 4, [Mark(X), Mark(X), Mark(O), Mark(O), Empty, Mark(X), Empty, Empty, Empty],
      [Mark(X), Mark(X), Mark(O), Mark(O), Mark(O), Mark(X), Empty, Empty, Empty]);
    Step(g, 6, [Mark(X), Mark(X), Mark(O), Mark(O), Mark(O), Mark(X), Empty, Empty, Empty],
      [Mark(X), Mark(X), Mark(O), Mark(O), Mark(O), Mark(X), Mark(X), Empty, Empty]);
    Step(g, 7, [Mark(X), Mark(X), Mark(O), Mark(O), Mark(O), Mark(X), Mark(X), Empty, Empty],
      [Mark(X), Mark(X), Mark(O), Mark(O), Mark(O), Mark(X), Mark(X), Mark(O), Empty]);
    Step(g, 8, [Mark(X), Mark(X), Mark(O), Mark(O), Mark(O), Mark(X), Mark(X), Mark(O), Empty],
      [Mark(X), Mark(X), Mark(O), Mark(O), Mark(O), Mark(X), Mark(X), Mark(O), Mark(X)]);
    status := StatusOf(g.CurrentSquares(), g.XIsNext());
    restart := g.RecordResult();
    score := g.score;
    var played := g.Play(4);
    ignored := !played;
  }
}
