/** The `Game` component of src/App.js without its rendering: the history
    of boards, the pointer to the current one, the score, and the handlers
    that update them. */
module GameState {
  import opened WinEvaluator
  import opened Board

  /** The score `{ X, O }`: the number of games each player has won. */
  datatype Score = Score(x: nat, o: nat)
  {
    /** `score[p]`. */
    function Of(p: Player): nat
    {
      if p == X then x else o
    }

    /** `{ ...prev, [p]: prev[p] + 1 }`: one more win for `p`, the other
        player's count kept. */
    function Incremented(p: Player): (r: Score)
      ensures r.Of(p) == Of(p) + 1
      ensures r.Of(Other(p)) == Of(Other(p))
    {
      if p == X then Score(x + 1, o) else Score(x, o + 1)
    }
  }

  /** `after` is what an accepted click turns `before` into when `move`
      moves have been made (X moves at even counts). */
  ghost predicate IsMove(before: Squares, after: Squares, move: nat)
  {
    var xIsNext := move % 2 == 0;
    exists i: Index :: HandleClick(before, i, xIsNext) == Played(after)
  }

  /** A history that play can produce: it starts from the empty board and
      each board follows from the previous one by an accepted click. */
  ghost predicate Legal(h: seq<Squares>)
  {
    && |h| >= 1
    && h[0] == EmptySquares
    && forall k :: 0 <= k < |h| - 1 ==> IsMove(h[k], h[k + 1], k)
  }

  /** Turns alternate starting from X: board `k` of a legal history holds
      `(k + 1) / 2` X marks, `k / 2` O marks and `9 - k` empty squares. */
  lemma {:induction false} LegalMarks(h: seq<Squares>, k: nat)
    requires Legal(h) && k < |h|
    ensures CountOf(h[k], Mark(X)) == (k + 1) / 2
    ensures CountOf(h[k], Mark(O)) == k / 2
    ensures CountOf(h[k], Empty) == 9 - k
  {
    if k > 0 {
      LegalMarks(h, k - 1);
      assert IsMove(h[k - 1], h[k], k - 1);
      var i: Index :| HandleClick(h[k - 1], i, (k - 1) % 2 == 0) == Played(h[k]);
      ClickFillsOneSquare(h[k - 1], i, (k - 1) % 2 == 0);
    }
  }

  /** On a board of a legal history every completed line belongs to the
      player who made the last move: the board before it had no completed
      line, so each completed line runs through the square just filled.
      Hence such a board never shows lines of both players, and the empty
      starting board shows none. */
  lemma LegalLinesBelongToLastMover(h: seq<Squares>, k: nat, j: nat)
    requires Legal(h) && k < |h| && j < |Lines| && Completes(h[k], Lines[j])
    ensures k > 0
    ensures h[k][Lines[j].a] == Mark(if (k - 1) % 2 == 0 then X else O)
  {
    if k > 0 {
      assert IsMove(h[k - 1], h[k], k - 1);
      var i: Index :| HandleClick(h[k - 1], i, (k - 1) % 2 == 0) == Played(h[k]);
      WinnerOfFindsFirst(h[k - 1]);
      assert !Completes(h[k - 1], Lines[j]);
    }
  }

  /** The winner reported for board `k` of a legal history is the player
      who made move `k`: X after an odd number of moves, O after an even
      one. */
  lemma LegalWinnerIsLastMover(h: seq<Squares>, k: nat)
    requires Legal(h) && k < |h| && WinnerOf(h[k]).Won?
    ensures k > 0 && WinnerOf(h[k]).winner == (if k % 2 == 1 then X else O)
  {
    WinnerOfFindsFirst(h[k]);
    var j: nat :| FirstCompleted(h[k], 0, j) && WinnerOf(h[k]).line == Lines[j];
    LegalLinesBelongToLastMover(h, k, j);
  }

  /** A legal history holds at most ten boards, the tenth of them full. */
  lemma LegalHistoryBounded(h: seq<Squares>)
    requires Legal(h)
    ensures |h| <= 10
    ensures |h| == 10 ==> Full(h[9])
  {
    LegalMarks(h, |h| - 1);
    if |h| == 10 {
      CountOfZero(h[9], Empty);
    }
  }

  /** Dropping the boards after `cm` and appending a board reached by an
      accepted click from board `cm` keeps a history legal. */
  lemma LegalAfterPlay(h: seq<Squares>, cm: nat, next: Squares)
    requires Legal(h) && cm < |h| && IsMove(h[cm], next, cm)
    ensures Legal(h[..cm + 1] + [next])
  {
    var h' := h[..cm + 1] + [next];
    forall k | 0 <= k < |h'| - 1
      ensures IsMove(h'[k], h'[k + 1], k)
    {
      if k < cm {
        assert IsMove(h[k], h[k + 1], k);
      }
    }
  }

  class Game {
    /** The boards played so far, oldest first. */
    var history: seq<Squares>
    /** The position in `history` of the board on screen. */
    var currentMove: nat
    var score: Score

    ghost predicate Valid()
      reads this
    {
      currentMove < |history|
    }

    /** `currentSquares = history[currentMove]`. */
    function CurrentSquares(): Squares
      reads this
      requires Valid()
    {
      history[currentMove]
    }

    /** `xIsNext = currentMove % 2 === 0`. */
    function XIsNext(): bool
      reads this
    {
      currentMove % 2 == 0
    }

    /** The initial state: one empty board, pointer 0, no wins. */
    constructor ()
      ensures Valid() && Legal(history)
      ensures history == [EmptySquares] && currentMove == 0
      ensures score == Score(0, 0)
    {
      history := [EmptySquares];
      currentMove := 0;
      score := Score(0, 0);
    }

    /** `handlePlay(nextSquares)`: drop the boards after the current one,
        append the new board and point at it. */
    method HandlePlay(nextSquares: Squares)
      requires Valid()
      modifies this`history, this`currentMove
      ensures Valid()
      ensures history == old(history[..currentMove + 1]) + [nextSquares]
      ensures currentMove == old(currentMove) + 1 == |history| - 1
    {
      var nextHistory := history[..currentMove + 1] + [nextSquares];
      history := nextHistory;
      currentMove := |nextHistory| - 1;
    }

    /** A click on square `i`: the board's `handleClick` followed, when
        the click is accepted, by `handlePlay`. A click on a won board or
        an occupied square changes nothing. */
    method Play(i: Index) returns (played: bool)
      requires Valid()
      modifies this`history, this`currentMove
      ensures Valid()
      ensures played <==> old(WinnerOf(CurrentSquares())).NoWinner? && old(CurrentSquares()[i]) == Empty
      ensures !played ==> history == old(history) && currentMove == old(currentMove)
      ensures played ==> history == old(history[..currentMove + 1]) + [old(HandleClick(CurrentSquares(), i, XIsNext())).next]
      ensures played ==> currentMove == old(currentMove) + 1
      ensures played ==> CurrentSquares()[i] == Mark(if old(currentMove) % 2 == 0 then X else O)
      ensures played ==> forall j :: 0 <= j < 9 && j != i ==> CurrentSquares()[j] == old(CurrentSquares()[j])
      ensures played ==> XIsNext() == !old(XIsNext())
      ensures Legal(old(history)) ==> Legal(history)
    {
      var squares := history[currentMove];
      var result := CalculateWinner(squares);
      if result.Won? || squares[i] != Empty {
        return false;
      }
      var nextSquares := squares[i := Mark(Turn(XIsNext()))];
      ghost var h, cm := history, currentMove;
      assert HandleClick(squares, i, XIsNext()) == Played(nextSquares);
      HandlePlay(nextSquares);
      if Legal(h) {
        assert IsMove(h[cm], nextSquares, cm);
        LegalAfterPlay(h, cm, nextSquares);
      }
      played := true;
    }

    /** `handleRestart()`: back to one empty board at pointer 0, whatever
        the prior state; the score is kept. Calling it twice leaves the
        same state as calling it once. */
    method Restart()
      modifies this`history, this`currentMove
      ensures Valid() && Legal(history)
      ensures history == [EmptySquares] && currentMove == 0
    {
      history := [EmptySquares];
      currentMove := 0;
    }

    /** `resetScore()`: both counts back to zero; the history and the
        pointer are untouched. */
    method ResetScore()
      requires Valid()
      modifies this`score
      ensures Valid()
      ensures score == Score(0, 0)
    {
      score := Score(0, 0);
    }

    /** The reaction to a new current board: a win adds one to the
        winner's count; a win or a draw asks for a restart (the source
        schedules it two seconds later). On a legally played history the
        count that goes up is that of the player who moved last. */
    method RecordResult() returns (restart: bool)
      requires Valid()
      modifies this`score
      ensures WinnerOf(CurrentSquares()).Won? ==>
                score == old(score).Incremented(WinnerOf(CurrentSquares()).winner)
      ensures WinnerOf(CurrentSquares()).NoWinner? ==> score == old(score)
      ensures Valid()
      ensures restart <==> !StatusOf(CurrentSquares(), XIsNext()).NextPlayer?
      ensures Legal(history) && WinnerOf(CurrentSquares()).Won? ==>
                WinnerOf(CurrentSquares()).winner == (if currentMove % 2 == 1 then X else O)
    {
      var currentSquares := history[currentMove];
      var winner := CalculateWinner(currentSquares);
      if winner.Won? {
        score := score.Incremented(winner.winner);
        restart := true;
      } else if Empty !in currentSquares {
        restart := true;
      } else {
        restart := false;
      }
      if Legal(history) && winner.Won? {
        LegalWinnerIsLastMover(history, currentMove);
      }
    }
  }
}
