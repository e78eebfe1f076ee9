/** The win evaluator of the tic-tac-toe game (`calculateWinner` in
    src/App.js): the board's cells, the eight winning lines in their fixed
    order, and the scan that reports the first completed line. */
module WinEvaluator {

  datatype Player = X | O

  /** The opponent of `p`. */
  function Other(p: Player): (q: Player)
    ensures q != p
  {
    if p == X then O else X
  }

  /** A square is empty (`null` in the source) or holds a player's mark. */
  datatype Cell = Empty | Mark(player: Player)

  /** A valid cell index; cell `row * 3 + col` in row-major order. */
  type Index = i: nat | i < 9

  /** A board: nine cells, row-major. */
  type Squares = s: seq<Cell> | |s| == 9
    witness [Empty, Empty, Empty, Empty, Empty, Empty, Empty, Empty, Empty]

  /** The board every game starts from (`Array(9).fill(null)`). */
  const EmptySquares: Squares := [Empty, Empty, Empty, Empty, Empty, Empty, Empty, Empty, Empty]

  /** Three cell indices that win when one player holds all of them. */
  datatype Line = Line(a: Index, b: Index, c: Index)

  /** The eight lines in the order the evaluator tries them:
      three rows, three columns, two diagonals. */
  const Lines: seq<Line> := [
    Line(0, 1, 2), Line(3, 4, 5), Line(6, 7, 8),
    Line(0, 3, 6), Line(1, 4, 7), Line(2, 5, 8),
    Line(0, 4, 8), Line(2, 4, 6)
  ]

  /** What the evaluator reports: no winner (both fields `null` in the
      source), or the winning symbol together with its line. */
  datatype WinResult = NoWinner | Won(winner: Player, line: Line)

  /** Line `l` is completed on `s`: its first cell is not empty and the
      other two hold the same symbol. */
  predicate Completes(s: Squares, l: Line)
  {
    s[l.a] != Empty && s[l.a] == s[l.b] && s[l.a] == s[l.c]
  }

  /** `Lines[j]` is the first completed line at or after position `from`. */
  ghost predicate FirstCompleted(s: Squares, from: nat, j: nat)
  {
    from <= j < |Lines| && Completes(s, Lines[j]) &&
    forall i :: from <= i < j ==> !Completes(s, Lines[i])
  }

  lemma LinesDistinct(i: nat, j: nat)
    requires i < |Lines| && j < |Lines| && Lines[i] == Lines[j]
    ensures i == j
  {
  }

  /** The scan of `Lines` from position `k` on, stopping at the first
      completed line. */
  function ScanFrom(s: Squares, k: nat): (r: WinResult)
    requires k <= |Lines|
    decreases |Lines| - k
  {
    if k == |Lines| then NoWinner
    else if Completes(s, Lines[k]) then Won(s[Lines[k].a].player, Lines[k])
    else ScanFrom(s, k + 1)
  }

  /** The scan from `k` finds no winner exactly when no line from `k` on is
      completed, and otherwise reports the first completed line from `k` on
      with the symbol that fills it. */
  lemma {:induction false} ScanFromFindsFirst(s: Squares, k: nat)
    requires k <= |Lines|
    decreases |Lines| - k
    ensures ScanFrom(s, k).NoWinner? <==> forall j :: k <= j < |Lines| ==> !Completes(s, Lines[j])
    ensures ScanFrom(s, k).Won? ==>
              exists j: nat :: FirstCompleted(s, k, j) && ScanFrom(s, k).line == Lines[j]
    ensures ScanFrom(s, k).Won? ==> s[ScanFrom(s, k).line.a] == Mark(ScanFrom(s, k).winner)
  {
    if k < |Lines| && !Completes(s, Lines[k]) {
      ScanFromFindsFirst(s, k + 1);
      var r := ScanFrom(s, k + 1);
      if r.Won? {
        var j: nat :| FirstCompleted(s, k + 1, j) && r.line == Lines[j];
        assert FirstCompleted(s, k, j);
      }
    } else if k < |Lines| {
      assert FirstCompleted(s, k, k);
    }
  }

  /** The verdict of `calculateWinner`. */
  function WinnerOf(s: Squares): WinResult
  {
    ScanFrom(s, 0)
  }

  /** No winner exactly when no line is completed; otherwise the first
      completed line in the fixed order, whose three cells all hold the
      reported symbol. */
  lemma WinnerOfFindsFirst(s: Squares)
    ensures WinnerOf(s).NoWinner? <==> forall j :: 0 <= j < |Lines| ==> !Completes(s, Lines[j])
    ensures WinnerOf(s).Won? ==> exists j: nat :: FirstCompleted(s, 0, j) && WinnerOf(s).line == Lines[j]
    ensures WinnerOf(s).Won? ==>
              s[WinnerOf(s).line.a] == s[WinnerOf(s).line.b] == s[WinnerOf(s).line.c] == Mark(WinnerOf(s).winner)
  {
    ScanFromFindsFirst(s, 0);
  }

  /** `calculateWinner` as the source runs it: a loop over the lines that
      returns at the first completed one. */
  method CalculateWinner(squares: Squares) returns (r: WinResult)
    ensures r == WinnerOf(squares)
  {
    for k := 0 to |Lines|
      invariant ScanFrom(squares, k) == WinnerOf(squares)
    {
      var line := Lines[k];
      if squares[line.a] != Empty && squares[line.a] == squares[line.b] && squares[line.a] == squares[line.c] {
        return Won(squares[line.a].player, line);
      }
    }
    return NoWinner;
  }

  /** Two positions that are both the first completed line are the same. */
  lemma FirstCompletedUnique(s: Squares, i: nat, j: nat)
    requires FirstCompleted(s, 0, i) && FirstCompleted(s, 0, j)
    ensures i == j
  {
  }

  /** The evaluator reports player `p` and line `Lines[j]` exactly when
      `Lines[j]` is the first completed line and `p` fills it. */
  lemma WinnerIsFirstCompletedLine(s: Squares, p: Player, j: nat)
    requires j < |Lines|
    ensures WinnerOf(s) == Won(p, Lines[j]) <==> FirstCompleted(s, 0, j) && s[Lines[j].a] == Mark(p)
  {
    var r := WinnerOf(s);
    WinnerOfFindsFirst(s);
    if r == Won(p, Lines[j]) {
      var i: nat :| FirstCompleted(s, 0, i) && r.line == Lines[i];
      LinesDistinct(i, j);
    }
    if FirstCompleted(s, 0, j) && s[Lines[j].a] == Mark(p) {
      assert !r.NoWinner?;
      var i: nat :| FirstCompleted(s, 0, i) && r.line == Lines[i];
      FirstCompletedUnique(s, i, j);
    }
  }

  /** A board on which exactly one line is completed is won by that line's
      owner, with that line. */
  lemma SingleCompletedLine(s: Squares, j: nat)
    requires j < |Lines| && Completes(s, Lines[j])
    requires forall i :: 0 <= i < |Lines| && i != j ==> !Completes(s, Lines[i])
    ensures WinnerOf(s) == Won(s[Lines[j].a].player, Lines[j])
  {
    assert FirstCompleted(s, 0, j);
    WinnerIsFirstCompletedLine(s, s[Lines[j].a].player, j);
  }
}
