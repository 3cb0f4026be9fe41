/**
 * The rules of the 3x3 board: which lines win, who has won, and when the
 * game is over. This is the pure part of front/src/components/Game.js.
 */
module GameRules {

  /** The two marks a player can put on a square. */
  datatype Token = X | O

  /** A square is empty (null in the client) or holds a token. */
  datatype Cell = Empty | Mark(token: Token)

  /** A board is always exactly nine squares, row by row. */
  type Board = b: seq<Cell> | |b| == 9
    witness [Empty, Empty, Empty, Empty, Empty, Empty, Empty, Empty, Empty]

  /** An index of a square on the board. */
  type Square = i: int | 0 <= i < 9

  const EmptyBoard: Board := [Empty, Empty, Empty, Empty, Empty, Empty, Empty, Empty, Empty]

  /** Three squares that win when they hold the same token. */
  datatype Line = Line(a: Square, b: Square, c: Square)

  /** The eight winning lines, in the order the client scans them. */
  const Lines: seq<Line> := [
    Line(0, 1, 2), Line(3, 4, 5), Line(6, 7, 8),
    Line(0, 3, 6), Line(1, 4, 7), Line(2, 5, 8),
    Line(0, 4, 8), Line(2, 4, 6)
  ]

  /** The answer of the winner check: `[null]` or `[token, a, b, c]`. */
  datatype Outcome = NoWinner | Won(token: Token, a: Square, b: Square, c: Square)

  /** The first square of the line is occupied and the other two hold the same token. */
  predicate LineWins(squares: Board, line: Line) {
    squares[line.a] != Empty && squares[line.a] == squares[line.b] && squares[line.a] == squares[line.c]
  }

  /** Line k is the first winning line in list order. */
  predicate IsFirstWin(squares: Board, k: int) {
    0 <= k < |Lines| && LineWins(squares, Lines[k]) &&
    forall j :: 0 <= j < k ==> !LineWins(squares, Lines[j])
  }

  /** The index of the first winning line at or after `from`, or 8 when there is none. */
  function FirstWinningLine(squares: Board, from: nat): (k: nat)
    requires from <= |Lines|
    ensures from <= k <= |Lines|
    ensures k < |Lines| ==> LineWins(squares, Lines[k])
    ensures forall j :: from <= j < k ==> !LineWins(squares, Lines[j])
    decreases |Lines| - from
  {
    if from == |Lines| then |Lines|
    else if LineWins(squares, Lines[from]) then from
    else FirstWinningLine(squares, from + 1)
  }

  /**
   * The winner check: the token and squares of the first line, in list
   * order, whose three squares hold the same token; NoWinner when none does.
   */
  function Winner(squares: Board): (r: Outcome)
    ensures r.Won? ==>
      squares[r.a] == squares[r.b] == squares[r.c] == Mark(r.token) &&
      exists k :: IsFirstWin(squares, k) && Lines[k] == Line(r.a, r.b, r.c)
    ensures r.NoWinner? <==> forall k :: 0 <= k < |Lines| ==> !LineWins(squares, Lines[k])
  {
    var k := FirstWinningLine(squares, 0);
    if k == |Lines| then NoWinner
    else
      var line := Lines[k];
      assert IsFirstWin(squares, k);
      Won(squares[line.a].token, line.a, line.b, line.c)
  }

  /** The client's loop over the lines, returning at the first line that wins. */
  method CalculateWinner(squares: Board) returns (r: Outcome)
    ensures r == Winner(squares)
  {
    var i := 0;
    while i < |Lines|
      invariant 0 <= i <= |Lines|
      invariant FirstWinningLine(squares, i) == FirstWinningLine(squares, 0)
    {
      var line := Lines[i];
      if squares[line.a] != Empty && squares[line.a] == squares[line.b] && squares[line.a] == squares[line.c] {
        return Won(squares[line.a].token, line.a, line.b, line.c);
      }
      i := i + 1;
    }
    return NoWinner;
  }

  /** Every square holds a token. */
  predicate IsFull(squares: Board) {
    forall i :: 0 <= i < |squares| ==> squares[i] != Empty
  }

  /** The game is over when some line wins or the board is full. */
  function IsGameOver(squares: Board): (over: bool)
    ensures over <==> (exists k :: 0 <= k < |Lines| && LineWins(squares, Lines[k])) || IsFull(squares)
  {
    Winner(squares).Won? || IsFull(squares)
  }

  /** The number of squares holding token t. */
  function Count(cells: seq<Cell>, t: Token): nat {
    if cells == [] then 0
    else (if cells[0] == Mark(t) then 1 else 0) + Count(cells[1..], t)
  }

  function Other(t: Token): Token {
    if t == X then O else X
  }

  /** Marking an empty square adds one to the count of its token and leaves the other count alone. */
  lemma {:induction false} CountAfterMark(cells: seq<Cell>, i: nat, t: Token)
    requires i < |cells| && cells[i] == Empty
    ensures Count(cells[i := Mark(t)], t) == Count(cells, t) + 1
    ensures Count(cells[i := Mark(t)], Other(t)) == Count(cells, Other(t))
  {
    var marked := cells[i := Mark(t)];
    if i == 0 {
      assert marked[1..] == cells[1..];
    } else {
      CountAfterMark(cells[1..], i - 1, t);
      assert marked[1..] == cells[1..][i - 1 := Mark(t)];
    }
  }
}
