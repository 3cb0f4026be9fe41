/**
 * The client side of a game (front/src/components/Game.js): the history of
 * board snapshots with a pointer into it, the flags that gate play, and the
 * messages the client emits to the relay server.
 */
module GameClient {
  import opened GameRules
  import opened Wrappers

  // ---------------------------------------------------------------------
  // The join target in the page's path
  // ---------------------------------------------------------------------

  /** The path prefix of a share link; what follows it names the inviter's connection. */
  const JoinPrefix: string := "/join/:"

  predicate OccursAt(s: string, pattern: string, k: nat) {
    k + |pattern| <= |s| && s[k..k + |pattern|] == pattern
  }

  /** The first position at or after `from` where `pattern` occurs in `s`. */
  function FirstOccurrence(s: string, pattern: string, from: nat): (r: Option<nat>)
    ensures r.Some? ==> from <= r.value && OccursAt(s, pattern, r.value)
    ensures r.Some? ==> forall j :: from <= j < r.value ==> !OccursAt(s, pattern, j)
    ensures r.None? ==> forall j :: from <= j ==> !OccursAt(s, pattern, j)
    decreases |s| - from
  {
    if from + |pattern| > |s| then None
    else if OccursAt(s, pattern, from) then Some(from)
    else FirstOccurrence(s, pattern, from + 1)
  }

  /** String replacement with a string pattern: only the first occurrence is replaced. */
  function ReplaceFirst(s: string, pattern: string, replacement: string): string {
    match FirstOccurrence(s, pattern, 0)
    case None => s
    case Some(k) => s[..k] + replacement + s[k + |pattern|..]
  }

  /**
   * The connection to join: the page's path with its first share-link prefix
   * cut out. A path without the prefix, "/" in particular, is returned as it is.
   */
  function JoinTarget(path: string): (target: string)
    ensures (forall k :: !OccursAt(path, JoinPrefix, k)) ==> target == path
    ensures forall k: nat ::
      OccursAt(path, JoinPrefix, k) && (forall j :: 0 <= j < k ==> !OccursAt(path, JoinPrefix, j)) ==>
        target == path[..k] + path[k + |JoinPrefix|..]
  {
    ReplaceFirst(path, JoinPrefix, "")
  }

  /** The path of a share link for connection `id` yields `id` back, whatever `id` contains. */
  lemma JoinTargetOfShareLink(id: string)
    ensures JoinTarget(JoinPrefix + id) == id
  {
  }

  // ---------------------------------------------------------------------
  // Snapshots and messages
  // ---------------------------------------------------------------------

  /** One entry of the game history: the board and whose turn it is on it. */
  datatype Snapshot = Snapshot(squares: Board, xIsNext: bool)

  /** The first history entry: an empty board, X (the inviter) to move. */
  const InitialSnapshot: Snapshot := Snapshot(EmptyBoard, true)

  /** The messages the client emits to the relay server. */
  datatype Message = Ready(target: string) | Play(square: Square) | NewGame

  function NextToken(xIsNext: bool): Token {
    if xIsNext then X else O
  }

  /** The snapshot that follows `s` when square i is played: the mover's token at i, the turn flag negated. */
  function Played(s: Snapshot, i: Square): (next: Snapshot)
    ensures next.squares[i] == Mark(if s.xIsNext then X else O) && next.xIsNext == !s.xIsNext
    ensures forall j: Square :: j != i ==> next.squares[j] == s.squares[j]
  {
    Snapshot(s.squares[i := Mark(NextToken(s.xIsNext))], !s.xIsNext)
  }

  /**
   * The moves on a board alternate, X first: X has made one more move than O
   * exactly when it is O's turn, and as many moves otherwise.
   */
  ghost predicate Alternates(s: Snapshot) {
    Count(s.squares, X) == Count(s.squares, O) + (if s.xIsNext then 0 else 1)
  }

  lemma InitialAlternates()
    ensures Alternates(InitialSnapshot)
  {
  }

  /** Playing an empty square keeps the moves alternating. */
  lemma PlayedAlternates(s: Snapshot, i: Square)
    requires Alternates(s) && s.squares[i] == Empty
    ensures Alternates(Played(s, i))
  {
    var t := NextToken(s.xIsNext);
    CountAfterMark(s.squares, i, t);
    assert Other(t) == (if t == X then O else X);
  }

  /** The history after a move, as the client builds it: the new snapshot goes at the end. */
  function AppendedHistory(history: seq<Snapshot>, current: nat, i: Square): (h: seq<Snapshot>)
    requires current < |history|
    ensures |h| == |history| + 1 && h[..|history|] == history
    ensures h[|history|] == Played(history[current], i)
  {
    history + [Played(history[current], i)]
  }

  /**
   * As the client builds it, the entry after the pointer is the new snapshot
   * when the pointer was on the last entry, and otherwise the old entry that
   * was already there.
   */
  lemma AppendedHistoryShowsMoveOnlyAtEnd(history: seq<Snapshot>, current: nat, i: Square)
    requires current < |history|
    ensures var h := AppendedHistory(history, current, i);
      (current == |history| - 1 ==> h[current + 1] == Played(history[current], i)) &&
      (current + 1 < |history| ==> h[current + 1] == history[current + 1])
  {
    var h := AppendedHistory(history, current, i);
    if current + 1 < |history| {
      assert h[current + 1] == h[..|history|][current + 1];
    }
  }

  /**
   * An example of the above: after an undo the pointer is behind the last
   * entry; a move then appends its snapshot at the end but moves the pointer
   * to current + 1, which shows an older snapshot that does not hold the move.
   */
  lemma PlayAfterUndoShowsStaleSnapshot()
    ensures var history := [InitialSnapshot, Played(InitialSnapshot, 0)];
      var current := 0;
      AppendedHistory(history, current, 4)[current + 1] != Played(history[current], 4)
  {
    var history := [InitialSnapshot, Played(InitialSnapshot, 0)];
    assert AppendedHistory(history, 0, 4)[1].squares[0] == Mark(X);
    assert Played(history[0], 4).squares[0] == Empty;
  }

  /** The history after a move with the entries past the pointer dropped first. */
  function TruncatedHistory(history: seq<Snapshot>, current: nat, i: Square): (h: seq<Snapshot>)
    requires current < |history|
  {
    history[..current + 1] + [Played(history[current], i)]
  }

  /** With truncation, the pointer moved to current + 1 always shows the move just made, as the last entry. */
  lemma TruncatedHistoryShowsMove(history: seq<Snapshot>, current: nat, i: Square)
    requires current < |history|
    ensures var h := TruncatedHistory(history, current, i);
      |h| == current + 2 && h[..current + 1] == history[..current + 1] &&
      h[current + 1].squares[i] == Mark(NextToken(history[current].xIsNext)) &&
      h[current + 1].xIsNext == !history[current].xIsNext &&
      forall j: Square :: j != i ==> h[current + 1].squares[j] == history[current].squares[j]
  {
  }

  // ---------------------------------------------------------------------
  // The game component's state
  // ---------------------------------------------------------------------

  class Game {
    /** The snapshots played so far, oldest first. */
    var history: seq<Snapshot>
    /** The index of the snapshot on display. */
    var current: nat
    var gameOver: bool
    var myTurn: bool
    var gameStarted: bool
    /** The messages emitted to the server, oldest first. */
    var sent: seq<Message>

    ghost predicate Valid()
      reads this
    {
      |history| >= 1 && history[0] == InitialSnapshot && current < |history| &&
      forall k :: 0 <= k < |history| ==> Alternates(history[k])
    }

    /** The state before mounting: one empty snapshot, nothing started, not this player's turn. */
    constructor ()
      ensures Valid()
      ensures history == [InitialSnapshot] && current == 0
      ensures !gameOver && !myTurn && !gameStarted && sent == []
    {
      history := [InitialSnapshot];
      current := 0;
      gameOver := false;
      myTurn := false;
      gameStarted := false;
      sent := [];
      InitialAlternates();
    }

    /**
     * On mount the join target is read from the path: "/" means this player
     * invites and moves first; anything else is sent as a `ready` request and
     * this player moves second.
     */
    method Mount(path: string)
      requires Valid()
      modifies this
      ensures Valid()
      ensures var target := JoinTarget(path);
        if target == "/" then sent == old(sent) && myTurn
        else sent == old(sent) + [Ready(target)] && !myTurn
      ensures history == old(history) && current == old(current)
      ensures gameOver == old(gameOver) && gameStarted == old(gameStarted)
    {
      var target := JoinTarget(path);
      if target != "/" {
        sent := sent + [Ready(target)];
        myTurn := false;
      } else {
        myTurn := true;
      }
    }

    /** The server announced that both players are in the room. */
    method OnStartGame()
      requires Valid()
      modifies this`gameStarted
      ensures Valid() && gameStarted
    {
      gameStarted := true;
    }

    /**
     * A move on square i: ignored when the square of the displayed snapshot is
     * taken; otherwise the next snapshot is appended at the end of the history,
     * the pointer advances by one and the game is over if the new board is.
     * `filled` tells whether the move was made.
     */
    method HandlePlay(i: Square) returns (filled: bool)
      requires Valid()
      modifies this`history, this`current, this`gameOver
      ensures Valid()
      ensures filled <==> old(history[current].squares[i]) == Empty
      ensures !filled ==> history == old(history) && current == old(current) && gameOver == old(gameOver)
      ensures filled ==>
        history == AppendedHistory(old(history), old(current), i) &&
        current == old(current) + 1 &&
        gameOver == IsGameOver(Played(old(history[current]), i).squares)
    {
      var snapshot := history[current];
      filled := snapshot.squares[i] == Empty;
      if filled {
        var next := Played(snapshot, i);
        PlayedAlternates(snapshot, i);
        gameOver := IsGameOver(next.squares);
        history := history + [next];
        current := current + 1;
      }
    }

    /**
     * A click on square i: nothing while the game is over; a move on a taken
     * square does nothing either; otherwise the move is made, the turn passes
     * to the peer and the move is sent to the server.
     */
    method HandleClick(i: Square)
      requires Valid()
      modifies this`history, this`current, this`gameOver, this`myTurn, this`sent
      ensures Valid()
      ensures gameStarted == old(gameStarted)
      ensures old(gameOver) || old(history[current].squares[i]) != Empty ==>
        history == old(history) && current == old(current) && gameOver == old(gameOver) &&
        myTurn == old(myTurn) && sent == old(sent)
      ensures !old(gameOver) && old(history[current].squares[i]) == Empty ==>
        history == AppendedHistory(old(history), old(current), i) &&
        current == old(current) + 1 &&
        gameOver == IsGameOver(Played(old(history[current]), i).squares) &&
        !myTurn && sent == old(sent) + [Play(i)]
    {
      if !gameOver {
        var filled := HandlePlay(i);
        if filled {
          myTurn := false;
          sent := sent + [Play(i)];
        }
      }
    }

    /** The peer played square i: the move is applied the same way and it becomes this player's turn. */
    method OnPlay(i: Square)
      requires Valid()
      modifies this`history, this`current, this`gameOver, this`myTurn
      ensures Valid() && myTurn
      ensures old(history[current].squares[i]) != Empty ==>
        history == old(history) && current == old(current) && gameOver == old(gameOver)
      ensures old(history[current].squares[i]) == Empty ==>
        history == AppendedHistory(old(history), old(current), i) &&
        current == old(current) + 1 &&
        gameOver == IsGameOver(Played(old(history[current]), i).squares)
    {
      var _ := HandlePlay(i);
      myTurn := true;
    }

    /** A new game: only the first snapshot is kept and this player waits for the peer. */
    method HandleNewGame()
      requires Valid()
      modifies this`history, this`current, this`gameOver, this`myTurn
      ensures Valid()
      ensures history == [old(history[0])] && history == [InitialSnapshot]
      ensures current == 0 && !gameOver && !myTurn
    {
      gameOver := false;
      current := 0;
      history := [history[0]];
      myTurn := false;
    }

    /** The new-game button: reset, tell the peer, and take the first move. */
    method NewGameButton()
      requires Valid()
      modifies this`history, this`current, this`gameOver, this`myTurn, this`sent
      ensures Valid()
      ensures history == [InitialSnapshot] && current == 0 && !gameOver
      ensures myTurn && sent == old(sent) + [NewGame]
    {
      HandleNewGame();
      sent := sent + [NewGame];
      myTurn := true;
    }

    /**
     * Jump to snapshot `move` of the history list. The game is flagged over
     * exactly when the jump lands on the last snapshot of a history longer
     * than one entry.
     */
    method JumpTo(move: nat)
      requires Valid() && move < |history|
      modifies this`current, this`gameOver
      ensures Valid() && current == move
      ensures gameOver <==> move == |history| - 1 && |history| != 1
    {
      var stepsNumber := |history|;
      current := move;
      gameOver := stepsNumber - 1 == move && stepsNumber != 1;
    }

    /** Undo, offered while the pointer is past the first snapshot: step back and reopen play. */
    method Undo()
      requires Valid() && current > 0
      modifies this`current, this`gameOver
      ensures Valid() && current == old(current) - 1 && !gameOver
    {
      gameOver := false;
      current := current - 1;
    }

    /** Redo, offered while the pointer is before the last snapshot: step forward. */
    method Redo()
      requires Valid() && current < |history| - 1
      modifies this`current
      ensures Valid() && current == old(current) + 1
    {
      current := current + 1;
    }
  }
}
