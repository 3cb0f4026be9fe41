# Two-player tic-tac-toe: client game state and pairing relay

This project models the two small state machines of a browser tic-tac-toe
game played between two remote players.

- **The client** (`front/src/components/Game.js`) keeps a history of board
  snapshots and a pointer `current` into it, with the flags `gameOver`,
  `myTurn` and `gameStarted`. The winner check scans eight fixed lines of the
  3x3 board. Moves, new games, undo, redo and jumps update that state. On
  load, the client reads the connection to join from the page's path.
- **The relay server** (`server.js`) keeps, for every live connection, the
  list of rooms it is in. The first room is always its default room, named
  by its own identifier. A `ready(target)` request pairs the requester with
  the target in a room named by the target's identifier followed by the
  requester's. `play`, `new game` and `disconnecting` are forwarded to the
  other members of the sender's first non-default room.

Modules:

- `GameRules` (`rules.dfy`): boards, the eight lines, the winner check and
  game over. The winner check is a function, and the client's loop is a
  method proved equal to it.
- `GameClient` (`client.dfy`): join-target parsing, snapshots, and the class
  `Game`, whose methods are the component's state updates. Every emit to
  the server is appended to the field `sent`.
- `Rooms` (`rooms.dfy`): the room table as a map from connection identifier
  to its ordered rooms. It holds the handlers' effects as functions of the
  table, and the lemmas about them.
- `Relay` (`relay.dfy`): the class `Server`, which holds the room table and
  an outbox of emitted messages. Its methods are proved against the `Rooms`
  functions.
- `Wrappers` (`wrappers.dfy`): `Option`.

An emitted message records its audience: a room, a room minus its sender,
or one connection. `Rooms.Recipients` gives the connections that audience
reaches, using the room table at the moment of emission.

In two places the code does something its own text shows was not meant; the
model follows the code, and both cases are under "## Findings". The server
answers `room full` (server.js:50) only to a target already in two pair
rooms, which a two-player game never wants. The client's comment at
front/src/components/Game.js:136 calls the pointer update "incrementing the
game step", but after an undo the step it moves to is not the one just added.

## Model

| member | source | states |
|---|---|---|
| `GameRules.FirstWinningLine` | front/src/components/Game.js:19-26 | the index found is the first line, at or after the start, whose three squares hold the same token; 8 means no line from there wins |
| `GameRules.Winner` | front/src/components/Game.js:7-28 | a reported win names a listed line whose three squares hold the reported token, and it is the first such line in list order; no winner exactly when no listed line wins |
| `GameRules.CalculateWinner` | front/src/components/Game.js:19-27 | the loop that returns at the first winning line gives the same answer as the winner check |
| `GameRules.IsGameOver` | front/src/components/Game.js:31 | game over exactly when some listed line wins or all nine squares hold a token |
| `GameClient.FirstOccurrence` | front/src/components/Game.js:71 | the position found is an occurrence of the pattern with none before it; none found means the pattern occurs nowhere |
| `GameClient.JoinTarget` | front/src/components/Game.js:71-73 | a path without the share-link prefix, "/" in particular, is its own join target; otherwise the target is the path with its first occurrence of the prefix cut out |
| `GameClient.JoinTargetOfShareLink` | front/src/components/Game.js:71 | the path `/join/:` followed by an identifier yields that identifier back, even when the identifier itself contains the prefix |
| `GameClient.Played` | front/src/components/Game.js:126-135 | the next snapshot holds the mover's token (X when `xIsNext`, else O) on the played square, every other square as before, and the turn flag negated |
| `GameClient.InitialAlternates` | front/src/components/Game.js:46-52 | the first snapshot (empty board, X to move) satisfies the move-alternation invariant |
| `GameClient.PlayedAlternates` | front/src/components/Game.js:126-135 | placing the mover's token on an empty square and negating the turn flag keeps X and O counts alternating |
| `GameClient.AppendedHistory` | front/src/components/Game.js:135 | the history after a move keeps every older entry in place and has the new snapshot as its one added, last entry |
| `GameClient.AppendedHistoryShowsMoveOnlyAtEnd` | front/src/components/Game.js:135-136 | the entry after the pointer is the new snapshot when the pointer was on the last entry, and otherwise the older entry that was already there |
| `GameClient.PlayAfterUndoShowsStaleSnapshot` | front/src/components/Game.js:135-136 | an example: with two entries and the pointer stepped back to the first, a move on square 4 leaves the advanced pointer on a snapshot without that move |
| `GameClient.TruncatedHistoryShowsMove` | front/src/components/Game.js:135-136 | with the entries past the pointer dropped first, the advanced pointer is on the last entry, which is the old snapshot with the move applied and the turn flag negated |
| `GameClient.Game.constructor` | front/src/components/Game.js:38-54 | the initial state: one empty snapshot with X to move, pointer 0, not over, not started, not this player's turn |
| `GameClient.Game.Mount` | front/src/components/Game.js:71-90 | a join target of "/" makes this player move first and sends nothing; any other target is sent as `ready` and this player moves second |
| `GameClient.Game.OnStartGame` | front/src/components/Game.js:93-100 | `start game` marks the game started |
| `GameClient.Game.HandlePlay` | front/src/components/Game.js:124-140 | a taken square changes nothing; an empty one appends one snapshot with the mover's token there and the turn flag negated, advances the pointer by one, and sets game over from the new board |
| `GameClient.Game.HandleClick` | front/src/components/Game.js:143-160 | nothing happens while the game is over or on a taken square; otherwise the move is made, the turn passes, and `play` with the square is sent |
| `GameClient.Game.OnPlay` | front/src/components/Game.js:105-116 | a peer's move is applied like a local one, and it becomes this player's turn even if the square was taken |
| `GameClient.Game.HandleNewGame` | front/src/components/Game.js:162-172 | the history becomes its first entry, which is the initial snapshot; pointer 0, not over, not this player's turn |
| `GameClient.Game.NewGameButton` | front/src/components/Game.js:254-259 | the reset is followed by sending `new game`, and the initiator moves first |
| `GameClient.Game.JumpTo` | front/src/components/Game.js:175-182 | the pointer moves to the chosen entry; game over exactly when that is the last entry of a history longer than one |
| `GameClient.Game.Undo` | front/src/components/Game.js:240-245 | the pointer steps back one and game over is cleared |
| `GameClient.Game.Redo` | front/src/components/Game.js:247-252 | the pointer steps forward one, game over untouched |
| `Rooms.Join` | server.js:38-43 | joining keeps the earlier rooms in order and adds exactly the joined room, at the end, unless the connection was already in it |
| `Rooms.JoinKeepsEntry` | server.js:38-43 | joining keeps the default room first and never lists a room twice |
| `Rooms.OtherRoom` | server.js:59 | the room found is not the sender's identifier and every room before it is; nothing is found exactly when all rooms are the sender's own |
| `Rooms.OtherRoomIsSecond` | server.js:59 | for a well-formed entry the search yields the second room, if there is one |
| `Rooms.ReadyRooms` | server.js:32-48 | no connection appears or disappears; a target not admitted leaves the table as it was; an admitted one puts the requester and the target in the pair room named target then requester, keeps everyone's earlier rooms, and adds no other room to anyone |
| `Rooms.ReadyEmits` | server.js:34-51 | at most one message, and none exactly when the target is unknown; it is `start game` exactly when the target is admitted, addressed to the pair room, and otherwise `room full` to the requester |
| `Rooms.ReadyUnknownTarget` | server.js:34 | `ready` naming no live connection changes no room and emits nothing |
| `Rooms.ReadyPairs` | server.js:32-47 | an admitted `ready` adds the requester and the target to the pair room named target then requester, changes no other room and no other connection, keeps the table well formed, and emits `start game` once to the pair room |
| `Rooms.ReadyRoomFull` | server.js:49-51 | a live target over the bound leaves the table unchanged, and only the requester hears `room full` |
| `Rooms.ReadyChecksOnlyTarget` | server.js:36-38 | the outcome of `ready` depends on the target's rooms only; the requester joins whatever rooms it is already in |
| `Rooms.SelfReady` | server.js:30-47 | a connection naming itself joins a room named twice its identifier, alone unless that room had members, and hears `start game` |
| `Rooms.RelayEmits` | server.js:59-62 | at most one message, none exactly when every room of the sender is its own; it carries the event unchanged to one of the sender's rooms other than its default room, excluding the sender |
| `Rooms.RelayReachesPeers` | server.js:55-77 | a relayed event is dropped for an unpaired sender; otherwise it is emitted once, unchanged, to the other members of the sender's second room, never to the sender |
| `Rooms.PairedPlayersRelay` | server.js:30-63 | two fresh connections paired by `ready` both hear `start game`, and from then on each one's relayed events reach exactly the other |
| `Rooms.LeaveSilencesPeer` | server.js:73-77 | once a connection is removed, it is in no room, so nothing relayed afterwards reaches it |
| `Rooms.PairedTargetAdmittedAgain` | server.js:36-47 | with the bound of two rooms, any target already paired is admitted again: the requester gets `start game`, not `room full`, and the target ends up in two pair rooms |
| `Rooms.ThirdPlayerAdmitted` | server.js:36 | an example: after b and then c name a, c gets `start game` and a is in rooms `ab` and `ac` |
| `Rooms.ExclusiveReadyKeepsOneSession` | server.js:36 | with a bound of one room, a `ready` from an unpaired requester keeps every connection in at most one pair room, and a paired target answers `room full` |
| `Relay.Server.constructor` | server.js:21 | the server starts with no connections and nothing emitted |
| `Relay.Server.Connect` | server.js:26 | a new connection appears in its default room alone |
| `Relay.Server.OnReady` | server.js:30-52 | the table and outbox after `ready` are those of the pairing functions with the bound of two rooms |
| `Relay.Server.Forward` | server.js:59-62 | the outbox gains the relayed event for the sender's first non-default room, and the room table is not changed |
| `Relay.Server.OnPlay` | server.js:55-63 | `play` is relayed with its payload as received, and the table is not changed |
| `Relay.Server.OnNewGame` | server.js:65-70 | `new game` is relayed the same way, and the table is not changed |
| `Relay.Server.OnDisconnecting` | server.js:73-77 | `player left` is relayed the same way while the connection is still in its rooms, and the table is not changed |
| `Relay.Server.Disconnect` | server.js:73-77 | after `disconnecting`, the connection's entry leaves the table |

## Findings

| source | as written | input that shows it | evidently intended | confidence | as-written member | corrected member |
|---|---|---|---|---|---|---|
| server.js:36 | a target in at most two rooms is admitted, and a paired target is in exactly two rooms (its default room and the pair room) | b sends `ready(a)`, then c sends `ready(a)`: c and a get `start game` and a is in rooms `ab` and `ac` | admit only a target that is in its default room alone, so the third player hears `room full`; as written, `room full` (server.js:50) fires only for a target already in two pair rooms | not executed; high | `Rooms.ReadyRooms` with `Rooms.SourceLimit`, shown by `Rooms.PairedTargetAdmittedAgain` and the example `Rooms.ThirdPlayerAdmitted` | `Rooms.ReadyRooms` with `Rooms.ExclusiveLimit`, proved in `Rooms.ExclusiveReadyKeepsOneSession` |
| front/src/components/Game.js:135-136 | the new snapshot is appended after every existing entry, but the pointer only moves to `current + 1` | X plays square 0; O, now to move, presses Undo and clicks square 4: the pointer lands on the snapshot with X on 0 and without the new mark on 4 | drop the entries after the pointer before appending, so the pointer lands on the move just made, the "game step" the comment at line 136 says it increments to | not executed; high | `GameClient.AppendedHistory`, shown by `GameClient.AppendedHistoryShowsMoveOnlyAtEnd` and the example `GameClient.PlayAfterUndoShowsStaleSnapshot` | `GameClient.TruncatedHistory`, proved in `GameClient.TruncatedHistoryShowsMove` |

The classes `GameClient.Game` and `Relay.Server` keep the code as written, so
that each method matches the lines it cites. The corrected definitions sit
beside them in the same modules, with their properties proved there.

## Left out

- Static asset serving, the catch-all route, `app.listen` and the port setting (server.js:7-18) are HTTP plumbing.
- The socket transport itself is not modelled: connecting, delivery and its timing. Emitted messages are kept in an outbox in emission order. `Rooms.Recipients` says who an entry reaches.
- `Relay.Server.Connect` and `Relay.Server.Disconnect` stand for the transport's own bookkeeping. The code relies on it but does not contain it.
- The connection table is a map. The code looks connections up on a plain object, so a name it inherits, such as `constructor`, is found there. Its `rooms` is then undefined, and `Object.keys` at server.js:36 throws inside the `ready` handler; a page at `/join/:constructor` sends such a request. That case is not modelled.
- A connection's rooms are kept in the order it joined them. Key enumeration that puts integer-like names first is not modelled.
- `Rooms.SelfReady` assumes a non-empty identifier. An empty identifier would make the pair room equal to the default room.
- React rendering, the status line, the highlighted squares, `Board.js` and `Square.js` are presentation. So are the share link, the clipboard and `alert` (front/src/components/Game.js:185-306).
- The state's `socketID` field is left out. It is set on connect and is only used to build the share link.
- On `player left`, the client reassigns `window.location` (front/src/components/Game.js:119). This and `console.log` are browser I/O.
- State updates are modelled as atomic sequential steps. This covers the asynchronous batching of `setState` and the callback that `handlePlay` invokes eagerly (front/src/components/Game.js:138).
- The page path is a parameter of `GameClient.Game.Mount`. Like the code, the model does not percent-decode it.
- `GameClient.Game.OnPlay`: squares are indices 0 to 8. A peer that sends any other value is not modelled; the code would then write past the ninth square.
- `Rooms.Event`: the server relays any `play` payload unchanged; the model restricts the payload to an integer, the square number the client sends.
- `GameClient.Game.Undo`, `GameClient.Game.Redo` and `GameClient.Game.JumpTo` require the pointer positions at which their buttons are shown. The button for `JumpTo` exists only for entries of the history.
