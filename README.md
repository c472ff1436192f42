# Tic-tac-toe room coordination, modelled in Dafny

This project models the server side of a two-player tic-tac-toe game. The
server has two interchangeable implementations:

- **Direct relay.** A Socket.IO server holds every room in an in-process
  `Map`. It handles the `create-room`, `join-room`, `player-move`,
  `restart-game` and `disconnect` events. Errors go back to the sender;
  state updates are broadcast to the room.
- **Broker and store.** Five Next.js POST routes (`create-room`,
  `join-room`, `leave-room`, `player-move`, `restart`) read a room from
  Redis, validate the request, write the room back and trigger a Pusher
  event on the room's private channel.

Both rest on the same game engine (`getInitialGameState`, `checkWinner`)
and the same move transition:

1. A validation chain: the room exists, the player is a member, it is the
   player's turn, the square is empty, and the game is not over.
2. An apply step: the mark is written, then exactly one of three outcomes
   is recorded — a win (winner and line set, turn kept), a draw (full board
   without a line, turn kept) or a running game (turn passed to the opponent).

Files and modules:

| file | module | models |
|---|---|---|
| `wrappers.dfy` | `Wrappers` | `Option` (JavaScript `null`/`undefined`) and `Result` |
| `engine.dfy` | `Engine` | marks, squares, the board, the game state, `getInitialGameState`, `checkWinner`, and the invariant `Consistent` of reachable game states |
| `rooms.dfy` | `Rooms` | players and rooms; the room-level steps both variants perform (create, seat, `findIndex`/`find`, `splice`, restart); the registry invariant |
| `moves.dfy` | `Moves` | the validation chain with its ordered rejections, and the apply-move step |
| `socket_server.dfy` | `SocketServer` | class `Server`, with the `rooms` Map, its insertion order and an outbox of emitted messages, and one method per socket event |
| `http_api.dfy` | `HttpApi` | class `RoomStore`, with the Redis rooms and an outbox of Pusher triggers, and one method per route; response bodies and status codes |
| `scenarios.dfy` | `Scenarios` | decisive steps of a column win and of a drawn game, played through the validation chain and the apply step |

The main invariants:

- **Game state.** `Engine.Consistent` holds for the initial state and is
  kept by every accepted move (`Moves.MovePreservesConsistency`). It says:
  - there are nine squares;
  - winner and winning line are set together, and only with a line on the
    board;
  - the loser never has a line;
  - win and draw exclude each other, and a draw means a full board without a
    line;
  - the mark counts differ by the amount the turn rule implies.
- **Registry.** `Rooms.RegistryOk`: every stored room sits under its own
  id, holds one or two players with distinct symbols, and holds a
  consistent game state. Every handler method of both classes keeps it.

Each handler method states its whole effect in terms of the room-level
functions:

- the new map of rooms;
- what was appended to the outbox;
- for the HTTP routes, the response body and status.

Behaviour of the code that a reader might not expect, and which the model
keeps:

- An `index` off the board reads `undefined`, which is not `null`.
  `IsOpen` is therefore false and the move is refused as "Square already
  taken". In `checkWinner`, by contrast, `undefined` is falsy like `null`
  (`Engine.At`).
- After a win the turn stays with the winner. The loser's next move
  therefore fails the turn check before the game-over check is reached
  (`Moves.AfterWinOpponentIsOutOfTurn`).
- **Joining in the HTTP variant.** The join route tests "room is full"
  before its reconnect check. A member of a two-player room who joins again
  gets 409, not its seat back. The reconnect answer, with no write and no
  duplicate entry, only happens in a one-player room.
- **Joining in the socket variant.** The `join-room` handler has no
  reconnect check at all. A socket can join the room it created and occupy
  both seats. A later `disconnect` removes only the first matching entry
  (`SocketServer.RejoinLeavesStaleSeat`).
- **`player-move` field checks.** The `player-move` route treats only an
  undefined `roomId` or `index` as missing, while `playerId` must be
  truthy. The other routes treat any falsy id as missing.
- `restart` and `restart-game` check no membership: any request naming an
  existing room resets it.
- `disconnect` visits the rooms in the Map's insertion order. A room that
  becomes empty is deleted during the iteration. `Server.order` records
  that order, so the loop, the notices it emits and the keys that survive
  are all determined.

`checkWinner` only reads the board. It is modelled as a function on a
value, so it cannot modify its argument.

## Model

| member | source | states |
|---|---|---|
| Engine.InitialGameState | src/lib/gameLogic.ts:3-9 | nine empty squares, X to move, no winner, no draw, no winning line |
| Engine.ScanFrom | src/lib/gameLogic.ts:17-23 | the scan from line `k` on reports a line exactly when one of the remaining lines matches; the line reported is the first matching one, with its mark as winner, and all three of its squares carry that mark; winner and line are absent together |
| Engine.CheckWinner | src/lib/gameLogic.ts:11-24 | a winner is reported exactly when some row, column or diagonal is uniformly X or uniformly O; the line is one of the eight, completed by the winner, and no earlier line in the fixed order matches; winner and line are absent together; an all-empty board has no winner |
| Engine.MatchesIffCompletes | src/lib/gameLogic.ts:19 | the truthiness-and-equality test on a line holds exactly when the line is completed by X or by O |
| Engine.CountPlace | server/socketServer.ts:130 | writing a mark into an empty square adds one to that mark's count and leaves the other count unchanged |
| Engine.CountEmpty | src/lib/gameLogic.ts:4 | a board of empty squares has no marks of either kind |
| Engine.InitialConsistent | src/lib/gameLogic.ts:3-9 | the initial state satisfies the reachable-state invariant |
| Engine.OneMarkAtMostHasALine | src/lib/gameLogic.ts:17-23 | in a reachable state X and O never both have a line, so at most one winner can be detected |
| Engine.NewLinesAreMovers | server/socketServer.ts:130-133 | on a board without lines, placing a mark can only complete lines of that mark |
| Engine.OtherMarkUnchanged | server/socketServer.ts:130 | placing a mark does not create a square of the other mark |
| Rooms.FindIndex | server/socketServer.ts:168 | `findIndex`: -1 exactly when the value is absent, otherwise the position of its first occurrence |
| Rooms.Find | src/app/api/game/player-move/route.ts:17 | `find` by player id: nothing exactly when no player has the id, otherwise the first player with it |
| Rooms.Lookup | server/socketServer.ts:78 | `rooms.get`: a room exactly when the id is stored, and then the stored one |
| Rooms.NewRoom | src/app/api/game/create-room/route.ts:19-24 | the created room has the given id, exactly one player with the given id as X, and the initial game state |
| Rooms.Seat | server/socketServer.ts:90-100 | seating appends exactly one player with the joiner's id and the symbol opposite to the first player's; earlier players and the game state are kept |
| Rooms.RemoveAt | src/app/api/game/leave-room/route.ts:14 | `splice(i, 1)` removes exactly the entry at `i`; the others keep their order, and the multiset of players loses just that one |
| Rooms.Unseat | src/app/api/game/leave-room/route.ts:14-20 | removing a player deletes the room exactly when it held one player; otherwise the room keeps its id and game state, and loses exactly that entry |
| Rooms.Restarted | src/app/api/game/restart/route.ts:13 | a restart installs the initial game state and keeps the id and the players |
| Rooms.RestartIdempotent | src/app/api/game/restart/route.ts:13 | two restarts leave the same room as one |
| Rooms.NewRoomOk | src/app/api/game/create-room/route.ts:19-24 | a created room keeps the room invariant |
| Rooms.SeatKeepsRoomOk | server/socketServer.ts:85-100 | seating a second player beside a lone one yields two players with distinct symbols, so a room never exceeds two players |
| Rooms.UnseatKeepsRoomOk | server/socketServer.ts:175-181 | a room that survives a departure keeps the room invariant |
| Rooms.RestartKeepsRoomOk | server/socketServer.ts:158 | a restarted room keeps the room invariant |
| Rooms.RegistryGet | server/socketServer.ts:18 | a stored room sits under its own id and keeps the room invariant |
| Rooms.RegistryStore | server/socketServer.ts:68 | storing a room that is valid under its own id keeps the registry invariant |
| Rooms.RegistryDelete | server/socketServer.ts:179 | deleting an entry keeps the registry invariant |
| Moves.ValidateMove | src/app/api/game/player-move/route.ts:13-22 | the ordered chain, each rejection exactly under its condition: room missing; not a member; not the mover's turn; square not open, including an index off the board; game over. The move is accepted exactly when every check passes, and then yields the mover's symbol, which is the current turn |
| Moves.ApplyMove | src/app/api/game/player-move/route.ts:25-38 | only square `index` changes, to the mover's mark. A winner is set exactly when the new board has a line; it is the winner check's verdict, with the line completed, the turn kept and no draw. A draw is set exactly when there is no winner and the board is full, with the turn kept. Otherwise the turn passes to the opponent |
| Moves.MovePreservesConsistency | server/socketServer.ts:129-147 | an accepted move keeps a reachable game state reachable |
| Moves.PlayMove | server/socketServer.ts:129-147 | an accepted move changes only the room's game state, as the apply step says |
| Moves.Step | src/app/api/game/player-move/route.ts:13-38 | the room after one move request: unchanged when the chain refuses it; when accepted, the mover's mark is in the square and the state is the apply step's result; the board changes exactly when the request is accepted; id and players never change. Both move handlers store exactly this room |
| Moves.PlayMoveKeepsRoomOk | src/app/api/game/player-move/route.ts:25-44 | a room stored after an accepted move keeps the room invariant |
| Moves.AfterWinOpponentIsOutOfTurn | src/app/api/game/player-move/route.ts:20-30 | after a win the loser's next request is refused as "Not your turn", whatever the square |
| Moves.OverRefusesEveryMove | server/socketServer.ts:120-127 | once the game is over every move request is refused |
| SocketServer.AfterDisconnect | server/socketServer.ts:168-181 | a room without the socket is kept as it is; otherwise its first entry with that socket id is removed, and the room disappears exactly when it had one player |
| SocketServer.Disconnected | server/socketServer.ts:167-183 | the room-by-room outcome: a room is still stored exactly when it survives `AfterDisconnect` |
| SocketServer.KeptMembers | server/socketServer.ts:167-183 | the surviving keys are exactly the visited keys whose rooms survive, listed without repeats |
| SocketServer.SweepStepIsAfterDisconnect | server/socketServer.ts:168-181 | one visit of the loop settles the visited room as `AfterDisconnect` says, touches no other room, sends a notice exactly when the room held the socket, and keeps the key exactly when the room survives |
| SocketServer.SweepKeysMembers | server/socketServer.ts:167-183 | visiting distinct keys in order: visited rooms end as `AfterDisconnect` says and unvisited rooms are untouched; the notices and the surviving keys are the room-by-room ones, in visiting order |
| SocketServer.SweepAllKeys | server/socketServer.ts:167-183 | visiting every key once yields exactly the room-by-room registry, notices and surviving keys |
| SocketServer.Server.constructor | server/socketServer.ts:18 | the server starts with no rooms and nothing emitted |
| SocketServer.Server.CreateRoom | server/socketServer.ts:49-74 | a taken id sends the sender "Room already exists" and changes nothing; otherwise the new one-player room is stored, appended to the iteration order and its initial state sent to the creator; the registry invariant is kept |
| SocketServer.Server.JoinRoom | server/socketServer.ts:77-106 | a missing room sends "Room not found" and a room with two players sends `room-full`, both changing nothing; otherwise the sender is seated with the opposite symbol and the state is broadcast to the room |
| SocketServer.Server.PlayerMove | server/socketServer.ts:109-151 | a refused move changes nothing and emits nothing; an accepted move stores the moved room and broadcasts exactly its new state; for a stored room the new registry holds `Moves.Step` of it |
| SocketServer.Server.RestartGame | server/socketServer.ts:154-160 | a missing room changes nothing; otherwise the game is reset with the players kept, and the initial state is broadcast |
| SocketServer.Server.Disconnect | server/socketServer.ts:163-184 | the new registry is the room-by-room outcome; the notices go, in insertion order, to every room that held the socket; the surviving keys keep their order; the registry invariant is kept |
| SocketServer.RejoinLeavesStaleSeat | server/socketServer.ts:77-100 | a socket that joins its own room holds both seats, and disconnecting removes only the first of them |
| HttpApi.Channel | src/app/api/game/create-room/route.ts:29 | the channel name is `private-game-` followed by the room id, and the id can be read back from it |
| HttpApi.ChannelInjective | src/app/api/game/player-move/route.ts:43 | distinct rooms trigger on distinct channels |
| HttpApi.RejectionReply | src/app/api/game/player-move/route.ts:14-22 | each refusal becomes an error response: 404 exactly for a missing room, 403 exactly for a non-member, 400 exactly for the three move errors |
| HttpApi.RejectionReplyInjective | src/app/api/game/player-move/route.ts:14-22 | distinct refusals give distinct responses |
| HttpApi.RoomStore.constructor | src/lib/redisClient.ts:11-21 | the store starts with no rooms and nothing triggered |
| HttpApi.RoomStore.CreateRoom | src/app/api/game/create-room/route.ts:7-32 | a missing id gives 400 and an existing room gives 409, both changing nothing; otherwise the one-player X room is stored, its initial state triggered on its channel, and X with that state returned |
| HttpApi.RoomStore.JoinRoom | src/app/api/game/join-room/route.ts:6-41 | 400 for a missing id, 404 for a missing room, and 409 for a room with two players even when the requester is a member, all changing nothing. A member of a one-player room gets its own symbol and the current state with nothing written. A newcomer is stored with the opposite symbol, which is the symbol returned; the unchanged state and a count of two are triggered |
| HttpApi.RoomStore.LeaveRoom | src/app/api/game/leave-room/route.ts:5-25 | 400 for a missing id. An absent room or a non-member succeeds with nothing changed. Otherwise the first entry with the id is removed: the room is deleted, with no trigger, when nobody is left, or else stored with a `player-disconnected` trigger |
| HttpApi.RoomStore.PlayerMove | src/app/api/game/player-move/route.ts:6-47 | 400 when `roomId` or `index` is undefined or `playerId` is falsy. A refused move returns the chain's error response and changes nothing. An accepted move stores the moved room and triggers that same new state. For a stored room the new store holds `Moves.Step` of it |
| HttpApi.RoomStore.Restart | src/app/api/game/restart/route.ts:6-20 | 400 for a missing id and 404 for a missing room, both changing nothing; otherwise the game is reset with the players kept and the initial state is triggered |
| Scenarios.TwoPlayerRoom | src/app/api/game/join-room/route.ts:29-33 | after a create and a join, P1 holds X and P2 holds O on a fresh game |
| Scenarios.OpeningMove | src/app/api/game/player-move/route.ts:25-36 | X's opening move at 0 marks the square and passes the turn to O |
| Scenarios.TakenSquareRefused | src/app/api/game/player-move/route.ts:19-21 | after the opening move, O at 0 or off the board is refused as taken, X is refused as out of turn, and a stranger as not in the room |
| Scenarios.ColumnBoard | src/lib/gameLogic.ts:12-21 | on the column-win board the first column is the first matching line, with X as winner |
| Scenarios.ColumnWin | src/app/api/game/player-move/route.ts:20-30 | X completing the first column wins on line (0, 3, 6) with the turn kept; O is then refused as out of turn, X as game over, and a restart brings back the initial state with the same players |
| Scenarios.DrawnBoard | src/lib/gameLogic.ts:17-23 | on the drawn board the winner check finds nothing and the board is full |
| Scenarios.FullBoardDraw | src/app/api/game/player-move/route.ts:31-34 | the move that fills the board without a line sets the draw, with no winner and the turn kept |

## Left out

- The user interface: the React pages and components, the room-id
  generation, and the client's opponent-connectivity heuristics.
- Transport:
  - the Express/HTTP server setup and `listen`;
  - `socket.join` and Socket.IO's own room membership, so `ToRoom` means
    "every socket in the room";
  - the delivery of emits and triggers, which appear only as entries
    appended to a ghost outbox.
- The Pusher channel authorisation route and the Firebase service worker.
  They are glue outside the coordination logic.
- The Redis client:
  - the `room:` key prefix, modelled as a map keyed by the room id itself
    (the prefix is injective, so nothing is lost);
  - the 24-hour expiry;
  - JSON serialisation;
  - store or broker failures.
- Concurrency. Each handler is one atomic step. The
  read-validate-write races between concurrent HTTP requests, where a
  second write can silently drop an accepted move, are not modelled. Nor is
  the parallel `Promise.all` of write and trigger.
- Request parsing:
  - A field of an HTTP request body is either absent (`None`) or a string.
    JSON values of other types, such as numbers, booleans or `null` in a
    field the handler only tests for `undefined`, are not modelled.
  - The socket handlers take their room id, player id and payload fields as
    plain strings. A missing or non-string argument, such as a
    `create-room` with no argument, which stores a room under the key
    `undefined`, is not modelled.
  - `index` is an integer. Other values are not modelled. A non-integer
    number or a non-numeric string reads `undefined` from the board, and
    `undefined !== null`, so the move is refused as "Square already taken"
    before anything is written. That is the same outcome as an off-board
    integer. A numeric string such as `"4"` reads and writes the same
    square as the integer 4.
- `console.log` output.
- The verbatim copy of `getInitialGameState` and `checkWinner` inside
  `server/socketServer.ts:20-43`. It is the same code as
  `src/lib/gameLogic.ts` and is modelled once.
- Scenarios: the example games are proved at their decisive steps, each
  starting from the literal board reached by the earlier moves. The chains
  of earlier moves themselves are not proved as one composition.
