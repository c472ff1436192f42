/**
 * Players and rooms, and the room-level steps that the handlers of both the
 * socket server and the HTTP routes perform on a room record: creating it,
 * seating a second player, removing a player, restarting the game.
 */
module Rooms {
  import opened Wrappers
  import opened Engine

  /** A seat in a room; `socketId` is always set equal to `id` by both variants. */
  datatype Player = Player(id: string, symbol: Symbol, socketId: string)

  datatype Room = Room(id: string, players: seq<Player>, gameState: GameState)

  /**
   * The invariant of every stored room: one or two players whose symbols
   * differ, and a game state reachable by accepted moves.
   */
  ghost predicate RoomOk(room: Room)
  {
    && 1 <= |room.players| <= 2
    && (|room.players| == 2 ==> room.players[0].symbol != room.players[1].symbol)
    && Consistent(room.gameState)
  }

  /** `xs.findIndex(y => y === x)`: the first position holding `x`, or -1. */
  function FindIndex(xs: seq<string>, x: string): (r: int)
    ensures -1 <= r < |xs|
    ensures r == -1 <==> x !in xs
    ensures 0 <= r ==> xs[r] == x && x !in xs[..r]
  {
    if xs == [] then -1
    else if xs[0] == x then 0
    else
      var r := FindIndex(xs[1..], x);
      assert r >= 0 ==> xs[1..][..r] == xs[1..r + 1];
      if r == -1 then -1 else r + 1
  }

  function Ids(players: seq<Player>): (ids: seq<string>)
    ensures |ids| == |players| && forall j | 0 <= j < |players| :: ids[j] == players[j].id
  {
    seq(|players|, j requires 0 <= j < |players| => players[j].id)
  }

  function SocketIds(players: seq<Player>): (ids: seq<string>)
    ensures |ids| == |players| && forall j | 0 <= j < |players| :: ids[j] == players[j].socketId
  {
    seq(|players|, j requires 0 <= j < |players| => players[j].socketId)
  }

  /** `players.find(p => p.id === id)`. */
  function Find(players: seq<Player>, id: string): (r: Option<Player>)
    ensures r.None? <==> forall j | 0 <= j < |players| :: players[j].id != id
    ensures r.Some? ==> exists j | 0 <= j < |players| ::
      players[j] == r.value && r.value.id == id && forall k | 0 <= k < j :: players[k].id != id
  {
    var i := FindIndex(Ids(players), id);
    assert forall k | 0 <= k < i :: Ids(players)[..i][k] == players[k].id;
    if i == -1 then None else Some(players[i])
  }

  /** `rooms.get(id)` on the registry: the stored room or nothing. */
  function Lookup(rooms: map<string, Room>, roomId: string): (r: Option<Room>)
    ensures r.Some? <==> roomId in rooms
    ensures r.Some? ==> r.value == rooms[roomId]
  {
    if roomId in rooms then Some(rooms[roomId]) else None
  }

  /** The room a create request stores: the creator alone, as X, on a fresh game. */
  function NewRoom(roomId: string, playerId: string): (r: Room)
    ensures r.id == roomId
    ensures r.players == [Player(playerId, X, playerId)]
    ensures r.gameState == InitialGameState()
  {
    Room(roomId, [Player(playerId, X, playerId)], InitialGameState())
  }

  /**
   * The room after a new player is seated: appended last, with the symbol
   * opposite to the first player's; the game state is not touched.
   */
  function Seat(room: Room, playerId: string): (r: Room)
    requires |room.players| >= 1
    ensures r.id == room.id && r.gameState == room.gameState
    ensures |r.players| == |room.players| + 1
    ensures r.players[..|room.players|] == room.players
    ensures r.players[|room.players|] == Player(playerId, Opponent(room.players[0].symbol), playerId)
  {
    var symbol := Opponent(room.players[0].symbol);
    var r := room.(players := room.players + [Player(playerId, symbol, playerId)]);
    assert r.players[..|room.players|] == room.players;
    r
  }

  /** `players.splice(i, 1)`: the entry at `i` removed, the rest kept in order. */
  function RemoveAt(players: seq<Player>, i: nat): (r: seq<Player>)
    requires i < |players|
    ensures |r| == |players| - 1
    ensures forall j | 0 <= j < |r| :: r[j] == if j < i then players[j] else players[j + 1]
    ensures multiset(r) + multiset{players[i]} == multiset(players)
  {
    assert players == players[..i] + [players[i]] + players[i + 1..];
    players[..i] + players[i + 1..]
  }

  /**
   * The room after the player at `i` leaves: `None` when nobody is left (the
   * room is deleted), otherwise the shortened room with its game state kept.
   */
  function Unseat(room: Room, i: nat): (r: Option<Room>)
    requires i < |room.players|
    ensures r.None? <==> |room.players| == 1
    ensures r.Some? ==>
      && r.value.id == room.id
      && r.value.gameState == room.gameState
      && r.value.players == RemoveAt(room.players, i)
  {
    var rest := RemoveAt(room.players, i);
    if |rest| == 0 then None else Some(room.(players := rest))
  }

  /** The room after a restart: a fresh game, the same players with the same symbols. */
  function Restarted(room: Room): (r: Room)
    ensures r.id == room.id && r.players == room.players
    ensures r.gameState == InitialGameState()
  {
    room.(gameState := InitialGameState())
  }

  lemma RestartIdempotent(room: Room)
    ensures Restarted(Restarted(room)) == Restarted(room)
  {
  }

  /** A created room keeps the room invariant. */
  lemma NewRoomOk(roomId: string, playerId: string)
    ensures RoomOk(NewRoom(roomId, playerId))
  {
    InitialConsistent();
  }

  /** Seating a second player beside a lone one keeps the room invariant. */
  lemma SeatKeepsRoomOk(room: Room, playerId: string)
    requires RoomOk(room) && |room.players| == 1
    ensures RoomOk(Seat(room, playerId))
  {
  }

  /** A room that survives a departure keeps the room invariant. */
  lemma UnseatKeepsRoomOk(room: Room, i: nat)
    requires RoomOk(room) && i < |room.players|
    ensures Unseat(room, i).Some? ==> RoomOk(Unseat(room, i).value)
  {
  }

  lemma RestartKeepsRoomOk(room: Room)
    requires RoomOk(room)
    ensures RoomOk(Restarted(room))
  {
    InitialConsistent();
  }

  /** One entry of a registry: stored under its own id and keeping the room invariant. */
  ghost predicate EntryOk(rooms: map<string, Room>, k: string)
  {
    k in rooms ==> rooms[k].id == k && RoomOk(rooms[k])
  }

  /**
   * The registry invariant: every stored room sits under its own id, has one
   * or two players with distinct symbols and a reachable game state.
   */
  ghost predicate RegistryOk(rooms: map<string, Room>)
  {
    forall k {:trigger EntryOk(rooms, k)} :: EntryOk(rooms, k)
  }

  lemma RegistryGet(rooms: map<string, Room>, k: string)
    requires RegistryOk(rooms) && k in rooms
    ensures rooms[k].id == k && RoomOk(rooms[k])
  {
    assert EntryOk(rooms, k);
  }

  lemma RegistryStore(rooms: map<string, Room>, k: string, room: Room)
    requires RegistryOk(rooms) && room.id == k && RoomOk(room)
    ensures RegistryOk(rooms[k := room])
  {
    var stored := rooms[k := room];
    forall k' ensures EntryOk(stored, k') {
      assert EntryOk(rooms, k');
    }
  }

  lemma RegistryDelete(rooms: map<string, Room>, k: string)
    requires RegistryOk(rooms)
    ensures RegistryOk(rooms - {k})
  {
    forall k' ensures EntryOk(rooms - {k}, k') {
      assert EntryOk(rooms, k');
    }
  }
}
