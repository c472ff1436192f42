/**
 * The broker-backed variant: the five POST routes under `api/game`, each a
 * read-validate-write step against the Redis keyspace of rooms, followed by
 * Pusher triggers on the room's private channel. The keyspace is a map from
 * room id to room; the triggers are recorded in a ghost outbox.
 */
module HttpApi {
  import opened Wrappers
  import opened Engine
  import opened Rooms
  import opened Moves

  /** The JSON body of a response. */
  datatype Reply =
    | Failure(status: nat, error: string)
    /** `{ success: true }` */
    | Done
    /** `{ success: true, symbol, gameState }` */
    | Seated(symbol: Symbol, gameState: GameState)

  datatype Event =
    | GameStateUpdate(state: GameState)
    | PlayerJoined(playersCount: nat)
    | PlayerDisconnected

  datatype Trigger = Trigger(channel: string, event: Event)

  const ChannelPrefix: string := "private-game-"

  /** The Pusher channel of a room; distinct rooms have distinct channels. */
  function Channel(roomId: string): (c: string)
    ensures |c| == |ChannelPrefix| + |roomId|
    ensures c[..|ChannelPrefix|] == ChannelPrefix && c[|ChannelPrefix|..] == roomId
  {
    ChannelPrefix + roomId
  }

  lemma ChannelInjective(a: string, b: string)
    ensures Channel(a) == Channel(b) ==> a == b
  {
    if Channel(a) == Channel(b) {
      assert a == Channel(a)[|ChannelPrefix|..];
    }
  }

  /** A body field as the `!field` test sees it: absent, `null` or the empty string is missing. */
  predicate Present(v: Option<string>)
  {
    v.Some? && v.value != ""
  }

  /**
   * The response to a refused move: 404 for a missing room, 403 for a
   * non-member, 400 for the three move errors; each with its own text.
   */
  function RejectionReply(e: Rejection): (r: Reply)
    ensures r.Failure?
    ensures r.status == 404 <==> e == RoomNotFound
    ensures r.status == 403 <==> e == PlayerNotInRoom
    ensures r.status == 400 <==> e in {NotYourTurn, SquareTaken, GameIsOver}
  {
    match e
    case RoomNotFound => Failure(404, "Room not found")
    case PlayerNotInRoom => Failure(403, "Player not in room")
    case NotYourTurn => Failure(400, "Not your turn")
    case SquareTaken => Failure(400, "Square already taken")
    case GameIsOver => Failure(400, "Game is over")
  }

  /** Distinct refusals get distinct responses. */
  lemma RejectionReplyInjective(e: Rejection, e': Rejection)
    ensures RejectionReply(e) == RejectionReply(e') ==> e == e'
  {
    assert RejectionReply(e).error == RejectionReply(e').error ==> e == e';
  }

  class RoomStore {
    /** The rooms stored under `room:<id>`, keyed by id. */
    var rooms: map<string, Room>
    /** Every Pusher trigger sent so far. */
    ghost var outbox: seq<Trigger>

    /** Every stored room sits under its own id and keeps the room invariant. */
    ghost predicate Valid()
      reads this
    {
      RegistryOk(rooms)
    }

    constructor ()
      ensures Valid() && rooms == map[] && outbox == []
    {
      rooms, outbox := map[], [];
    }

    /**
     * `create-room`: both ids required; an existing room is never overwritten;
     * otherwise the creator is stored alone as X on a fresh game.
     */
    method CreateRoom(roomId: Option<string>, playerId: Option<string>) returns (reply: Reply)
      requires Valid()
      modifies this
      ensures Valid()
      ensures !Present(roomId) || !Present(playerId) ==>
        && reply == Failure(400, "Missing roomId or playerId")
        && rooms == old(rooms) && outbox == old(outbox)
      ensures Present(roomId) && Present(playerId) && roomId.value in old(rooms) ==>
        && reply == Failure(409, "Room already exists")
        && rooms == old(rooms) && outbox == old(outbox)
      ensures Present(roomId) && Present(playerId) && roomId.value !in old(rooms) ==>
        && rooms == old(rooms)[roomId.value := NewRoom(roomId.value, playerId.value)]
        && outbox == old(outbox) + [Trigger(Channel(roomId.value), GameStateUpdate(InitialGameState()))]
        && reply == Seated(X, InitialGameState())
    {
      if !Present(roomId) || !Present(playerId) {
        return Failure(400, "Missing roomId or playerId");
      }
      var id := roomId.value;
      if Lookup(rooms, id).Some? {
        return Failure(409, "Room already exists");
      }
      var room := NewRoom(id, playerId.value);
      NewRoomOk(id, playerId.value);
      RegistryStore(rooms, id, room);
      rooms := rooms[id := room];
      outbox := outbox + [Trigger(Channel(id), GameStateUpdate(room.gameState))];
      reply := Seated(X, room.gameState);
    }

    /**
     * `join-room`: the full check comes before the reconnect check, so even a
     * member of a full room is refused; a member of a one-player room gets its
     * own seat back with nothing written; a newcomer takes the other symbol.
     */
    method JoinRoom(roomId: Option<string>, playerId: Option<string>) returns (reply: Reply)
      requires Valid()
      modifies this
      ensures Valid()
      ensures !Present(roomId) || !Present(playerId) ==>
        && reply == Failure(400, "Missing roomId or playerId")
        && rooms == old(rooms) && outbox == old(outbox)
      ensures Present(roomId) && Present(playerId) && roomId.value !in old(rooms) ==>
        && reply == Failure(404, "Room not found")
        && rooms == old(rooms) && outbox == old(outbox)
      ensures Present(roomId) && Present(playerId) && roomId.value in old(rooms) ==>
        var room := old(rooms)[roomId.value];
        var seat := Find(room.players, playerId.value);
        && (|room.players| >= 2 ==>
              && reply == Failure(409, "Room is full")
              && rooms == old(rooms) && outbox == old(outbox))
        && (|room.players| == 1 && seat.Some? ==>
              && reply == Seated(seat.value.symbol, room.gameState)
              && rooms == old(rooms) && outbox == old(outbox))
        && (|room.players| == 1 && seat.None? ==>
              var joined := Seat(room, playerId.value);
              && rooms == old(rooms)[roomId.value := joined]
              && outbox == old(outbox) + [
                   Trigger(Channel(roomId.value), GameStateUpdate(room.gameState)),
                   Trigger(Channel(roomId.value), PlayerJoined(2))]
              && reply == Seated(Opponent(room.players[0].symbol), room.gameState)
              && joined.players[1] == Player(playerId.value, reply.symbol, playerId.value))
    {
      if !Present(roomId) || !Present(playerId) {
        return Failure(400, "Missing roomId or playerId");
      }
      var id := roomId.value;
      if Lookup(rooms, id).None? {
        return Failure(404, "Room not found");
      }
      var room := rooms[id];
      RegistryGet(rooms, id);
      if |room.players| >= 2 {
        return Failure(409, "Room is full");
      }
      var alreadyIn := Find(room.players, playerId.value);
      if alreadyIn.Some? {
        return Seated(alreadyIn.value.symbol, room.gameState);
      }
      var newSymbol := Opponent(room.players[0].symbol);
      SeatKeepsRoomOk(room, playerId.value);
      room := Seat(room, playerId.value);
      RegistryStore(rooms, id, room);
      rooms := rooms[id := room];
      outbox := outbox + [Trigger(Channel(id), GameStateUpdate(room.gameState))];
      outbox := outbox + [Trigger(Channel(id), PlayerJoined(|room.players|))];
      reply := Seated(newSymbol, room.gameState);
    }

    /**
     * `leave-room`: both ids required; leaving an absent room or a room one is
     * not in succeeds with nothing changed; otherwise the first entry with that
     * id is removed and the room is deleted, silently, once empty.
     */
    method LeaveRoom(roomId: Option<string>, playerId: Option<string>) returns (reply: Reply)
      requires Valid()
      modifies this
      ensures Valid()
      ensures !Present(roomId) || !Present(playerId) ==>
        && reply == Failure(400, "Missing params")
        && rooms == old(rooms) && outbox == old(outbox)
      ensures Present(roomId) && Present(playerId) ==> reply == Done
      ensures (&& Present(roomId) && Present(playerId)
               && (roomId.value !in old(rooms) || playerId.value !in Ids(old(rooms)[roomId.value].players))) ==>
        rooms == old(rooms) && outbox == old(outbox)
      ensures (&& Present(roomId) && Present(playerId)
               && roomId.value in old(rooms) && playerId.value in Ids(old(rooms)[roomId.value].players)) ==>
        var room := old(rooms)[roomId.value];
        var i := FindIndex(Ids(room.players), playerId.value);
        && room.players[i].id == playerId.value
        && match Unseat(room, i)
           case None =>
             rooms == old(rooms) - {roomId.value} && outbox == old(outbox)
           case Some(rest) =>
             && rooms == old(rooms)[roomId.value := rest]
             && outbox == old(outbox) + [Trigger(Channel(roomId.value), PlayerDisconnected)]
    {
      if !Present(roomId) || !Present(playerId) {
        return Failure(400, "Missing params");
      }
      var id := roomId.value;
      reply := Done;
      if Lookup(rooms, id).None? {
        return;
      }
      var room := rooms[id];
      var playerIndex := FindIndex(Ids(room.players), playerId.value);
      if playerIndex != -1 {
        RegistryGet(rooms, id);
        UnseatKeepsRoomOk(room, playerIndex);
        var rest := Unseat(room, playerIndex);
        if rest.None? {
          RegistryDelete(rooms, id);
          rooms := rooms - {id};
        } else {
          RegistryStore(rooms, id, rest.value);
          rooms := rooms[id := rest.value];
          outbox := outbox + [Trigger(Channel(id), PlayerDisconnected)];
        }
      }
    }

    /**
     * `player-move`: only `roomId` and `index` being undefined, or `playerId`
     * being falsy, count as missing; then the validation chain decides the
     * error, and an accepted move is stored and broadcast as one state.
     */
    method PlayerMove(roomId: Option<string>, index: Option<int>, playerId: Option<string>)
      returns (reply: Reply)
      requires Valid()
      modifies this
      ensures Valid()
      ensures roomId.None? || index.None? || !Present(playerId) ==>
        && reply == Failure(400, "Missing parameters")
        && rooms == old(rooms) && outbox == old(outbox)
      ensures roomId.Some? && index.Some? && Present(playerId) ==>
        var verdict := ValidateMove(Lookup(old(rooms), roomId.value), playerId.value, index.value);
        && (verdict.Err? ==>
              && reply == RejectionReply(verdict.error)
              && rooms == old(rooms) && outbox == old(outbox))
        && (verdict.Ok? ==>
              var room := old(rooms)[roomId.value];
              var moved := PlayMove(room, room.gameState.currentTurn, index.value);
              && rooms == old(rooms)[roomId.value := moved]
              && outbox == old(outbox) + [Trigger(Channel(roomId.value), GameStateUpdate(moved.gameState))]
              && reply == Done)
      ensures roomId.Some? && index.Some? && Present(playerId) && roomId.value in old(rooms) ==>
        rooms == old(rooms)[roomId.value := Step(old(rooms)[roomId.value], playerId.value, index.value)]
    {
      if roomId.None? || index.None? || !Present(playerId) {
        return Failure(400, "Missing parameters");
      }
      var id := roomId.value;
      var verdict := ValidateMove(Lookup(rooms, id), playerId.value, index.value);
      if verdict.Err? {
        return RejectionReply(verdict.error);
      }
      var room := rooms[id];
      RegistryGet(rooms, id);
      PlayMoveKeepsRoomOk(room, index.value);
      room := PlayMove(room, verdict.value, index.value);
      RegistryStore(rooms, id, room);
      rooms := rooms[id := room];
      outbox := outbox + [Trigger(Channel(id), GameStateUpdate(room.gameState))];
      reply := Done;
    }

    /** `restart`: any request naming an existing room resets its game; players are kept. */
    method Restart(roomId: Option<string>) returns (reply: Reply)
      requires Valid()
      modifies this
      ensures Valid()
      ensures !Present(roomId) ==>
        && reply == Failure(400, "Missing roomId")
        && rooms == old(rooms) && outbox == old(outbox)
      ensures Present(roomId) && roomId.value !in old(rooms) ==>
        && reply == Failure(404, "Room not found")
        && rooms == old(rooms) && outbox == old(outbox)
      ensures Present(roomId) && roomId.value in old(rooms) ==>
        && rooms == old(rooms)[roomId.value := Restarted(old(rooms)[roomId.value])]
        && outbox == old(outbox) + [Trigger(Channel(roomId.value), GameStateUpdate(InitialGameState()))]
        && reply == Done
    {
      if !Present(roomId) {
        return Failure(400, "Missing roomId");
      }
      var id := roomId.value;
      if Lookup(rooms, id).None? {
        return Failure(404, "Room not found");
      }
      RegistryGet(rooms, id);
      RestartKeepsRoomOk(rooms[id]);
      var room := Restarted(rooms[id]);
      RegistryStore(rooms, id, room);
      rooms := rooms[id := room];
      outbox := outbox + [Trigger(Channel(id), GameStateUpdate(room.gameState))];
      reply := Done;
    }
  }
}
