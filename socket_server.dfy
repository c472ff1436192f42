/**
 * The Socket.IO relay: an in-process registry of rooms and the handlers of the
 * `create-room`, `join-room`, `player-move`, `restart-game` and `disconnect`
 * events. Emitted messages are recorded in a ghost outbox.
 */
module SocketServer {
  import opened Wrappers
  import opened Engine
  import opened Rooms
  import opened Moves

  datatype Message =
    | GameStateUpdate(state: GameState)
    | Error(text: string)
    | RoomFullNotice
    | PlayerDisconnected

  /** Where a message goes: one socket, every socket in a room, or a room but the sender. */
  datatype Emit =
    | ToSocket(socketId: string, msg: Message)
    | ToRoom(roomId: string, msg: Message)
    | ToRoomExcept(roomId: string, socketId: string, msg: Message)

  predicate Distinct(ks: seq<string>)
  {
    forall i, j | 0 <= i < j < |ks| :: ks[i] != ks[j]
  }

  /**
   * What `disconnect` does to one room holding the socket: its first entry
   * with that socket id is removed, and `None` means the room became empty
   * and is deleted. A room without the socket is kept as it is.
   */
  function AfterDisconnect(room: Room, socketId: string): (r: Option<Room>)
    ensures socketId !in SocketIds(room.players) ==> r == Some(room)
    ensures socketId in SocketIds(room.players) ==>
      var i := FindIndex(SocketIds(room.players), socketId);
      && room.players[i].socketId == socketId
      && (forall j | 0 <= j < i :: room.players[j].socketId != socketId)
      && r == Unseat(room, i)
    ensures r.Some? ==> r.value.id == room.id
  {
    var i := FindIndex(SocketIds(room.players), socketId);
    if i == -1 then Some(room)
    else
      assert forall j | 0 <= j < i :: SocketIds(room.players)[..i][j] == room.players[j].socketId;
      Unseat(room, i)
  }

  /** The registry after `disconnect`, room by room. */
  function Disconnected(rooms: map<string, Room>, socketId: string): (m: map<string, Room>)
    ensures forall k :: k in m <==> k in rooms && AfterDisconnect(rooms[k], socketId).Some?
  {
    map k | k in rooms && AfterDisconnect(rooms[k], socketId).Some? :: AfterDisconnect(rooms[k], socketId).value
  }

  /** The keys of `ks`, in order, whose rooms survive the disconnect. */
  function Kept(rooms: map<string, Room>, ks: seq<string>, socketId: string): seq<string>
  {
    if ks == [] then []
    else
      var k := ks[|ks| - 1];
      Kept(rooms, ks[..|ks| - 1], socketId)
        + (if k in rooms && AfterDisconnect(rooms[k], socketId).Some? then [k] else [])
  }

  /** The `player-disconnected` notices, one per room of `ks` that holds the socket, in order. */
  function Notices(rooms: map<string, Room>, ks: seq<string>, socketId: string): seq<Emit>
  {
    if ks == [] then []
    else
      var k := ks[|ks| - 1];
      Notices(rooms, ks[..|ks| - 1], socketId)
        + (if k in rooms && socketId in SocketIds(rooms[k].players)
           then [ToRoomExcept(k, socketId, PlayerDisconnected)] else [])
  }

  lemma {:induction false} KeptMembers(rooms: map<string, Room>, ks: seq<string>, socketId: string)
    ensures forall k :: k in Kept(rooms, ks, socketId) <==>
      k in ks && k in rooms && AfterDisconnect(rooms[k], socketId).Some?
    ensures Distinct(ks) ==> Distinct(Kept(rooms, ks, socketId))
  {
    if ks != [] {
      var init := ks[..|ks| - 1];
      KeptMembers(rooms, init, socketId);
      assert ks == init + [ks[|ks| - 1]];
    }
  }

  /**
   * What `disconnect` carries through `rooms.forEach`: the registry as it
   * stands, the notices sent so far and, in order, the visited keys still present.
   */
  datatype Sweep = Sweep(rooms: map<string, Room>, notices: seq<Emit>, kept: seq<string>)

  /** One visit of the `forEach`; an entry deleted before its turn is not visited. */
  function SweepStep(s: Sweep, k: string, socketId: string): Sweep
  {
    if k !in s.rooms then s
    else
      var room := s.rooms[k];
      var i := FindIndex(SocketIds(room.players), socketId);
      if i == -1 then s.(kept := s.kept + [k])
      else
        var notices := s.notices + [ToRoomExcept(k, socketId, PlayerDisconnected)];
        match Unseat(room, i)
        case None => Sweep(s.rooms - {k}, notices, s.kept)
        case Some(r) => Sweep(s.rooms[k := r], notices, s.kept + [k])
  }

  /** The `forEach` over the keys `ks`, in order, from `start`. */
  function SweepKeys(start: Sweep, ks: seq<string>, socketId: string): Sweep
  {
    if ks == [] then start
    else SweepStep(SweepKeys(start, ks[..|ks| - 1], socketId), ks[|ks| - 1], socketId)
  }

  lemma SweepKeysNext(start: Sweep, ks: seq<string>, i: nat, socketId: string)
    requires i < |ks|
    ensures SweepKeys(start, ks[..i + 1], socketId) == SweepStep(SweepKeys(start, ks[..i], socketId), ks[i], socketId)
  {
    assert ks[..i + 1][..i] == ks[..i];
  }

  /** One visit settles the visited room as `AfterDisconnect` says and touches no other. */
  lemma SweepStepIsAfterDisconnect(s: Sweep, k: string, socketId: string)
    ensures var t := SweepStep(s, k, socketId);
      && (k !in s.rooms ==> t == s)
      && (k in s.rooms ==>
            var after := AfterDisconnect(s.rooms[k], socketId);
            && (k in t.rooms <==> after.Some?)
            && (k in t.rooms ==> t.rooms[k] == after.value)
            && t.kept == s.kept + (if after.Some? then [k] else [])
            && t.notices == s.notices
                 + (if socketId in SocketIds(s.rooms[k].players)
                    then [ToRoomExcept(k, socketId, PlayerDisconnected)] else []))
      && forall k' | k' != k :: (k' in t.rooms <==> k' in s.rooms) && (k' in t.rooms ==> t.rooms[k'] == s.rooms[k'])
  {
    if k in s.rooms {
      var room := s.rooms[k];
      var i := FindIndex(SocketIds(room.players), socketId);
      if i != -1 {
        var after := Unseat(room, i);
        assert AfterDisconnect(room, socketId) == after;
      }
    }
  }

  /**
   * Visiting distinct keys one after another, with `sent` already in the
   * outbox, removes exactly the visited rooms that empty, settles every other
   * visited room as `AfterDisconnect` says, leaves the unvisited rooms as they
   * were, and appends the notices and keeps the keys the room-by-room view predicts.
   */
  lemma {:induction false} SweepKeysMembers(rooms: map<string, Room>, sent: seq<Emit>, ks: seq<string>, socketId: string)
    requires Distinct(ks)
    ensures var s := SweepKeys(Sweep(rooms, sent, []), ks, socketId);
      forall k :: k in s.rooms <==> k in rooms && (k in ks ==> AfterDisconnect(rooms[k], socketId).Some?)
    ensures var s := SweepKeys(Sweep(rooms, sent, []), ks, socketId);
      forall k | k in s.rooms :: s.rooms[k] == if k in ks then AfterDisconnect(rooms[k], socketId).value else rooms[k]
    ensures var s := SweepKeys(Sweep(rooms, sent, []), ks, socketId);
      s.kept == Kept(rooms, ks, socketId) && s.notices == sent + Notices(rooms, ks, socketId)
  {
    if ks != [] {
      var init, k := ks[..|ks| - 1], ks[|ks| - 1];
      assert ks == init + [k];
      assert Distinct(init);
      assert k !in init;
      SweepKeysMembers(rooms, sent, init, socketId);
      var s := SweepKeys(Sweep(rooms, sent, []), init, socketId);
      SweepStepIsAfterDisconnect(s, k, socketId);
      assert k in s.rooms <==> k in rooms;
      assert k in s.rooms ==> s.rooms[k] == rooms[k];
    }
  }

  /** Visiting every key once yields the room-by-room registry. */
  lemma SweepAllKeys(rooms: map<string, Room>, sent: seq<Emit>, ks: seq<string>, socketId: string)
    requires Distinct(ks) && forall k :: k in rooms <==> k in ks
    ensures var s := SweepKeys(Sweep(rooms, sent, []), ks, socketId);
      && s.rooms == Disconnected(rooms, socketId)
      && s.kept == Kept(rooms, ks, socketId)
      && s.notices == sent + Notices(rooms, ks, socketId)
  {
    SweepKeysMembers(rooms, sent, ks, socketId);
  }

  class Server {
    /** The `rooms` Map. */
    var rooms: map<string, Room>
    /** The Map's keys in insertion order, the order `rooms.forEach` visits them. */
    var order: seq<string>
    /** Every message emitted so far. */
    ghost var outbox: seq<Emit>

    /**
     * Every stored room sits under its own id and keeps the room invariant;
     * `order` lists each key exactly once.
     */
    ghost predicate Valid()
      reads this
    {
      && RegistryOk(rooms)
      && (forall k :: k in rooms <==> k in order)
      && Distinct(order)
    }

    constructor ()
      ensures Valid()
      ensures rooms == map[] && order == [] && outbox == []
    {
      rooms, order, outbox := map[], [], [];
    }

    /** `create-room`: refused with an error to the sender when the id is taken. */
    method CreateRoom(socketId: string, roomId: string)
      requires Valid()
      modifies this
      ensures Valid()
      ensures roomId in old(rooms) ==>
        && rooms == old(rooms) && order == old(order)
        && outbox == old(outbox) + [ToSocket(socketId, Error("Room already exists"))]
      ensures roomId !in old(rooms) ==>
        && rooms == old(rooms)[roomId := NewRoom(roomId, socketId)]
        && order == old(order) + [roomId]
        && outbox == old(outbox) + [ToSocket(socketId, GameStateUpdate(InitialGameState()))]
    {
      if roomId in rooms {
        outbox := outbox + [ToSocket(socketId, Error("Room already exists"))];
        return;
      }
      var room := NewRoom(roomId, socketId);
      NewRoomOk(roomId, socketId);
      RegistryStore(rooms, roomId, room);
      rooms := rooms[roomId := room];
      order := order + [roomId];
      outbox := outbox + [ToSocket(socketId, GameStateUpdate(room.gameState))];
    }

    /**
     * `join-room`: refused when the room is absent or already holds two
     * players; otherwise the sender is seated with the opposite symbol of
     * the first player. There is no check that the sender already sits in
     * the room.
     */
    method JoinRoom(socketId: string, roomId: string)
      requires Valid()
      modifies this
      ensures Valid() && order == old(order)
      ensures roomId !in old(rooms) ==>
        rooms == old(rooms) && outbox == old(outbox) + [ToSocket(socketId, Error("Room not found"))]
      ensures roomId in old(rooms) && |old(rooms)[roomId].players| >= 2 ==>
        rooms == old(rooms) && outbox == old(outbox) + [ToSocket(socketId, RoomFullNotice)]
      ensures roomId in old(rooms) && |old(rooms)[roomId].players| == 1 ==>
        && rooms == old(rooms)[roomId := Seat(old(rooms)[roomId], socketId)]
        && outbox == old(outbox) + [ToRoom(roomId, GameStateUpdate(old(rooms)[roomId].gameState))]
    {
      if roomId !in rooms {
        outbox := outbox + [ToSocket(socketId, Error("Room not found"))];
        return;
      }
      var room := rooms[roomId];
      RegistryGet(rooms, roomId);
      if |room.players| >= 2 {
        outbox := outbox + [ToSocket(socketId, RoomFullNotice)];
        return;
      }
      SeatKeepsRoomOk(room, socketId);
      room := Seat(room, socketId);
      RegistryStore(rooms, roomId, room);
      rooms := rooms[roomId := room];
      outbox := outbox + [ToRoom(roomId, GameStateUpdate(room.gameState))];
    }

    /** `player-move`: a refused move is dropped silently; an accepted one is applied and broadcast. */
    method PlayerMove(roomId: string, index: int, playerId: string)
      requires Valid()
      modifies this
      ensures Valid() && order == old(order)
      ensures ValidateMove(Lookup(old(rooms), roomId), playerId, index).Err? ==>
        rooms == old(rooms) && outbox == old(outbox)
      ensures ValidateMove(Lookup(old(rooms), roomId), playerId, index).Ok? ==>
        var room := PlayMove(old(rooms)[roomId], old(rooms)[roomId].gameState.currentTurn, index);
        && rooms == old(rooms)[roomId := room]
        && outbox == old(outbox) + [ToRoom(roomId, GameStateUpdate(room.gameState))]
      ensures roomId in old(rooms) ==> rooms == old(rooms)[roomId := Step(old(rooms)[roomId], playerId, index)]
    {
      var verdict := ValidateMove(Lookup(rooms, roomId), playerId, index);
      if verdict.Err? {
        return;
      }
      var room := rooms[roomId];
      RegistryGet(rooms, roomId);
      PlayMoveKeepsRoomOk(room, index);
      room := PlayMove(room, verdict.value, index);
      RegistryStore(rooms, roomId, room);
      rooms := rooms[roomId := room];
      outbox := outbox + [ToRoom(roomId, GameStateUpdate(room.gameState))];
    }

    /** `restart-game`: any sender naming an existing room resets its game. */
    method RestartGame(roomId: string)
      requires Valid()
      modifies this
      ensures Valid() && order == old(order)
      ensures roomId !in old(rooms) ==> rooms == old(rooms) && outbox == old(outbox)
      ensures roomId in old(rooms) ==>
        && rooms == old(rooms)[roomId := Restarted(old(rooms)[roomId])]
        && outbox == old(outbox) + [ToRoom(roomId, GameStateUpdate(InitialGameState()))]
    {
      if roomId !in rooms {
        return;
      }
      RegistryGet(rooms, roomId);
      RestartKeepsRoomOk(rooms[roomId]);
      var room := Restarted(rooms[roomId]);
      RegistryStore(rooms, roomId, room);
      rooms := rooms[roomId := room];
      outbox := outbox + [ToRoom(roomId, GameStateUpdate(room.gameState))];
    }

    /**
     * `disconnect`: every room is visited in insertion order; a room holding
     * the socket is told (all but the sender), loses that entry, and is
     * deleted once empty. Rooms without the socket are untouched.
     */
    method Disconnect(socketId: string)
      requires Valid()
      modifies this
      ensures Valid()
      ensures rooms == Disconnected(old(rooms), socketId)
      ensures order == Kept(old(rooms), old(order), socketId)
      ensures outbox == old(outbox) + Notices(old(rooms), old(order), socketId)
    {
      var keys := order;
      var kept: seq<string> := [];
      var i := 0;
      while i < |keys|
        invariant 0 <= i <= |keys| && keys == old(order)
        invariant SweepKeys(Sweep(old(rooms), old(outbox), []), keys[..i], socketId) == Sweep(rooms, outbox, kept)
        invariant RegistryOk(rooms)
      {
        var roomId := keys[i];
        SweepKeysNext(Sweep(old(rooms), old(outbox), []), keys, i, socketId);
        if roomId in rooms {
          var room := rooms[roomId];
          var playerIndex := FindIndex(SocketIds(room.players), socketId);
          if playerIndex == -1 {
            kept := kept + [roomId];
          } else {
            outbox := outbox + [ToRoomExcept(roomId, socketId, PlayerDisconnected)];
            RegistryGet(rooms, roomId);
            UnseatKeepsRoomOk(room, playerIndex);
            var rest := Unseat(room, playerIndex);
            if rest.None? {
              RegistryDelete(rooms, roomId);
              rooms := rooms - {roomId};
            } else {
              RegistryStore(rooms, roomId, rest.value);
              rooms := rooms[roomId := rest.value];
              kept := kept + [roomId];
            }
          }
        }
        i := i + 1;
      }
      assert keys[..i] == keys;
      SweepAllKeys(old(rooms), old(outbox), keys, socketId);
      KeptMembers(old(rooms), keys, socketId);
      order := kept;
    }
  }

  /**
   * Nothing stops a socket from joining the room it created: the room then
   * holds two entries with the same id, and a later disconnect removes only
   * the first of them, so the room is kept with a seat nobody holds.
   */
  lemma RejoinLeavesStaleSeat(roomId: string, socketId: string)
    ensures var room := Seat(NewRoom(roomId, socketId), socketId);
      && room.players == [Player(socketId, X, socketId), Player(socketId, O, socketId)]
      && AfterDisconnect(room, socketId) == Some(room.(players := [Player(socketId, O, socketId)]))
  {
    var room := Seat(NewRoom(roomId, socketId), socketId);
    assert SocketIds(room.players)[0] == socketId;
    assert FindIndex(SocketIds(room.players), socketId) == 0;
    assert RemoveAt(room.players, 0) == [Player(socketId, O, socketId)];
  }
}
