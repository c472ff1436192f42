/**
 * The move transition shared by the socket server's `player-move` handler and
 * the HTTP move route: the ordered validation chain and the apply-move step.
 */
module Moves {
  import opened Wrappers
  import opened Engine
  import opened Rooms

  /** Why a move is refused, in the order the checks are made. */
  datatype Rejection = RoomNotFound | PlayerNotInRoom | NotYourTurn | SquareTaken | GameIsOver

  /**
   * `board[index] === null`. An index off the board reads `undefined`, which is
   * not `null`, so such a move is refused as a taken square.
   */
  predicate IsOpen(board: Board, index: int)
  {
    0 <= index < |board| && board[index] == Empty
  }

  /**
   * The validation chain: room exists, requester is a member (the first entry
   * with its id), it is that member's turn, the square is open, the game is
   * not over. The first check that fails decides the rejection; on success
   * the result is the mover's symbol.
   */
  function ValidateMove(room: Option<Room>, playerId: string, index: int): (r: Result<Symbol, Rejection>)
    ensures r == Err(RoomNotFound) <==> room.None?
    ensures room.Some? ==>
      var g, p := room.value.gameState, Find(room.value.players, playerId);
      && (r == Err(PlayerNotInRoom) <==> p.None?)
      && (r == Err(NotYourTurn) <==> p.Some? && p.value.symbol != g.currentTurn)
      && (r == Err(SquareTaken) <==> p.Some? && p.value.symbol == g.currentTurn && !IsOpen(g.board, index))
      && (r == Err(GameIsOver) <==>
            p.Some? && p.value.symbol == g.currentTurn && IsOpen(g.board, index) && Over(g))
      && (r.Ok? <==>
            p.Some? && p.value.symbol == g.currentTurn && IsOpen(g.board, index) && !Over(g))
      && (r.Ok? ==> r.value == p.value.symbol && r.value == g.currentTurn)
  {
    if room.None? then Err(RoomNotFound)
    else
      var g := room.value.gameState;
      match Find(room.value.players, playerId)
      case None => Err(PlayerNotInRoom)
      case Some(p) =>
        if g.currentTurn != p.symbol then Err(NotYourTurn)
        else if !IsOpen(g.board, index) then Err(SquareTaken)
        else if Over(g) then Err(GameIsOver)
        else Ok(p.symbol)
  }

  /**
   * The apply-move step: `mark` is written into square `index` and the
   * result is exactly one of a win (winner and line set, turn kept), a draw
   * (full board without a line, turn kept) or a running game with the turn
   * passed to the opponent.
   */
  function ApplyMove(g: GameState, mark: Symbol, index: int): (r: GameState)
    requires 0 <= index < |g.board| && !Over(g)
    ensures r.board == g.board[index := Occupied(mark)]
    ensures r.winner.Some? <==> HasLine(r.board, X) || HasLine(r.board, O)
    ensures r.winner.Some? ==>
      && Verdict(r.winner, r.winningLine) == CheckWinner(r.board)
      && Completes(r.board, r.winningLine.value, r.winner.value)
      && !r.isDraw && r.currentTurn == g.currentTurn
    ensures r.isDraw <==> r.winner.None? && IsFull(r.board)
    ensures r.isDraw ==> r.currentTurn == g.currentTurn
    ensures !Over(r) ==> r.currentTurn == Opponent(g.currentTurn)
    ensures r.winner.None? ==> r.winningLine == g.winningLine
  {
    var board := g.board[index := Occupied(mark)];
    var verdict := CheckWinner(board);
    if verdict.winner.Some? then
      g.(board := board, winner := verdict.winner, winningLine := verdict.line)
    else if IsFull(board) then
      g.(board := board, isDraw := true)
    else
      g.(board := board, currentTurn := Opponent(g.currentTurn))
  }

  /** An accepted move keeps a reachable game state reachable. */
  lemma MovePreservesConsistency(g: GameState, index: int)
    requires Consistent(g) && !Over(g) && IsOpen(g.board, index)
    ensures Consistent(ApplyMove(g, g.currentTurn, index))
  {
    var s := g.currentTurn;
    var r := ApplyMove(g, s, index);
    CountPlace(g.board, index, s, X);
    CountPlace(g.board, index, s, O);
    NewLinesAreMovers(g.board, index, s);
    if r.winner.Some? {
      var w := r.winner.value;
      assert HasLine(r.board, w) by {
        var l := r.winningLine.value;
        var i :| 0 <= i < |Lines| && l == Lines[i];
        assert Completes(r.board, Lines[i], w);
      }
      assert w == s;
    }
  }

  /** The room after an accepted move by `mark` at `index`. */
  function PlayMove(room: Room, mark: Symbol, index: int): (r: Room)
    requires 0 <= index < |room.gameState.board| && !Over(room.gameState)
    ensures r.id == room.id && r.players == room.players
    ensures r.gameState == ApplyMove(room.gameState, mark, index)
  {
    room.(gameState := ApplyMove(room.gameState, mark, index))
  }

  /**
   * The room after a move request by `playerId` at `index`: unchanged when
   * the chain refuses it; when it is accepted, the mover's mark is written and
   * the game state is the apply step's result. The board changes exactly when
   * the request is accepted.
   */
  function Step(room: Room, playerId: string, index: int): (r: Room)
    ensures r.id == room.id && r.players == room.players
    ensures ValidateMove(Some(room), playerId, index).Err? ==> r == room
    ensures ValidateMove(Some(room), playerId, index).Ok? ==>
      && r.gameState == ApplyMove(room.gameState, room.gameState.currentTurn, index)
      && r.gameState.board[index] == Occupied(room.gameState.currentTurn)
    ensures r.gameState.board != room.gameState.board <==> ValidateMove(Some(room), playerId, index).Ok?
  {
    match ValidateMove(Some(room), playerId, index)
    case Err(_) => room
    case Ok(mark) =>
      var r := PlayMove(room, mark, index);
      assert r.gameState.board[index] != room.gameState.board[index];
      r
  }

  lemma PlayMoveKeepsRoomOk(room: Room, index: int)
    requires RoomOk(room) && !Over(room.gameState) && IsOpen(room.gameState.board, index)
    ensures RoomOk(PlayMove(room, room.gameState.currentTurn, index))
  {
    MovePreservesConsistency(room.gameState, index);
  }

  /**
   * After a win the turn stays with the winner, so the other player's next
   * request stops at the turn check before the game-over check is reached.
   */
  lemma AfterWinOpponentIsOutOfTurn(room: Room, playerId: string, index: int)
    requires Consistent(room.gameState) && room.gameState.winner.Some?
    requires Find(room.players, playerId).Some?
    requires Find(room.players, playerId).value.symbol == Opponent(room.gameState.winner.value)
    ensures ValidateMove(Some(room), playerId, index) == Err(NotYourTurn)
  {
  }

  /** Once the game is over, every request is refused, whoever sends it and wherever it points. */
  lemma OverRefusesEveryMove(room: Room, playerId: string, index: int)
    requires Over(room.gameState)
    ensures ValidateMove(Some(room), playerId, index).Err?
  {
  }
}
