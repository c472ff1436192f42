/**
 * Decisive moments of two games played through the validation chain and the
 * apply-move step: the opening move, refused moves, a column win for X and
 * the last move of a drawn game.
 */
module Scenarios {
  import opened Wrappers
  import opened Engine
  import opened Rooms
  import opened Moves

  /** A two-player room: P1 created it as X, P2 joined as O. */
  function TwoPlayerRoom(): (r: Room)
    ensures r.players == [Player("P1", X, "P1"), Player("P2", O, "P2")]
    ensures r.gameState == InitialGameState()
  {
    Seat(NewRoom("r1", "P1"), "P2")
  }

  /** Room "r1" with P1 as X and P2 as O, mid-game on `board` with `turn` to move. */
  function Playing(board: Board, turn: Symbol): (r: Room)
    ensures r.players == TwoPlayerRoom().players
  {
    Room("r1", [Player("P1", X, "P1"), Player("P2", O, "P2")], GameState(board, turn, None, false, None))
  }

  /** X's opening move: the square is marked and the turn passes to O. */
  lemma OpeningMove()
    ensures Step(TwoPlayerRoom(), "P1", 0) == Playing([Occupied(X), Empty, Empty, Empty, Empty, Empty, Empty, Empty, Empty], O)
  {
    var b := [Occupied(X), Empty, Empty, Empty, Empty, Empty, Empty, Empty, Empty];
    assert TwoPlayerRoom().gameState.board[0 := Occupied(X)] == b;
    assert !Matches(b, Lines[0]) && !Matches(b, Lines[1]) && !Matches(b, Lines[2]) && !Matches(b, Lines[3]);
    assert !Matches(b, Lines[4]) && !Matches(b, Lines[5]) && !Matches(b, Lines[6]) && !Matches(b, Lines[7]);
    assert !IsFull(b) by { assert b[1] == Empty; }
  }

  /**
   * After the opening move O may not play on the taken square or off the
   * board, X may not play out of turn, and a stranger may not play at all.
   */
  lemma TakenSquareRefused()
    ensures ValidateMove(Some(Playing([Occupied(X), Empty, Empty, Empty, Empty, Empty, Empty, Empty, Empty], O)), "P2", 0) == Err(SquareTaken)
    ensures ValidateMove(Some(Playing([Occupied(X), Empty, Empty, Empty, Empty, Empty, Empty, Empty, Empty], O)), "P1", 1) == Err(NotYourTurn)
    ensures ValidateMove(Some(Playing([Occupied(X), Empty, Empty, Empty, Empty, Empty, Empty, Empty, Empty], O)), "P3", 1) == Err(PlayerNotInRoom)
    ensures ValidateMove(Some(Playing([Occupied(X), Empty, Empty, Empty, Empty, Empty, Empty, Empty, Empty], O)), "P2", 9) == Err(SquareTaken)
  {
    var r := Playing([Occupied(X), Empty, Empty, Empty, Empty, Empty, Empty, Empty, Empty], O);
    assert Find(r.players, "P2") == Some(Player("P2", O, "P2"));
    assert Find(r.players, "P1") == Some(Player("P1", X, "P1"));
  }

  /** The board of the column win: the first column is the first line that matches. */
  lemma ColumnBoard()
    ensures CheckWinner([Occupied(X), Occupied(O), Empty, Occupied(X), Occupied(O), Empty, Occupied(X), Empty, Empty]) == Verdict(Some(X), Some(Line(0, 3, 6)))
  {
    var b := [Occupied(X), Occupied(O), Empty, Occupied(X), Occupied(O), Empty, Occupied(X), Empty, Empty];
    assert !Matches(b, Lines[0]) && !Matches(b, Lines[1]) && !Matches(b, Lines[2]) && Matches(b, Lines[3]);
  }

  /**
   * After X 0, O 1, X 3, O 4, X's move at 6 completes the first column: X
   * wins on line (0, 3, 6); O is then out of turn and X meets the game-over
   * check, and a restart brings back the empty board with the same players.
   */
  lemma ColumnWin()
    ensures var r := Step(Playing([Occupied(X), Occupied(O), Empty, Occupied(X), Occupied(O), Empty, Empty, Empty, Empty], X), "P1", 6);
      && r.gameState.winner == Some(X)
      && r.gameState.winningLine == Some(Line(0, 3, 6))
      && !r.gameState.isDraw && r.gameState.currentTurn == X
      && ValidateMove(Some(r), "P2", 2) == Err(NotYourTurn)
      && ValidateMove(Some(r), "P1", 2) == Err(GameIsOver)
      && Restarted(r).gameState == InitialGameState()
      && Restarted(r).players == TwoPlayerRoom().players
  {
    var r := Playing([Occupied(X), Occupied(O), Empty, Occupied(X), Occupied(O), Empty, Empty, Empty, Empty], X);
    assert r.gameState.board[6 := Occupied(X)] == [Occupied(X), Occupied(O), Empty, Occupied(X), Occupied(O), Empty, Occupied(X), Empty, Empty];
    ColumnBoard();
    assert Find(r.players, "P2") == Some(Player("P2", O, "P2"));
    assert Find(r.players, "P1") == Some(Player("P1", X, "P1"));
  }

  /** The drawn board: full, and the winner check finds no line. */
  lemma DrawnBoard()
    ensures CheckWinner([Occupied(X), Occupied(O), Occupied(X), Occupied(X), Occupied(O), Occupied(O), Occupied(O), Occupied(X), Occupied(X)]) == Verdict(None, None)
    ensures IsFull([Occupied(X), Occupied(O), Occupied(X), Occupied(X), Occupied(O), Occupied(O), Occupied(O), Occupied(X), Occupied(X)])
  {
    var b := [Occupied(X), Occupied(O), Occupied(X), Occupied(X), Occupied(O), Occupied(O), Occupied(O), Occupied(X), Occupied(X)];
    assert !Matches(b, Lines[0]) && !Matches(b, Lines[1]) && !Matches(b, Lines[2]) && !Matches(b, Lines[3]);
    assert !Matches(b, Lines[4]) && !Matches(b, Lines[5]) && !Matches(b, Lines[6]) && !Matches(b, Lines[7]);
  }

  /**
   * After X 0, O 1, X 2, O 4, X 3, O 5, X 7, O 6, X's move at 8 fills the
   * board without three in a row: a draw, no winner, X still holds the turn.
   */
  lemma FullBoardDraw()
    ensures var r := Step(Playing([Occupied(X), Occupied(O), Occupied(X), Occupied(X), Occupied(O), Occupied(O), Occupied(O), Occupied(X), Empty], X), "P1", 8);
      && r.gameState.isDraw && r.gameState.winner == None && r.gameState.winningLine == None
      && r.gameState.currentTurn == X
  {
    var g := Playing([Occupied(X), Occupied(O), Occupied(X), Occupied(X), Occupied(O), Occupied(O), Occupied(O), Occupied(X), Empty], X).gameState;
    assert g.board[8 := Occupied(X)] == [Occupied(X), Occupied(O), Occupied(X), Occupied(X), Occupied(O), Occupied(O), Occupied(O), Occupied(X), Occupied(X)];
    DrawnBoard();
  }
}
