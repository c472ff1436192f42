/**
 * The game engine: the initial state of a game and the winner check over the
 * eight fixed lines of a 3x3 board. Pure functions; nothing here holds state.
 */
module Engine {
  import opened Wrappers

  /** A player's mark, 'X' or 'O'. */
  datatype Symbol = X | O

  /** One square of the board; `Empty` is the JavaScript `null` of an unplayed square. */
  datatype Square = Empty | Occupied(mark: Symbol)

  type Board = seq<Square>

  /** Three board indices that win when they carry the same mark. */
  datatype Line = Line(a: nat, b: nat, c: nat)

  datatype GameState = GameState(
    board: Board,
    currentTurn: Symbol,
    winner: Option<Symbol>,
    isDraw: bool,
    winningLine: Option<Line>)

  /** What the winner check reports: both fields are set, or neither. */
  datatype Verdict = Verdict(winner: Option<Symbol>, line: Option<Line>)

  const BoardSize: nat := 9

  /** Rows, then columns, then the two diagonals: the order in which they are tried. */
  const Lines: seq<Line> := [
    Line(0, 1, 2), Line(3, 4, 5), Line(6, 7, 8),
    Line(0, 3, 6), Line(1, 4, 7), Line(2, 5, 8),
    Line(0, 4, 8), Line(2, 4, 6)
  ]

  function Opponent(s: Symbol): (r: Symbol)
    ensures r != s
  {
    if s == X then O else X
  }

  function InitialGameState(): (g: GameState)
    ensures |g.board| == BoardSize
    ensures forall i | 0 <= i < |g.board| :: g.board[i] == Empty
    ensures g.currentTurn == X && g.winner == None && !g.isDraw && g.winningLine == None
  {
    GameState(seq(BoardSize, _ => Empty), X, None, false, None)
  }

  /** `board[i]` as the winner check reads it: an index off the board yields
      JavaScript's `undefined`, which is falsy exactly like `null`. */
  function At(board: Board, i: int): Square
  {
    if 0 <= i < |board| then board[i] else Empty
  }

  /** The winner check's test on one line: `board[a] && board[a] === board[b] && board[a] === board[c]`. */
  predicate Matches(board: Board, line: Line)
  {
    At(board, line.a) != Empty && At(board, line.a) == At(board, line.b) && At(board, line.a) == At(board, line.c)
  }

  /** All three squares of `line` carry mark `s`. */
  predicate Completes(board: Board, line: Line, s: Symbol)
  {
    At(board, line.a) == Occupied(s) && At(board, line.b) == Occupied(s) && At(board, line.c) == Occupied(s)
  }

  /** Reference definition: some one of the eight lines is uniformly `s`. */
  predicate HasLine(board: Board, s: Symbol)
  {
    exists i | 0 <= i < |Lines| :: Completes(board, Lines[i], s)
  }

  /** Line `i` matches and no line tried before it (from `k` on) does. */
  predicate FirstMatchFrom(board: Board, k: nat, i: nat)
    requires i < |Lines|
  {
    Matches(board, Lines[i]) && forall j | k <= j < i :: !Matches(board, Lines[j])
  }

  /** The scan of the lines from position `k` on: the first matching line wins. */
  function ScanFrom(board: Board, k: nat): (r: Verdict)
    requires k <= |Lines|
    decreases |Lines| - k
    ensures r.winner.None? <==> r.line.None?
    ensures r.winner.None? <==> forall i | k <= i < |Lines| :: !Matches(board, Lines[i])
    ensures r.line.Some? ==>
      exists i | k <= i < |Lines| ::
        && r.line.value == Lines[i]
        && FirstMatchFrom(board, k, i)
        && Completes(board, Lines[i], r.winner.value)
  {
    if k == |Lines| then
      Verdict(None, None)
    else if Matches(board, Lines[k]) then
      Verdict(Some(At(board, Lines[k].a).mark), Some(Lines[k]))
    else
      ScanFrom(board, k + 1)
  }

  /** `checkWinner`: the first of the eight lines, in order, whose squares are
      equal and non-empty, with its mark as the winner; none when no line matches. */
  function CheckWinner(board: Board): (r: Verdict)
    ensures r.winner.None? <==> r.line.None?
    ensures r.winner.Some? <==> HasLine(board, X) || HasLine(board, O)
    ensures r.line.Some? ==> r.line.value in Lines && Completes(board, r.line.value, r.winner.value)
    ensures r.line.Some? ==>
      exists i | 0 <= i < |Lines| :: r.line.value == Lines[i] && forall j | 0 <= j < i :: !Matches(board, Lines[j])
    ensures (forall i | 0 <= i < |board| :: board[i] == Empty) ==> r.winner.None?
  {
    var r := ScanFrom(board, 0);
    MatchesIffCompletes(board);
    r
  }

  lemma MatchesIffCompletes(board: Board)
    ensures forall i | 0 <= i < |Lines| :: Matches(board, Lines[i]) <==>
      (Completes(board, Lines[i], X) || Completes(board, Lines[i], O))
  {
    forall i | 0 <= i < |Lines|
      ensures Matches(board, Lines[i]) ==> Completes(board, Lines[i], X) || Completes(board, Lines[i], O)
    {
      if Matches(board, Lines[i]) {
        var m := At(board, Lines[i].a).mark;
        assert Completes(board, Lines[i], m);
        assert m == X || m == O;
      }
    }
  }

  /** `board.every(sq => sq !== null)`. */
  predicate IsFull(board: Board)
  {
    forall i | 0 <= i < |board| :: board[i] != Empty
  }

  /** The game is finished: a winner is known or the board is drawn. */
  predicate Over(g: GameState)
  {
    g.winner.Some? || g.isDraw
  }

  /** The number of squares that carry mark `s`. */
  function Count(board: Board, s: Symbol): nat
  {
    if board == [] then 0
    else (if board[0] == Occupied(s) then 1 else 0) + Count(board[1..], s)
  }

  /** Placing `s` on an empty square adds one to the count of `s` and leaves the other count. */
  lemma {:induction false} CountPlace(board: Board, i: nat, s: Symbol, t: Symbol)
    requires i < |board| && board[i] == Empty
    ensures Count(board[i := Occupied(s)], t) == Count(board, t) + (if s == t then 1 else 0)
  {
    if i == 0 {
      assert board[i := Occupied(s)][1..] == board[1..];
    } else {
      assert board[i := Occupied(s)][1..] == board[1..][i - 1 := Occupied(s)];
      CountPlace(board[1..], i - 1, s, t);
    }
  }

  /**
   * The invariant of every game state reachable from the initial state by
   * accepted moves: nine squares; winner and winning line set together, and the
   * line is the one the winner check reports; winner and draw exclusive; a
   * draw exactly when the board is full without a line; no line at all while
   * there is no winner, and never a line of the loser; the mover's turn kept
   * after a finishing move, so X has one more mark than O exactly when the
   * turn is X's in a finished game or O's in a running one.
   */
  ghost predicate Consistent(g: GameState)
  {
    && |g.board| == BoardSize
    && (g.winner.Some? <==> g.winningLine.Some?)
    && !(g.winner.Some? && g.isDraw)
    && (g.winner.Some? ==>
          && CheckWinner(g.board) == Verdict(g.winner, g.winningLine)
          && g.winner.value == g.currentTurn
          && !HasLine(g.board, Opponent(g.currentTurn)))
    && (g.winner.None? ==> !HasLine(g.board, X) && !HasLine(g.board, O))
    && (g.isDraw <==> g.winner.None? && IsFull(g.board))
    && Count(g.board, X) == Count(g.board, O) + (if (g.currentTurn == X) == Over(g) then 1 else 0)
  }

  /** In a reachable state at most one mark has a line: never both X and O. */
  lemma OneMarkAtMostHasALine(g: GameState)
    requires Consistent(g)
    ensures !(HasLine(g.board, X) && HasLine(g.board, O))
  {
    if g.winner.Some? {
      assert g.currentTurn == X || g.currentTurn == O;
    }
  }

  lemma InitialConsistent()
    ensures Consistent(InitialGameState())
  {
    var g := InitialGameState();
    assert !IsFull(g.board) by { assert g.board[0] == Empty; }
    assert Count(g.board, X) == 0 && Count(g.board, O) == 0 by { CountEmpty(g.board); }
  }

  lemma {:induction false} CountEmpty(board: Board)
    requires forall i | 0 <= i < |board| :: board[i] == Empty
    ensures Count(board, X) == 0 && Count(board, O) == 0
  {
    if board != [] {
      CountEmpty(board[1..]);
    }
  }

  /**
   * On a board without any line, placing `s` on an empty square can complete
   * lines only through that square, so only lines of `s`.
   */
  lemma NewLinesAreMovers(board: Board, index: nat, s: Symbol)
    requires index < |board| && board[index] == Empty
    requires !HasLine(board, X) && !HasLine(board, O)
    ensures !HasLine(board[index := Occupied(s)], Opponent(s))
  {
    var b' := board[index := Occupied(s)];
    forall i | 0 <= i < |Lines| ensures !Completes(b', Lines[i], Opponent(s)) {
      var t, l := Opponent(s), Lines[i];
      assert !Completes(board, l, t);
      OtherMarkUnchanged(board, index, s, l.a);
      OtherMarkUnchanged(board, index, s, l.b);
      OtherMarkUnchanged(board, index, s, l.c);
    }
  }

  /** A square that reads `Opponent(s)` after `s` is placed read the same before. */
  lemma OtherMarkUnchanged(board: Board, index: nat, s: Symbol, x: nat)
    requires index < |board|
    ensures At(board[index := Occupied(s)], x) == Occupied(Opponent(s)) ==> At(board, x) == Occupied(Opponent(s))
  {
  }
}
