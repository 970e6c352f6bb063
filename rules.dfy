/**
 * The rule engine of js/game.js over an explicit game-state value: move
 * legality, the move transition, win and draw detection, legal-move
 * enumeration and the counting queries. Engine.Game keeps the same state
 * in arrays and is proved to follow these definitions.
 */
module Rules {
  import opened Wrappers
  import opened Board

  /** Nine sub-boards of nine cells (gameBoard). */
  type Grid = g: seq<Cells> | |g| == 9 witness seq(9, _ => EmptyCells)

  /**
   * gameBoard, boardWinners, currentPlayer, nextBoard (None: any board)
   * and gameWinner (Empty: null).
   */
  datatype State = State(cells: Grid, winners: Cells, current: Player, next: Option<Index>, winner: Mark)

  /** What executeMove returns; Halted is the bare `{type: 'continue'}` of a finished game. */
  datatype Outcome =
    | GameWon(winner: Player, line: Line)
    | GameDraw
    | Continue(nextPlayer: Player, nextBoard: Option<Index>)
    | Halted

  datatype Transition = Transition(state: State, outcome: Outcome)

  /** resetGameState: empty boards, no winners, X to move, any board. */
  function Initial(): State {
    State(seq(9, _ => EmptyCells), EmptyCells, X, None, Empty)
  }

  // ---------------------------------------------------------------
  // Queries
  // ---------------------------------------------------------------

  /** checkBoardWinner(b) */
  function CheckBoardWinner(s: State, b: Index): Mark {
    Owner(s.cells[b])
  }

  /** checkGameWinner(): the owner of the first complete line of boardWinners and that line. */
  function CheckGameWinner(s: State): Option<Win> {
    FindLine(s.winners)
  }

  /** isBoardFull(b); an index outside 0..8 is never full. */
  predicate IsBoardFull(s: State, b: int) {
    0 <= b < 9 && Full(s.cells[b])
  }

  /** A sub-board nobody can play in any more: won or full. */
  predicate Closed(s: State, b: Index) {
    s.winners[b] != Empty || IsBoardFull(s, b)
  }

  predicate AllClosed(s: State) {
    forall b :: 0 <= b < 9 ==> Closed(s, b)
  }

  /** isGameDraw() */
  predicate IsGameDraw(s: State) {
    AllClosed(s) && s.winner == Empty
  }

  /** isValidMove(b, c) */
  predicate IsValidMove(s: State, b: int, c: int) {
    && 0 <= b < 9 && 0 <= c < 9
    && s.winner == Empty && !IsGameDraw(s)
    && s.winners[b] == Empty
    && s.cells[b][c] == Empty
    && (s.next.None? || s.next.value == b)
  }

  /** canWinBoard(b, p); false for an index outside 0..8. */
  predicate CanWinBoard(s: State, b: int, p: Player) {
    0 <= b < 9 && CanWin(s.cells[b], p)
  }

  /** countEmptyCells(b); 0 for an index outside 0..8. */
  function EmptyCount(s: State, b: int): nat {
    if 0 <= b < 9 then CountMark(s.cells[b], Empty, 9) else 0
  }

  /** Number of boards among 0..n-1 that are neither won nor full. */
  function ActiveUpTo(s: State, n: nat): (r: nat)
    requires n <= 9
    ensures r <= n
  {
    if n == 0 then 0 else ActiveUpTo(s, n - 1) + (if Closed(s, n - 1) then 0 else 1)
  }

  /** countActiveBoards() */
  function ActiveBoards(s: State): nat {
    ActiveUpTo(s, 9)
  }

  /** Occupied cells in boards 0..n-1. */
  function PlayedUpTo(s: State, n: nat): nat
    requires n <= 9
  {
    if n == 0 then 0 else PlayedUpTo(s, n - 1) + CountOccupied(s.cells[n - 1], 9)
  }

  /** getTotalMoves() */
  function MovesPlayed(s: State): nat {
    PlayedUpTo(s, 9)
  }

  // ---------------------------------------------------------------
  // Legal-move enumeration (getValidMoves)
  // ---------------------------------------------------------------

  /** `m1` comes before `m2`: ascending board, then ascending cell. */
  predicate Before(m1: Move, m2: Move) {
    m1.board < m2.board || (m1.board == m2.board && m1.cell < m2.cell)
  }

  predicate Ordered(ms: seq<Move>) {
    forall i, j :: 0 <= i < j < |ms| ==> Before(ms[i], ms[j])
  }

  /** The empty cells of board `b` among cells 0..n-1, in ascending order. */
  function CellMoves(s: State, b: Index, n: nat): (r: seq<Move>)
    requires n <= 9
    ensures forall m :: m in r <==> m.board == b && m.cell < n && s.cells[b][m.cell] == Empty
    ensures Ordered(r)
  {
    if n == 0 then []
    else CellMoves(s, b, n - 1) + (if s.cells[b][n - 1] == Empty then [Move(b, n - 1)] else [])
  }

  /** The empty cells of the un-won boards among boards 0..n-1, in ascending order. */
  function BoardMoves(s: State, n: nat): (r: seq<Move>)
    requires n <= 9
    ensures forall m :: m in r <==> m.board < n && s.winners[m.board] == Empty && s.cells[m.board][m.cell] == Empty
    ensures Ordered(r)
  {
    if n == 0 then []
    else
      var tail := if s.winners[n - 1] == Empty then CellMoves(s, n - 1, 9) else [];
      assert forall m :: m in tail ==> m.board == n - 1;
      BoardMoves(s, n - 1) + tail
  }

  /**
   * getValidMoves(): the forced board's empty cells when the forced board
   * is un-won, otherwise every empty cell of every un-won board.
   */
  function LegalMoves(s: State): (r: seq<Move>)
    ensures Ordered(r)
    ensures forall m :: m in r <==>
      && s.winners[m.board] == Empty && s.cells[m.board][m.cell] == Empty
      && (s.next.Some? && s.winners[s.next.value] == Empty ==> m.board == s.next.value)
  {
    if s.next.Some? && s.winners[s.next.value] == Empty then CellMoves(s, s.next.value, 9)
    else BoardMoves(s, 9)
  }

  // ---------------------------------------------------------------
  // The transition (executeMove)
  // ---------------------------------------------------------------

  /** gameBoard[b][c] = p */
  function Place(s: State, b: Index, c: Index, p: Player): State {
    s.(cells := s.cells[b := s.cells[b][c := p]])
  }

  /**
   * executeMove(b, c, p): write the mark; if the sub-board had no winner
   * and now has one, record it and test the super-board; then report a
   * draw, or pass the turn with the next forced board.
   */
  function Execute(s: State, b: Index, c: Index, p: Player): Transition {
    var s1 := Place(s, b, c, p);
    var w := CheckBoardWinner(s1, b);
    if s.winners[b] == Empty && w != Empty then RecordBoardWin(s1, b, w, c)
    else AfterBoards(s1, c)
  }

  /** boardWinners[b] = w, then the super-board test. */
  function RecordBoardWin(s: State, b: Index, w: Player, c: Index): Transition {
    var s2 := s.(winners := s.winners[b := w]);
    match CheckGameWinner(s2)
    case Some(win) => Transition(s2.(winner := win.winner), GameWon(win.winner, win.line))
    case None => AfterBoards(s2, c)
  }

  /** The draw test and the hand-over that follow the sub-board check. */
  function AfterBoards(s: State, c: Index): Transition {
    if s.winner == Empty && IsGameDraw(s) then
      Transition(s, GameDraw)
    else if s.winner == Empty && !IsGameDraw(s) then
      var next := if s.winners[c] != Empty || IsBoardFull(s, c) then None else Some(c);
      var player := Other(s.current);
      Transition(s.(next := next, current := player), Continue(player, next))
    else
      Transition(s, Halted)
  }

  /** Positions with the same boards, winners and game winner close the same boards. */
  lemma SameBoardsSameDraw(s: State, t: State)
    requires s.cells == t.cells && s.winners == t.winners && s.winner == t.winner
    ensures forall i :: 0 <= i < 9 ==> Closed(s, i) == Closed(t, i)
    ensures AllClosed(s) == AllClosed(t) && IsGameDraw(s) == IsGameDraw(t)
  {
  }

  /** The hand-over changes only the player to move and the forced board. */
  lemma AfterBoardsFrame(s: State, c: Index)
    ensures var t := AfterBoards(s, c).state;
      t.cells == s.cells && t.winners == s.winners && t.winner == s.winner
    ensures AfterBoards(s, c).outcome.Halted? <==> s.winner != Empty
  {
    SameBoardsSameDraw(s, AfterBoards(s, c).state);
  }

  // ---------------------------------------------------------------
  // Properties of one move
  // ---------------------------------------------------------------

  /** The cells after a move: the old grid with the one mark written. */
  lemma ExecuteCells(s: State, b: Index, c: Index, p: Player)
    ensures Execute(s, b, c, p).state.cells == s.cells[b := s.cells[b][c := p]]
  {
    var s1 := Place(s, b, c, p);
    var w := CheckBoardWinner(s1, b);
    if s.winners[b] == Empty && w != Empty {
      AfterBoardsFrame(s1.(winners := s1.winners[b := w]), c);
    } else {
      AfterBoardsFrame(s1, c);
    }
  }

  /** The move writes its mark and no other cell changes, so no cell is ever cleared. */
  lemma ExecuteWritesOneCell(s: State, b: Index, c: Index, p: Player)
    ensures var t := Execute(s, b, c, p).state;
      && t.cells[b][c] == p
      && forall i, j :: 0 <= i < 9 && 0 <= j < 9 && (i != b || j != c) ==> t.cells[i][j] == s.cells[i][j]
  {
    ExecuteCells(s, b, c, p);
  }

  /** The sub-board winners after a move: board `b` gains the owner of its line if it had none. */
  lemma ExecuteWinners(s: State, b: Index, c: Index, p: Player)
    ensures var w := Owner(Place(s, b, c, p).cells[b]);
      Execute(s, b, c, p).state.winners == if s.winners[b] == Empty && w != Empty then s.winners[b := w] else s.winners
  {
    var s1 := Place(s, b, c, p);
    var w := CheckBoardWinner(s1, b);
    if s.winners[b] == Empty && w != Empty {
      AfterBoardsFrame(s1.(winners := s1.winners[b := w]), c);
    } else {
      AfterBoardsFrame(s1, c);
    }
  }

  /**
   * Sub-board winners are monotonic: a recorded winner is kept, only board
   * `b` can change, and then only from Empty to the owner of its new line.
   */
  lemma ExecuteKeepsWinners(s: State, b: Index, c: Index, p: Player)
    ensures var t := Execute(s, b, c, p).state;
      && (forall i :: 0 <= i < 9 && s.winners[i] != Empty ==> t.winners[i] == s.winners[i])
      && (forall i :: 0 <= i < 9 && i != b ==> t.winners[i] == s.winners[i])
      && (t.winners[b] != s.winners[b] ==> s.winners[b] == Empty && t.winners[b] == Owner(t.cells[b]))
  {
    ExecuteWinners(s, b, c, p);
    ExecuteCells(s, b, c, p);
  }

  /**
   * A super-board win sets gameWinner to the owner of a complete line of
   * sub-board winners, reports that line, and leaves the player to move and
   * the forced board as they were.
   */
  lemma ExecuteGameWon(s: State, b: Index, c: Index, p: Player)
    requires Execute(s, b, c, p).outcome.GameWon?
    ensures var t := Execute(s, b, c, p);
      && t.state.winner == t.outcome.winner
      && t.outcome.line in Lines && Complete(t.state.winners, t.outcome.line)
      && t.state.winners[t.outcome.line.a] == t.outcome.winner
      && t.state.current == s.current && t.state.next == s.next
      && s.winners[b] == Empty && t.state.winners[b] != Empty
  {
    var s1 := Place(s, b, c, p);
    var w := CheckBoardWinner(s1, b);
    if s.winners[b] == Empty && w != Empty {
      var s2 := s1.(winners := s1.winners[b := w]);
      if CheckGameWinner(s2).None? {
        AfterBoardsFrame(s2, c);
      }
    } else {
      AfterBoardsFrame(s1, c);
    }
  }

  /**
   * On `continue` the turn passes to the other player and the next forced
   * board is the played cell's board, or any board when that one is won or full.
   */
  lemma ExecuteContinue(s: State, b: Index, c: Index, p: Player)
    requires Execute(s, b, c, p).outcome.Continue?
    ensures var t := Execute(s, b, c, p);
      && t.state.current == Other(s.current) && t.outcome.nextPlayer == t.state.current
      && t.outcome.nextBoard == t.state.next
      && t.state.next == (if Closed(t.state, c) then None else Some(c))
      && t.state.winner == Empty && !IsGameDraw(t.state)
  {
    var s1 := Place(s, b, c, p);
    var w := CheckBoardWinner(s1, b);
    if s.winners[b] == Empty && w != Empty {
      var s2 := s1.(winners := s1.winners[b := w]);
      SameBoardsSameDraw(s2, AfterBoards(s2, c).state);
    } else {
      SameBoardsSameDraw(s1, AfterBoards(s1, c).state);
    }
  }

  /** A draw is reported exactly when the position after the move is a draw, and only then is the turn kept. */
  lemma ExecuteDraw(s: State, b: Index, c: Index, p: Player)
    requires s.winner == Empty
    ensures var t := Execute(s, b, c, p);
      && (t.outcome.GameDraw? <==> IsGameDraw(t.state))
      && (t.outcome.GameDraw? ==> t.state.current == s.current && t.state.next == s.next)
      && !t.outcome.Halted?
  {
    var s1 := Place(s, b, c, p);
    var w := CheckBoardWinner(s1, b);
    if s.winners[b] == Empty && w != Empty {
      var s2 := s1.(winners := s1.winners[b := w]);
      if CheckGameWinner(s2).None? {
        AfterBoardsFrame(s2, c);
        SameBoardsSameDraw(s2, AfterBoards(s2, c).state);
      }
    } else {
      AfterBoardsFrame(s1, c);
      SameBoardsSameDraw(s1, AfterBoards(s1, c).state);
    }
  }

  /** A valid move fills exactly one more cell. */
  lemma ExecuteCountsOneMove(s: State, b: Index, c: Index, p: Player)
    requires IsValidMove(s, b, c)
    ensures MovesPlayed(Execute(s, b, c, p).state) == MovesPlayed(s) + 1
  {
    var t := Execute(s, b, c, p).state;
    PlaceAddsOccupied(s.cells[b], c, p, 9);
    PlayedUpToAfterPlace(s, t, b, 9);
  }

  lemma {:induction false} PlayedUpToAfterPlace(s: State, t: State, b: Index, n: nat)
    requires n <= 9
    requires forall i :: 0 <= i < 9 && i != b ==> t.cells[i] == s.cells[i]
    requires CountOccupied(t.cells[b], 9) == CountOccupied(s.cells[b], 9) + 1
    ensures PlayedUpTo(t, n) == PlayedUpTo(s, n) + (if b < n then 1 else 0)
  {
    if n > 0 {
      PlayedUpToAfterPlace(s, t, b, n - 1);
    }
  }

  // ---------------------------------------------------------------
  // The invariant of every reachable position
  // ---------------------------------------------------------------

  /**
   * Every recorded sub-board winner is the owner of that sub-board's line
   * (and an un-won sub-board has no complete line), gameWinner is the owner
   * of the super-board's line, and while the game is open a forced board is
   * one that can still be played.
   */
  ghost predicate Consistent(s: State) {
    && (forall i :: 0 <= i < 9 ==> s.winners[i] == Owner(s.cells[i]))
    && s.winner == Owner(s.winners)
    && (s.next.Some? && s.winner == Empty && !AllClosed(s) ==> !Closed(s, s.next.value))
  }

  lemma InitialConsistent()
    ensures Consistent(Initial())
  {
    var s := Initial();
    forall i | 0 <= i < 9
      ensures s.winners[i] == Owner(s.cells[i])
    {
      assert s.cells[i] == EmptyCells;
      assert FindLine(EmptyCells).None?;
    }
    assert FindLine(s.winners).None?;
  }

  /** The hand-over keeps a position consistent when nobody has won. */
  lemma AfterBoardsConsistent(s: State, c: Index)
    requires forall i :: 0 <= i < 9 ==> s.winners[i] == Owner(s.cells[i])
    requires s.winner == Empty && Owner(s.winners) == Empty
    ensures Consistent(AfterBoards(s, c).state)
  {
    var t := AfterBoards(s, c).state;
    AfterBoardsFrame(s, c);
    SameBoardsSameDraw(s, t);
  }

  /** Recording a sub-board win keeps a position consistent. */
  lemma RecordBoardWinConsistent(s: State, b: Index, w: Player, c: Index)
    requires forall i :: 0 <= i < 9 && i != b ==> s.winners[i] == Owner(s.cells[i])
    requires w == Owner(s.cells[b])
    requires s.winner == Empty
    ensures Consistent(RecordBoardWin(s, b, w, c).state)
  {
    var s2 := s.(winners := s.winners[b := w]);
    assert forall i :: 0 <= i < 9 ==> s2.winners[i] == Owner(s2.cells[i]);
    match CheckGameWinner(s2)
    case Some(win) =>
      assert Owner(s2.winners) == win.winner;
    case None =>
      AfterBoardsConsistent(s2, c);
  }

  /** Every valid move keeps the position consistent. */
  lemma ExecutePreservesConsistent(s: State, b: Index, c: Index, p: Player)
    requires Consistent(s) && IsValidMove(s, b, c)
    ensures Consistent(Execute(s, b, c, p).state)
  {
    var s1 := Place(s, b, c, p);
    var w := CheckBoardWinner(s1, b);
    assert forall i :: 0 <= i < 9 && i != b ==> s1.cells[i] == s.cells[i];
    if w != Empty {
      RecordBoardWinConsistent(s1, b, w, c);
    } else {
      assert forall i :: 0 <= i < 9 ==> s1.winners[i] == Owner(s1.cells[i]);
      AfterBoardsConsistent(s1, c);
    }
  }

  /** Once gameWinner is set no move is valid, and a complete line of sub-board winners backs it. */
  lemma WinnerIsTerminal(s: State)
    requires Consistent(s) && s.winner != Empty
    ensures forall b, c :: !IsValidMove(s, b, c)
    ensures exists k :: 0 <= k < |Lines| && Complete(s.winners, Lines[k]) && s.winners[Lines[k].a] == s.winner
  {
  }

  // ---------------------------------------------------------------
  // Legal moves, draws and counts
  // ---------------------------------------------------------------

  /** While nobody has won, getValidMoves lists exactly the moves isValidMove accepts. */
  lemma LegalMovesAreValidMoves(s: State)
    requires Consistent(s) && s.winner == Empty
    ensures forall m: Move :: m in LegalMoves(s) <==> IsValidMove(s, m.board, m.cell)
  {
    forall m: Move | m in LegalMoves(s)
      ensures IsValidMove(s, m.board, m.cell)
    {
      assert !IsBoardFull(s, m.board);
      assert !Closed(s, m.board);
    }
  }

  lemma {:induction false} FullBoardHasNoMove(s: State, b: Index, n: nat)
    requires n <= 9 && Full(s.cells[b])
    ensures CellMoves(s, b, n) == []
  {
    if n > 0 {
      FullBoardHasNoMove(s, b, n - 1);
    }
  }

  lemma {:induction false} ClosedBoardsHaveNoMove(s: State, n: nat)
    requires n <= 9 && AllClosed(s)
    ensures BoardMoves(s, n) == []
  {
    if n > 0 {
      ClosedBoardsHaveNoMove(s, n - 1);
      if s.winners[n - 1] == Empty {
        assert Closed(s, n - 1);
        FullBoardHasNoMove(s, n - 1, 9);
      }
    }
  }

  /** A drawn position offers no legal move. */
  lemma DrawHasNoLegalMove(s: State)
    requires IsGameDraw(s)
    ensures LegalMoves(s) == []
  {
    if s.next.Some? && s.winners[s.next.value] == Empty {
      assert Closed(s, s.next.value);
      FullBoardHasNoMove(s, s.next.value, 9);
    } else {
      ClosedBoardsHaveNoMove(s, 9);
    }
  }

  /** An open position of a consistent game offers a legal move. */
  lemma OpenHasLegalMove(s: State)
    requires Consistent(s) && s.winner == Empty && !IsGameDraw(s)
    ensures |LegalMoves(s)| > 0
  {
    var b :| 0 <= b < 9 && !Closed(s, b);
    var f: Index := if s.next.Some? && s.winners[s.next.value] == Empty then s.next.value else b;
    assert !Closed(s, f);
    assert !Full(s.cells[f]);
    var c :| 0 <= c < 9 && s.cells[f][c] == Empty;
    assert Move(f, c) in LegalMoves(s);
  }

  /** While nobody has won, there is no legal move exactly when the game is drawn. */
  lemma NoLegalMoveIffDraw(s: State)
    requires Consistent(s) && s.winner == Empty
    ensures |LegalMoves(s)| == 0 <==> IsGameDraw(s)
  {
    if IsGameDraw(s) {
      DrawHasNoLegalMove(s);
    } else {
      OpenHasLegalMove(s);
    }
  }

  lemma {:induction false} NoActiveUpTo(s: State, n: nat)
    requires n <= 9
    ensures ActiveUpTo(s, n) == 0 <==> forall b :: 0 <= b < n ==> Closed(s, b)
  {
    if n > 0 {
      NoActiveUpTo(s, n - 1);
    }
  }

  /** A draw is a position without a winner and without an active board. */
  lemma DrawIffNoActiveBoard(s: State)
    ensures IsGameDraw(s) <==> s.winner == Empty && ActiveBoards(s) == 0
  {
    NoActiveUpTo(s, 9);
  }

  /** The sum of countEmptyCells over boards 0..n-1. */
  function EmptyUpTo(s: State, n: nat): nat
    requires n <= 9
  {
    if n == 0 then 0 else EmptyUpTo(s, n - 1) + EmptyCount(s, n - 1)
  }

  /** getTotalMoves and countEmptyCells together account for all 9n cells of boards 0..n-1. */
  lemma {:induction false} PlayedPlusEmptyUpTo(s: State, n: nat)
    requires n <= 9
    ensures PlayedUpTo(s, n) + EmptyUpTo(s, n) == 9 * n
  {
    if n > 0 {
      PlayedPlusEmptyUpTo(s, n - 1);
      OccupiedPlusEmpty(s.cells[n - 1], 9);
    }
  }

  /** getTotalMoves() plus the empty cells of all nine boards is 81. */
  lemma MovesPlayedPlusEmpty(s: State)
    ensures MovesPlayed(s) + EmptyUpTo(s, 9) == 81
  {
    PlayedPlusEmptyUpTo(s, 9);
  }

  /** isBoardFull and countEmptyCells agree. */
  lemma FullIffNoEmptyCount(s: State, b: int)
    ensures IsBoardFull(s, b) <==> 0 <= b < 9 && EmptyCount(s, b) == 0
  {
    if 0 <= b < 9 {
      FullIffNoEmptyCell(s.cells[b]);
    }
  }

  // ---------------------------------------------------------------
  // Scenarios
  // ---------------------------------------------------------------

  /** X opening in the centre of the centre board sends O to the centre board. */
  lemma CentreOpening()
    ensures Execute(Initial(), 4, 4, X).outcome == Continue(O, Some(4))
  {
    var s1 := Initial().(cells := Initial().cells[4 := EmptyCells[4 := X]]);
    assert FindLine(s1.cells[4]).None? by {
      assert forall k :: 0 <= k < |Lines| ==> !Complete(s1.cells[4], Lines[k]);
    }
    assert !IsBoardFull(s1, 4) by { assert s1.cells[4][0] == Empty; }
    assert !Closed(s1, 0) by { assert s1.cells[0][0] == Empty; }
  }
}
