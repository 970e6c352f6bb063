/**
 * The mutable game state of js/game.js: the 9x9 gameBoard, the nine
 * boardWinners, currentPlayer, nextBoard and gameWinner, updated in place.
 * Every method is proved to act as the corresponding definition of Rules
 * on the value State() that the arrays and fields hold.
 */
module Engine {
  import opened Wrappers
  import opened Board
  import Rules

  /** Row `b` of a 9x9 array. */
  function Row(a: array2<Mark>, b: Index): Cells
    reads a
    requires a.Length0 == 9 && a.Length1 == 9
  {
    seq(9, c requires 0 <= c < 9 && a.Length0 == 9 && a.Length1 == 9 reads a => a[b, c])
  }

  /** All nine rows of a 9x9 array. */
  function Rows(a: array2<Mark>): Rules.Grid
    reads a
    requires a.Length0 == 9 && a.Length1 == 9
  {
    seq(9, b requires 0 <= b < 9 && a.Length0 == 9 && a.Length1 == 9 reads a => Row(a, b))
  }

  class Game {
    var cells: array2<Mark>
    var winners: array<Mark>
    var current: Player
    var next: Option<Index>
    var winner: Mark

    ghost predicate Valid()
      reads this
    {
      cells.Length0 == 9 && cells.Length1 == 9 && winners.Length == 9
    }

    /** The nine cells of sub-board `b`. */
    function SubBoard(b: Index): Cells
      reads this, cells
      requires Valid()
    {
      Row(cells, b)
    }

    /** The game state the arrays and fields hold. */
    function State(): Rules.State
      reads this, cells, winners
      requires Valid()
    {
      Rules.State(Rows(cells), winners[..], current, next, winner)
    }

    /** The state is fresh and equal to the initial position. */
    constructor ()
      ensures Valid() && fresh(cells) && fresh(winners)
      ensures State() == Rules.Initial()
    {
      cells := new Mark[9, 9]((_, _) => Empty);
      winners := new Mark[9](_ => Empty);
      current, next, winner := X, None, Empty;
      new;
      InitialView();
    }

    /** resetGameState(): fresh empty arrays, X to move, any board, no winner. */
    method ResetGameState()
      modifies this
      ensures Valid() && fresh(cells) && fresh(winners)
      ensures State() == Rules.Initial()
    {
      cells := new Mark[9, 9]((_, _) => Empty);
      winners := new Mark[9](_ => Empty);
      current, next, winner := X, None, Empty;
      InitialView();
    }

    /** Empty arrays hold the initial position. */
    lemma InitialView()
      requires Valid()
      requires forall i, j :: 0 <= i < 9 && 0 <= j < 9 ==> cells[i, j] == Empty
      requires forall i :: 0 <= i < 9 ==> winners[i] == Empty
      requires current == X && next == None && winner == Empty
      ensures State() == Rules.Initial()
    {
      forall b | 0 <= b < 9
        ensures State().cells[b] == Rules.Initial().cells[b]
      {
        assert SubBoard(b) == EmptyCells;
      }
      assert State().cells == Rules.Initial().cells;
      assert winners[..] == EmptyCells;
    }

    /** gameBoard[b][c] = m, with the resulting state. */
    method SetCell(b: Index, c: Index, m: Mark)
      requires Valid()
      modifies cells
      ensures Valid()
      ensures State() == old(State()).(cells := old(State()).cells[b := old(State()).cells[b][c := m]])
    {
      ghost var s := State();
      cells[b, c] := m;
      assert SubBoard(b) == s.cells[b][c := m];
      forall i | 0 <= i < 9 && i != b
        ensures SubBoard(i) == s.cells[i]
      {
        assert forall j :: 0 <= j < 9 ==> SubBoard(i)[j] == s.cells[i][j];
      }
      assert State().cells == s.cells[b := s.cells[b][c := m]];
    }

    /** boardWinners[b] = m, with the resulting state. */
    method SetWinner(b: Index, m: Mark)
      requires Valid()
      modifies winners
      ensures Valid()
      ensures State() == old(State()).(winners := old(State()).winners[b := m])
    {
      winners[b] := m;
    }

    /**
     * executeMove(b, c, p): the new state and the returned outcome are those
     * of Rules.Execute on the old state.
     */
    method ExecuteMove(b: Index, c: Index, p: Player) returns (outcome: Rules.Outcome)
      requires Valid()
      modifies this, cells, winners
      ensures Valid() && cells == old(cells) && winners == old(winners)
      ensures Rules.Execute(old(State()), b, c, p) == Rules.Transition(State(), outcome)
    {
      ghost var s0 := State();
      SetCell(b, c, p);
      ghost var s1 := State();
      assert s1 == Rules.Place(s0, b, c, p);
      if winners[b] == Empty {
        var w := Owner(SubBoard(b));
        if w != Empty {
          SetWinner(b, w);
          assert Rules.Execute(s0, b, c, p) == Rules.RecordBoardWin(s1, b, w, c);
          ghost var s2 := State();
          var gameWin := FindLine(winners[..]);
          if gameWin.Some? {
            winner := gameWin.value.winner;
            assert State() == s2.(winner := gameWin.value.winner);
            return Rules.GameWon(gameWin.value.winner, gameWin.value.line);
          }
          assert Rules.Execute(s0, b, c, p) == Rules.AfterBoards(s2, c);
        } else {
          assert Rules.Execute(s0, b, c, p) == Rules.AfterBoards(s1, c);
        }
      } else {
        assert Rules.Execute(s0, b, c, p) == Rules.AfterBoards(s1, c);
      }
      outcome := HandOver(c);
    }

    /** The draw test and the hand-over of executeMove, as Rules.AfterBoards. */
    method HandOver(c: Index) returns (outcome: Rules.Outcome)
      requires Valid()
      modifies this
      ensures Valid() && cells == old(cells) && winners == old(winners)
      ensures Rules.AfterBoards(old(State()), c) == Rules.Transition(State(), outcome)
    {
      if winner == Empty && Rules.IsGameDraw(State()) {
        return Rules.GameDraw;
      }
      if winner == Empty && !Rules.IsGameDraw(State()) {
        ghost var mid := State();
        next := if winners[c] != Empty || Rules.IsBoardFull(State(), c) then None else Some(c);
        current := Other(current);
        assert State() == mid.(next := next, current := current);
        return Rules.Continue(current, next);
      }
      return Rules.Halted;
    }

    /** getValidMoves(): the legal moves, in ascending board-then-cell order. */
    method GetValidMoves() returns (moves: seq<Move>)
      requires Valid()
      ensures moves == Rules.LegalMoves(State())
    {
      ghost var s := State();
      moves := [];
      if next.Some? && winners[next.value] == Empty {
        var nb := next.value;
        for ci := 0 to 9
          invariant moves == Rules.CellMoves(s, nb, ci)
        {
          if cells[nb, ci] != Empty {
            assert s.cells[nb][ci] != Empty;
          } else {
            assert s.cells[nb][ci] == Empty;
            moves := moves + [Move(nb, ci)];
          }
        }
      } else {
        for bi := 0 to 9
          invariant moves == Rules.BoardMoves(s, bi)
        {
          if winners[bi] == Empty {
            ghost var before := moves;
            for ci := 0 to 9
              invariant moves == before + Rules.CellMoves(s, bi, ci)
            {
              if cells[bi, ci] != Empty {
                assert s.cells[bi][ci] != Empty;
              } else {
                assert s.cells[bi][ci] == Empty;
                moves := moves + [Move(bi, ci)];
              }
            }
          }
        }
      }
    }

    /** getTotalMoves(): the number of occupied cells. */
    method GetTotalMoves() returns (count: nat)
      requires Valid()
      ensures count == Rules.MovesPlayed(State())
    {
      ghost var s := State();
      count := 0;
      for bi := 0 to 9
        invariant count == Rules.PlayedUpTo(s, bi)
      {
        for ci := 0 to 9
          invariant count == Rules.PlayedUpTo(s, bi) + CountOccupied(s.cells[bi], ci)
        {
          if cells[bi, ci] != Empty {
            assert s.cells[bi][ci] != Empty;
            count := count + 1;
          } else {
            assert s.cells[bi][ci] == Empty;
          }
        }
      }
    }

    /** countEmptyCells(b): empty cells of sub-board `b`, 0 outside 0..8. */
    method CountEmptyCells(b: int) returns (count: nat)
      requires Valid()
      ensures count == Rules.EmptyCount(State(), b)
    {
      if b < 0 || b > 8 {
        return 0;
      }
      ghost var s := State();
      count := 0;
      for ci := 0 to 9
        invariant count == CountMark(s.cells[b], Empty, ci)
      {
        if cells[b, ci] == Empty {
          assert s.cells[b][ci] == Empty;
          count := count + 1;
        } else {
          assert s.cells[b][ci] != Empty;
        }
      }
    }

    /** countActiveBoards(): sub-boards that are neither won nor full. */
    method CountActiveBoards() returns (count: nat)
      requires Valid()
      ensures count == Rules.ActiveBoards(State())
    {
      count := 0;
      for bi := 0 to 9
        invariant count == Rules.ActiveUpTo(State(), bi)
      {
        if winners[bi] == Empty && !Rules.IsBoardFull(State(), bi) {
          count := count + 1;
        }
      }
    }
  }
}
