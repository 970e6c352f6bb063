/**
 * The computer opponent of js/core/ai.js. The AI always plays O against X.
 * The move finders and the difficulty tiers are defined here over a
 * Rules.State value. The methods at the end run the same finders on an
 * Engine.Game and are proved to agree with those definitions. Every call to
 * Math.random() takes its value from a Dice parameter, one field per call
 * site.
 */
module AI {
  import opened Wrappers
  import opened Board
  import opened Rules
  import Engine

  // ---------------------------------------------------------------
  // Randomness
  // ---------------------------------------------------------------

  /** A value of Math.random(): a real in [0, 1). */
  type Fraction = r: real | 0.0 <= r < 1.0

  /** Math.floor(u * n): an index into a list of `n` elements. */
  function Pick(u: Fraction, n: nat): (i: nat)
    requires n > 0
    ensures i < n
  {
    assert u * (n as real) < n as real by {
      assert (1.0 - u) * (n as real) > 0.0;
    }
    (u * (n as real)).Floor
  }

  /**
   * The random values the AI draws: `roll` for the 0.3 (easy) and 0.7
   * (medium) coin, `centre` for findCenterMove, `strategic` for the pick among
   * the top strategic moves, `any` for the final uniform pick.
   */
  datatype Dice = Dice(roll: Fraction, centre: Fraction, strategic: Fraction, any: Fraction)

  /** The aiDifficulty setting; Unknown is any other value. */
  datatype Difficulty = Easy | Medium | Hard | Unknown

  /**
   * What a tier returns: a move; NoMove for the `undefined` of indexing an
   * empty list; Crash for the TypeError that reading `evaluatedMoves[0].score`
   * on an empty list throws.
   */
  datatype Reply = Chose(move: Move) | NoMove | Crash

  /** validMoves[Math.floor(Math.random() * validMoves.length)] */
  function AnyMove(moves: seq<Move>, u: Fraction): (r: Reply)
    ensures r.Chose? <==> |moves| > 0
    ensures r.Chose? ==> r.move in moves
    ensures !r.Crash?
  {
    if |moves| == 0 then NoMove else Chose(moves[Pick(u, |moves|)])
  }

  // ---------------------------------------------------------------
  // Goals and the first move that reaches one
  // ---------------------------------------------------------------

  /** Winning a sub-board (findWinningMove, findBlockingMove) or the game (findGameWinningMove, findGameBlockingMove). */
  datatype Goal = TakeBoard(p: Player) | TakeGame(p: Player)

  /**
   * Playing `p` at `m` gives `m`'s sub-board the owner `p`; for TakeGame the
   * sub-board must have had no recorded winner and the first complete line of
   * the winners with that board given to `p` must belong to `p`.
   */
  predicate Achieves(s: State, m: Move, g: Goal) {
    var owner := Owner(s.cells[m.board][m.cell := g.p]);
    match g
    case TakeBoard(p) => owner == p
    case TakeGame(p) =>
      var gameWin := FindLine(s.winners[m.board := p]);
      s.winners[m.board] == Empty && owner == p && gameWin.Some? && gameWin.value.winner == p
  }

  /** The first move of `moves` that reaches `g`. */
  function FirstAchieving(s: State, moves: seq<Move>, g: Goal): (r: Option<Move>)
    ensures r.None? <==> forall m :: m in moves ==> !Achieves(s, m, g)
    ensures r.Some? ==> exists i :: 0 <= i < |moves| && moves[i] == r.value && Achieves(s, r.value, g)
                                    && forall j :: 0 <= j < i ==> !Achieves(s, moves[j], g)
    decreases |moves|
  {
    if |moves| == 0 then None
    else if Achieves(s, moves[0], g) then Some(moves[0])
    else
      var r := FirstAchieving(s, moves[1..], g);
      assert forall m :: m in moves ==> m == moves[0] || m in moves[1..];
      if r.Some? then
        var i :| 0 <= i < |moves| - 1 && moves[1..][i] == r.value && Achieves(s, r.value, g)
                 && forall j :: 0 <= j < i ==> !Achieves(s, moves[1..][j], g);
        assert moves[i + 1] == r.value;
        r
      else r
  }

  // ---------------------------------------------------------------
  // Sub-board probes (findWinningMove, findBlockingMove)
  // ---------------------------------------------------------------

  /** gameBoard[m.board][m.cell] = null: the undo of a sub-board probe. */
  function Undo(s: State, m: Move): State {
    s.(cells := s.cells[m.board := s.cells[m.board][m.cell := Empty]])
  }

  /** The move a probe found and the position it leaves behind. */
  datatype Probe = Probe(found: Option<Move>, after: State)

  /**
   * The loop of findWinningMove (p = O) and findBlockingMove (p = X): try
   * each move in turn, testing whether `p` there gives the sub-board to `p`,
   * then clear the cell again.
   */
  function ProbeBoards(s: State, moves: seq<Move>, p: Player): (r: Probe)
    ensures r.found.Some? ==> r.found.value in moves
    ensures r.after.winners == s.winners && r.after.current == s.current
            && r.after.next == s.next && r.after.winner == s.winner
    decreases |moves|
  {
    if |moves| == 0 then Probe(None, s)
    else
      var m := moves[0];
      if Achieves(s, m, TakeBoard(p)) then Probe(Some(m), Undo(s, m))
      else
        var r := ProbeBoards(Undo(s, m), moves[1..], p);
        assert r.found.Some? ==> r.found.value in moves;
        r
  }

  /** Every listed cell is empty, as in any list getValidMoves returns. */
  predicate EmptyTargets(s: State, moves: seq<Move>) {
    forall m :: m in moves ==> s.cells[m.board][m.cell] == Empty
  }

  /**
   * On empty cells writing null undoes the probe, so the position is left as
   * it was and the probe finds the first move that takes its sub-board.
   */
  lemma {:induction false} ProbeBoardsOnEmptyTargets(s: State, moves: seq<Move>, p: Player)
    requires EmptyTargets(s, moves)
    ensures ProbeBoards(s, moves, p) == Probe(FirstAchieving(s, moves, TakeBoard(p)), s)
    decreases |moves|
  {
    if |moves| > 0 {
      var m := moves[0];
      assert s.cells[m.board][m.cell := Empty] == s.cells[m.board];
      assert Undo(s, m) == s;
      assert EmptyTargets(s, moves[1..]) by {
        forall m' | m' in moves[1..] ensures s.cells[m'.board][m'.cell] == Empty {
          assert m' in moves;
        }
      }
      ProbeBoardsOnEmptyTargets(s, moves[1..], p);
    }
  }

  /** getValidMoves lists only empty cells. */
  lemma LegalMovesAreEmptyTargets(s: State)
    ensures EmptyTargets(s, LegalMoves(s))
  {
  }

  // ---------------------------------------------------------------
  // findCenterMove
  // ---------------------------------------------------------------

  function CentreMoves(moves: seq<Move>): (r: seq<Move>)
    ensures forall m :: m in r <==> m in moves && m.cell == 4
    decreases |moves|
  {
    if |moves| == 0 then []
    else (if moves[0].cell == 4 then [moves[0]] else []) + CentreMoves(moves[1..])
  }

  function CornerMoves(moves: seq<Move>): (r: seq<Move>)
    ensures forall m :: m in r <==> m in moves && IsCorner(m.cell)
    decreases |moves|
  {
    if |moves| == 0 then []
    else (if IsCorner(moves[0].cell) then [moves[0]] else []) + CornerMoves(moves[1..])
  }

  /**
   * findCenterMove: a random centre-cell move, else a random corner-cell
   * move, else none.
   */
  function CentreMove(moves: seq<Move>, u: Fraction): (r: Option<Move>)
    ensures r.Some? ==> r.value in moves
    ensures r.Some? ==> r.value.cell == 4 || (IsCorner(r.value.cell) && forall m :: m in moves ==> m.cell != 4)
    ensures r.None? <==> forall m :: m in moves ==> m.cell != 4 && !IsCorner(m.cell)
    ensures (exists m :: m in moves && m.cell == 4) ==> r.Some? && r.value.cell == 4
  {
    var centres := CentreMoves(moves);
    if |centres| > 0 then
      assert centres[Pick(u, |centres|)] in centres;
      Some(centres[Pick(u, |centres|)])
    else
      assert forall m :: m in moves ==> m.cell != 4;
      var corners := CornerMoves(moves);
      if |corners| > 0 then
        assert corners[Pick(u, |corners|)] in corners;
        Some(corners[Pick(u, |corners|)])
      else
        assert forall m :: m in moves ==> !IsCorner(m.cell);
        None
  }

  // ---------------------------------------------------------------
  // Scores
  // ---------------------------------------------------------------

  /**
   * The sub-boards other than `m.board` that are un-won, hold an O and where
   * X cannot complete a line, among boards 0..n-1 (evaluateMultipleThreats).
   */
  function ThreatsUpTo(s: State, m: Move, n: nat): (r: nat)
    requires n <= 9
    ensures r <= n - (if m.board < n then 1 else 0)
  {
    if n == 0 then 0
    else
      var b := n - 1;
      ThreatsUpTo(s, m, n - 1)
        + (if s.winners[b] == Empty && b != m.board && CountMark(s.cells[b], O, 9) > 0 && !CanWinBoard(s, b, X)
           then 1 else 0)
  }

  /** evaluateMultipleThreats(m): never more than the eight other sub-boards. */
  function Threats(s: State, m: Move): (r: nat)
    ensures r <= 8
  {
    ThreatsUpTo(s, m, 9)
  }

  /** countEmptyCells is at most 9, and at least 1 on a sub-board that is not full. */
  lemma OpenTargetHasEmptyCell(s: State, t: Index)
    ensures EmptyCount(s, t) <= 9
    ensures !IsBoardFull(s, t) ==> 1 <= EmptyCount(s, t)
  {
    FullIffNoEmptyCell(s.cells[t]);
  }

  /**
   * The score of findStrategicMove (medium): board weight 10 (centre) or 5
   * (corner), cell weight 8 or 4, then -20 for sending X to a won or full
   * board, otherwise -15 if X can win there and 2 per occupied cell there.
   */
  function StrategicScore(s: State, m: Move): (r: int)
    ensures -20 <= r <= 34
    ensures s.winners[m.cell] != Empty || IsBoardFull(s, m.cell) ==> r <= -2
    ensures !(s.winners[m.cell] != Empty || IsBoardFull(s, m.cell)) ==> -15 <= r
  {
    OpenTargetHasEmptyCell(s, m.cell);
    var t := m.cell;
    (if m.board == 4 then 10 else 0) + (if IsCorner(m.board) then 5 else 0)
    + (if m.cell == 4 then 8 else 0) + (if IsCorner(m.cell) then 4 else 0)
    + if s.winners[t] != Empty || IsBoardFull(s, t) then -20
      else (if CanWinBoard(s, t, X) then -15 else 0) + (9 - EmptyCount(s, t)) * 2
  }

  /**
   * The score of findBestStrategicMove (hard): board weight 15 or 8, cell
   * weight 10 or 5, then -25 for sending X to a won or full board, otherwise
   * -20 if X can win there, +15 if O can win there and 3 per occupied cell
   * there; plus 5 per threat of evaluateMultipleThreats.
   */
  function HardScore(s: State, m: Move): (r: int)
    ensures -25 <= r <= 104
    ensures s.winners[m.cell] != Empty || IsBoardFull(s, m.cell) ==> r <= 40
    ensures !(s.winners[m.cell] != Empty || IsBoardFull(s, m.cell)) ==> -20 <= r
  {
    OpenTargetHasEmptyCell(s, m.cell);
    var t := m.cell;
    (if m.board == 4 then 15 else 0) + (if IsCorner(m.board) then 8 else 0)
    + (if m.cell == 4 then 10 else 0) + (if IsCorner(m.cell) then 5 else 0)
    + (if s.winners[t] != Empty || IsBoardFull(s, t) then -25
       else (if CanWinBoard(s, t, X) then -20 else 0) + (if CanWinBoard(s, t, O) then 15 else 0)
            + (9 - EmptyCount(s, t)) * 3)
    + Threats(s, m) * 5
  }

  datatype Evaluation = Strategic | BestStrategic

  function Score(e: Evaluation, s: State, m: Move): int {
    match e
    case Strategic => StrategicScore(s, m)
    case BestStrategic => HardScore(s, m)
  }

  /** A move with its score ({move, score}). */
  datatype Scored = Scored(move: Move, score: int)

  /** validMoves.map(move => ({move, score})) */
  function ScoreMoves(e: Evaluation, s: State, moves: seq<Move>): (r: seq<Scored>)
    ensures forall x: Scored :: x in r <==> x.move in moves && x.score == Score(e, s, x.move)
  {
    var r := seq(|moves|, i requires 0 <= i < |moves| => Scored(moves[i], Score(e, s, moves[i])));
    assert forall x: Scored :: x.move in moves && x.score == Score(e, s, x.move) ==> x in r by {
      forall x: Scored | x.move in moves && x.score == Score(e, s, x.move) ensures x in r {
        var i :| 0 <= i < |moves| && moves[i] == x.move;
        assert r[i] == x;
      }
    }
    r
  }

  // ---------------------------------------------------------------
  // The stable sort by descending score
  // ---------------------------------------------------------------

  predicate SortedDesc(xs: seq<Scored>) {
    forall i, j :: 0 <= i < j < |xs| ==> xs[i].score >= xs[j].score
  }

  /** Place `x` before the first element whose score is not above its own. */
  function Insert(x: Scored, ys: seq<Scored>): (r: seq<Scored>)
    ensures multiset(r) == multiset(ys) + multiset{x}
    ensures SortedDesc(ys) ==> SortedDesc(r)
    decreases |ys|
  {
    if |ys| == 0 || x.score >= ys[0].score then [x] + ys
    else
      var rest := Insert(x, ys[1..]);
      assert ys == [ys[0]] + ys[1..];
      assert SortedDesc(ys) ==> forall k :: 0 <= k < |rest| ==> ys[0].score >= rest[k].score by {
        if SortedDesc(ys) {
          forall k | 0 <= k < |rest| ensures ys[0].score >= rest[k].score {
            assert rest[k] in multiset(rest);
            if rest[k] != x {
              assert rest[k] in multiset(ys[1..]);
              assert rest[k] in ys[1..];
            }
          }
        }
      }
      [ys[0]] + rest
  }

  /**
   * Array.prototype.sort((a, b) => b.score - a.score): a stable sort by
   * descending score, as the ECMAScript specification requires since 2019.
   */
  function SortDesc(xs: seq<Scored>): (r: seq<Scored>)
    ensures multiset(r) == multiset(xs)
    ensures SortedDesc(r)
    decreases |xs|
  {
    if |xs| == 0 then []
    else
      assert xs == [xs[0]] + xs[1..];
      Insert(xs[0], SortDesc(xs[1..]))
  }

  /** The elements of score `v`, in order (filter(m => m.score === v)). */
  function WithScore(xs: seq<Scored>, v: int): (r: seq<Scored>)
    ensures forall x :: x in r <==> x in xs && x.score == v
    decreases |xs|
  {
    if |xs| == 0 then []
    else (if xs[0].score == v then [xs[0]] else []) + WithScore(xs[1..], v)
  }

  /** The elements of score at least `v`, in order (filter(m => m.score >= v)). */
  function ScoreAtLeast(xs: seq<Scored>, v: int): (r: seq<Scored>)
    ensures forall x :: x in r <==> x in xs && x.score >= v
    decreases |xs|
  {
    if |xs| == 0 then []
    else (if xs[0].score >= v then [xs[0]] else []) + ScoreAtLeast(xs[1..], v)
  }

  /** filter on a list with a known head. */
  lemma WithScoreCons(a: Scored, t: seq<Scored>, v: int)
    ensures WithScore([a] + t, v) == (if a.score == v then [a] else []) + WithScore(t, v)
  {
    assert ([a] + t)[1..] == t;
  }

  /** Inserting below the head keeps the head in front. */
  lemma InsertBelowHead(x: Scored, ys: seq<Scored>)
    requires |ys| > 0 && x.score < ys[0].score
    ensures Insert(x, ys) == [ys[0]] + Insert(x, ys[1..])
  {
  }

  /** Two prefixes of which one is empty commute. */
  lemma SwapEmptyPrefix(h0: seq<Scored>, hx: seq<Scored>, t: seq<Scored>)
    requires h0 == [] || hx == []
    ensures h0 + (hx + t) == hx + (h0 + t)
  {
    if h0 == [] {
      assert h0 + (hx + t) == hx + t == hx + (h0 + t);
    } else {
      assert h0 + (hx + t) == h0 + t == hx + (h0 + t);
    }
  }

  lemma {:induction false} InsertKeepsScoreClass(x: Scored, ys: seq<Scored>, v: int)
    ensures WithScore(Insert(x, ys), v) == (if x.score == v then [x] else []) + WithScore(ys, v)
    decreases |ys|
  {
    if |ys| == 0 || x.score >= ys[0].score {
      WithScoreCons(x, ys, v);
    } else {
      var hx: seq<Scored> := if x.score == v then [x] else [];
      var h0: seq<Scored> := if ys[0].score == v then [ys[0]] else [];
      InsertBelowHead(x, ys);
      InsertKeepsScoreClass(x, ys[1..], v);
      WithScoreCons(ys[0], Insert(x, ys[1..]), v);
      // x scores below ys[0], so at most one of the two heads has score v.
      SwapEmptyPrefix(h0, hx, WithScore(ys[1..], v));
    }
  }

  /** The sort is stable: the moves of any one score keep their original order. */
  lemma {:induction false} SortKeepsScoreClass(xs: seq<Scored>, v: int)
    ensures WithScore(SortDesc(xs), v) == WithScore(xs, v)
    decreases |xs|
  {
    if |xs| > 0 {
      SortKeepsScoreClass(xs[1..], v);
      InsertKeepsScoreClass(xs[0], SortDesc(xs[1..]), v);
    }
  }

  /** The head of the sorted list carries the largest score. */
  lemma SortedHeadIsMax(xs: seq<Scored>)
    requires |xs| > 0
    ensures SortDesc(xs)[0] in xs
    ensures forall x :: x in xs ==> x.score <= SortDesc(xs)[0].score
  {
    var r := SortDesc(xs);
    assert r[0] in multiset(xs);
    forall x | x in xs ensures x.score <= r[0].score {
      assert x in multiset(r);
      var k :| 0 <= k < |r| && r[k] == x;
    }
  }

  // ---------------------------------------------------------------
  // findStrategicMove and findBestStrategicMove
  // ---------------------------------------------------------------

  /**
   * An entry of the sorted scores is a listed move with its own score, and
   * no listed move scores above the head.
   */
  lemma SortedScoresEntry(e: Evaluation, s: State, moves: seq<Move>, x: Scored)
    requires x in SortDesc(ScoreMoves(e, s, moves))
    ensures x.move in moves && x.score == Score(e, s, x.move)
    ensures forall m :: m in moves ==> Score(e, s, m) <= SortDesc(ScoreMoves(e, s, moves))[0].score
  {
    var scored := ScoreMoves(e, s, moves);
    assert x in multiset(SortDesc(scored));
    assert x in scored;
    SortedHeadIsMax(scored);
    forall m | m in moves ensures Score(e, s, m) <= SortDesc(scored)[0].score {
      assert Scored(m, Score(e, s, m)) in scored;
    }
  }

  /**
   * findStrategicMove: a random move among those sharing the top score, or
   * none for an empty list. The move chosen has the largest score.
   */
  function StrategicMove(s: State, moves: seq<Move>, u: Fraction): (r: Option<Move>)
    ensures r.Some? <==> |moves| > 0
    ensures r.Some? ==> r.value in moves
    ensures r.Some? ==> forall m :: m in moves ==> Score(Strategic, s, m) <= Score(Strategic, s, r.value)
  {
    var sorted := SortDesc(ScoreMoves(Strategic, s, moves));
    if |sorted| == 0 then None
    else
      var top := WithScore(sorted, sorted[0].score);
      assert sorted[0] in top;
      var pick := top[Pick(u, |top|)];
      assert pick in top;
      SortedScoresEntry(Strategic, s, moves, pick);
      Some(pick.move)
  }

  /**
   * The moves sharing the top score are those of largest score in their
   * original order, so the sort only matters through its stability.
   */
  lemma StrategicMoveKeepsOrder(s: State, moves: seq<Move>, u: Fraction)
    requires |moves| > 0
    ensures var scored := ScoreMoves(Strategic, s, moves);
      var top := WithScore(scored, SortDesc(scored)[0].score);
      |top| > 0 && StrategicMove(s, moves, u) == Some(top[Pick(u, |top|)].move)
  {
    var scored := ScoreMoves(Strategic, s, moves);
    SortKeepsScoreClass(scored, SortDesc(scored)[0].score);
    assert SortDesc(scored)[0] in WithScore(SortDesc(scored), SortDesc(scored)[0].score);
  }

  /**
   * findBestStrategicMove: a random move among the sorted moves scoring at
   * most five below the top. The chosen move is within five points of the
   * best; an empty list makes the source throw.
   */
  function BestStrategicMove(s: State, moves: seq<Move>, u: Fraction): (r: Reply)
    ensures r.Crash? <==> |moves| == 0
    ensures !r.NoMove?
    ensures r.Chose? ==> r.move in moves
    ensures r.Chose? ==> forall m :: m in moves ==> Score(BestStrategic, s, m) - 5 <= Score(BestStrategic, s, r.move)
  {
    var sorted := SortDesc(ScoreMoves(BestStrategic, s, moves));
    if |sorted| == 0 then Crash
    else
      var top := ScoreAtLeast(sorted, sorted[0].score - 5);
      assert sorted[0] in top;
      var pick := top[Pick(u, |top|)];
      assert pick in top;
      SortedScoresEntry(BestStrategic, s, moves, pick);
      Chose(pick.move)
  }

  // ---------------------------------------------------------------
  // The difficulty tiers
  // ---------------------------------------------------------------

  /** The reply of a tier and the position the sub-board probes leave behind. */
  datatype Decision = Decision(reply: Reply, after: State)

  /** getEasyMove: with probability 0.3 block X's sub-board win, otherwise a random move. */
  function EasyMove(s: State, moves: seq<Move>, d: Dice): (r: Decision)
    ensures r.reply.Chose? <==> |moves| > 0
    ensures r.reply.Chose? ==> r.reply.move in moves
    ensures !r.reply.Crash?
  {
    var block := if d.roll < 0.3 then ProbeBoards(s, moves, X) else Probe(None, s);
    if block.found.Some? then Decision(Chose(block.found.value), block.after)
    else Decision(AnyMove(moves, d.any), block.after)
  }

  /**
   * getMediumMove: take a sub-board, else block X's sub-board win, else with
   * probability 0.7 a centre or corner cell, else the best-scored move.
   */
  function MediumMove(s: State, moves: seq<Move>, d: Dice): (r: Decision)
    ensures r.reply.Chose? <==> |moves| > 0
    ensures r.reply.Chose? ==> r.reply.move in moves
    ensures !r.reply.Crash?
  {
    var win := ProbeBoards(s, moves, O);
    if win.found.Some? then Decision(Chose(win.found.value), win.after)
    else
      var block := ProbeBoards(win.after, moves, X);
      if block.found.Some? then Decision(Chose(block.found.value), block.after)
      else
        var centre := CentreMove(moves, d.centre);
        if centre.Some? && d.roll < 0.7 then Decision(Chose(centre.value), block.after)
        else
          match StrategicMove(block.after, moves, d.strategic)
          case Some(m) => Decision(Chose(m), block.after)
          case None => Decision(AnyMove(moves, d.any), block.after)
  }

  /**
   * getHardMove: win the game, else block X's game win, else a top strategic
   * move. The `|| validMoves[0]` fallback of the source is unreachable, since
   * findBestStrategicMove either returns a move or throws.
   */
  function HardMove(s: State, moves: seq<Move>, d: Dice): (r: Reply)
    ensures r.Crash? <==> |moves| == 0
    ensures !r.NoMove?
    ensures r.Chose? ==> r.move in moves
    ensures (exists m :: m in moves && Achieves(s, m, TakeGame(O))) ==>
              r.Chose? && Achieves(s, r.move, TakeGame(O))
    ensures (forall m :: m in moves ==> !Achieves(s, m, TakeGame(O)))
              && (exists m :: m in moves && Achieves(s, m, TakeGame(X))) ==>
              r.Chose? && Achieves(s, r.move, TakeGame(X))
  {
    match FirstAchieving(s, moves, TakeGame(O))
    case Some(m) => Chose(m)
    case None =>
      match FirstAchieving(s, moves, TakeGame(X))
      case Some(m) => Chose(m)
      case None => BestStrategicMove(s, moves, d.strategic)
  }

  /** selectAIMove: the tier of the difficulty, or a random move for any other setting. */
  function AIMove(s: State, moves: seq<Move>, level: Difficulty, d: Dice): (r: Decision)
    ensures r.reply.Chose? <==> |moves| > 0
    ensures r.reply.Chose? ==> r.reply.move in moves
    ensures r.reply.Crash? <==> |moves| == 0 && level == Hard
  {
    match level
    case Easy => EasyMove(s, moves, d)
    case Medium => MediumMove(s, moves, d)
    case Hard => Decision(HardMove(s, moves, d), s)
    case Unknown => Decision(AnyMove(moves, d.any), s)
  }

  // ---------------------------------------------------------------
  // Properties of the tiers on valid-move lists
  // ---------------------------------------------------------------

  /** With the coin under 0.3, easy blocks the first sub-board X could take. */
  lemma EasyBlocks(s: State, moves: seq<Move>, d: Dice)
    requires EmptyTargets(s, moves)
    ensures EasyMove(s, moves, d).after == s
    ensures d.roll < 0.3 && FirstAchieving(s, moves, TakeBoard(X)).Some? ==>
              EasyMove(s, moves, d).reply == Chose(FirstAchieving(s, moves, TakeBoard(X)).value)
  {
    ProbeBoardsOnEmptyTargets(s, moves, X);
  }

  /**
   * Medium takes the first sub-board O can win; without one it blocks the
   * first sub-board X could win. The position is left unchanged.
   */
  lemma MediumPriorities(s: State, moves: seq<Move>, d: Dice)
    requires EmptyTargets(s, moves)
    ensures MediumMove(s, moves, d).after == s
    ensures FirstAchieving(s, moves, TakeBoard(O)).Some? ==>
              MediumMove(s, moves, d).reply == Chose(FirstAchieving(s, moves, TakeBoard(O)).value)
    ensures FirstAchieving(s, moves, TakeBoard(O)).None? && FirstAchieving(s, moves, TakeBoard(X)).Some? ==>
              MediumMove(s, moves, d).reply == Chose(FirstAchieving(s, moves, TakeBoard(X)).value)
  {
    ProbeBoardsOnEmptyTargets(s, moves, O);
    ProbeBoardsOnEmptyTargets(s, moves, X);
  }

  /**
   * On the list getValidMoves returns, every tier leaves the position as it
   * found it, and in a consistent open game the chosen move is one
   * isValidMove accepts.
   */
  lemma AIMoveIsValid(s: State, level: Difficulty, d: Dice)
    requires Consistent(s) && s.winner == Empty
    ensures AIMove(s, LegalMoves(s), level, d).after == s
    ensures var r := AIMove(s, LegalMoves(s), level, d).reply;
      r.Chose? ==> IsValidMove(s, r.move.board, r.move.cell)
  {
    LegalMovesAreEmptyTargets(s);
    LegalMovesAreValidMoves(s);
    EasyBlocks(s, LegalMoves(s), d);
    MediumPriorities(s, LegalMoves(s), d);
  }

  // ---------------------------------------------------------------
  // The finders on the mutable game
  // ---------------------------------------------------------------

  /** One probe of findWinningMove and findBlockingMove: write `p`, read the owner, write null. */
  method ProbeBoardCell(g: Engine.Game, m: Move, p: Player) returns (isWin: bool)
    requires g.Valid()
    modifies g.cells
    ensures g.Valid()
    ensures isWin == Achieves(old(g.State()), m, TakeBoard(p))
    ensures g.State() == Undo(old(g.State()), m)
  {
    ghost var s := g.State();
    g.SetCell(m.board, m.cell, p);
    assert g.SubBoard(m.board) == g.State().cells[m.board];
    isWin := Owner(g.SubBoard(m.board)) == p;
    g.SetCell(m.board, m.cell, Empty);
    assert s.cells[m.board][m.cell := p][m.cell := Empty] == s.cells[m.board][m.cell := Empty];
  }

  /** The loop of findWinningMove and findBlockingMove on the game's arrays. */
  method FindBoardMove(g: Engine.Game, moves: seq<Move>, p: Player) returns (found: Option<Move>)
    requires g.Valid()
    modifies g.cells
    ensures g.Valid()
    ensures Probe(found, g.State()) == ProbeBoards(old(g.State()), moves, p)
  {
    for i := 0 to |moves|
      invariant g.Valid()
      invariant ProbeBoards(g.State(), moves[i..], p) == ProbeBoards(old(g.State()), moves, p)
    {
      var m := moves[i];
      assert moves[i..][1..] == moves[i + 1..];
      var isWin := ProbeBoardCell(g, m, p);
      if isWin {
        return Some(m);
      }
    }
    return None;
  }

  /** findWinningMove: the first move completing a sub-board line for O. */
  method FindWinningMove(g: Engine.Game, moves: seq<Move>) returns (found: Option<Move>)
    requires g.Valid()
    modifies g.cells
    ensures g.Valid()
    ensures Probe(found, g.State()) == ProbeBoards(old(g.State()), moves, O)
  {
    found := FindBoardMove(g, moves, O);
  }

  /** findBlockingMove: the first move completing a sub-board line for X. */
  method FindBlockingMove(g: Engine.Game, moves: seq<Move>) returns (found: Option<Move>)
    requires g.Valid()
    modifies g.cells
    ensures g.Valid()
    ensures Probe(found, g.State()) == ProbeBoards(old(g.State()), moves, X)
  {
    found := FindBoardMove(g, moves, X);
  }

  /**
   * The super-board test of a game probe: boardWinners[b] = p, run
   * checkGameWinner, and put the old winner back.
   */
  method TestGameWin(g: Engine.Game, b: Index, p: Player) returns (isWin: bool)
    requires g.Valid()
    modifies g.winners
    ensures g.Valid() && g.State() == old(g.State())
    ensures var gameWin := FindLine(old(g.State()).winners[b := p]);
      isWin == (gameWin.Some? && gameWin.value.winner == p)
  {
    ghost var s := g.State();
    var originalWinner := g.winners[b];
    g.SetWinner(b, p);
    assert g.winners[..] == s.winners[b := p];
    var gameWin := FindLine(g.winners[..]);
    isWin := gameWin.Some? && gameWin.value.winner == p;
    g.SetWinner(b, originalWinner);
    assert s.winners[b := p][b := originalWinner] == s.winners;
  }

  /**
   * One probe of findGameWinningMove and findGameBlockingMove: simulate `p`
   * at `m`, record the sub-board win, test the super-board, and restore the
   * original cell and winner.
   */
  method ProbeGameCell(g: Engine.Game, m: Move, p: Player) returns (isWin: bool)
    requires g.Valid()
    modifies g.cells, g.winners
    ensures g.Valid()
    ensures isWin == Achieves(old(g.State()), m, TakeGame(p))
    ensures g.State() == old(g.State())
  {
    ghost var s := g.State();
    var originalValue := g.cells[m.board, m.cell];
    assert originalValue == s.cells[m.board][m.cell];
    ghost var placed := s.cells[m.board][m.cell := p];
    g.SetCell(m.board, m.cell, p);
    ghost var s1 := g.State();
    assert s1 == s.(cells := s.cells[m.board := placed]);
    assert g.SubBoard(m.board) == s1.cells[m.board] == placed;
    isWin := false;
    if g.winners[m.board] == Empty && Owner(g.SubBoard(m.board)) == p {
      isWin := TestGameWin(g, m.board, p);
    }
    g.SetCell(m.board, m.cell, originalValue);
    assert placed[m.cell := originalValue] == s.cells[m.board];
    assert s.cells[m.board := s.cells[m.board]] == s.cells;
  }

  /** The loop of findGameWinningMove and findGameBlockingMove on the game's arrays. */
  method FindGameMove(g: Engine.Game, moves: seq<Move>, p: Player) returns (found: Option<Move>)
    requires g.Valid()
    modifies g.cells, g.winners
    ensures g.Valid()
    ensures g.State() == old(g.State())
    ensures found == FirstAchieving(old(g.State()), moves, TakeGame(p))
  {
    ghost var s := g.State();
    for i := 0 to |moves|
      invariant g.Valid() && g.State() == s
      invariant FirstAchieving(s, moves[i..], TakeGame(p)) == FirstAchieving(s, moves, TakeGame(p))
    {
      var m := moves[i];
      assert moves[i..][1..] == moves[i + 1..];
      var isWin := ProbeGameCell(g, m, p);
      if isWin {
        return Some(m);
      }
    }
    return None;
  }

  /** findGameWinningMove */
  method FindGameWinningMove(g: Engine.Game, moves: seq<Move>) returns (found: Option<Move>)
    requires g.Valid()
    modifies g.cells, g.winners
    ensures g.Valid() && g.State() == old(g.State())
    ensures found == FirstAchieving(old(g.State()), moves, TakeGame(O))
  {
    found := FindGameMove(g, moves, O);
  }

  /** findGameBlockingMove */
  method FindGameBlockingMove(g: Engine.Game, moves: seq<Move>) returns (found: Option<Move>)
    requires g.Valid()
    modifies g.cells, g.winners
    ensures g.Valid() && g.State() == old(g.State())
    ensures found == FirstAchieving(old(g.State()), moves, TakeGame(X))
  {
    found := FindGameMove(g, moves, X);
  }

  /** evaluateMultipleThreats(m) on the game's arrays. */
  method EvaluateMultipleThreats(g: Engine.Game, m: Move) returns (threats: nat)
    requires g.Valid()
    ensures threats == Threats(g.State(), m)
    ensures threats <= 8
  {
    ghost var s := g.State();
    threats := 0;
    for b := 0 to 9
      invariant threats == ThreatsUpTo(s, m, b)
    {
      if g.winners[b] != Empty || b == m.board {
        continue;
      }
      var ourPieces := 0;
      for c := 0 to 9
        invariant ourPieces == CountMark(s.cells[b], O, c)
      {
        if g.cells[b, c] == O {
          assert s.cells[b][c] == O;
          ourPieces := ourPieces + 1;
        } else {
          assert s.cells[b][c] != O;
        }
      }
      if ourPieces > 0 && !CanWinBoard(g.State(), b, X) {
        threats := threats + 1;
      }
    }
  }

  // ---------------------------------------------------------------
  // The tiers on the mutable game
  // ---------------------------------------------------------------

  method GetEasyMove(g: Engine.Game, moves: seq<Move>, d: Dice) returns (r: Reply)
    requires g.Valid()
    modifies g.cells
    ensures g.Valid()
    ensures Decision(r, g.State()) == EasyMove(old(g.State()), moves, d)
  {
    if d.roll < 0.3 {
      var blocking := FindBlockingMove(g, moves);
      if blocking.Some? {
        return Chose(blocking.value);
      }
    }
    return AnyMove(moves, d.any);
  }

  method GetMediumMove(g: Engine.Game, moves: seq<Move>, d: Dice) returns (r: Reply)
    requires g.Valid()
    modifies g.cells
    ensures g.Valid()
    ensures Decision(r, g.State()) == MediumMove(old(g.State()), moves, d)
  {
    var winning := FindWinningMove(g, moves);
    if winning.Some? {
      return Chose(winning.value);
    }
    var blocking := FindBlockingMove(g, moves);
    if blocking.Some? {
      return Chose(blocking.value);
    }
    var centre := CentreMove(moves, d.centre);
    if centre.Some? && d.roll < 0.7 {
      return Chose(centre.value);
    }
    var strategic := StrategicMove(g.State(), moves, d.strategic);
    if strategic.Some? {
      return Chose(strategic.value);
    }
    return AnyMove(moves, d.any);
  }

  method GetHardMove(g: Engine.Game, moves: seq<Move>, d: Dice) returns (r: Reply)
    requires g.Valid()
    modifies g.cells, g.winners
    ensures g.Valid() && g.State() == old(g.State())
    ensures r == HardMove(old(g.State()), moves, d)
  {
    var gameWinning := FindGameWinningMove(g, moves);
    if gameWinning.Some? {
      return Chose(gameWinning.value);
    }
    var gameBlocking := FindGameBlockingMove(g, moves);
    if gameBlocking.Some? {
      return Chose(gameBlocking.value);
    }
    return BestStrategicMove(g.State(), moves, d.strategic);
  }

  method SelectAIMove(g: Engine.Game, moves: seq<Move>, level: Difficulty, d: Dice) returns (r: Reply)
    requires g.Valid()
    modifies g.cells, g.winners
    ensures g.Valid()
    ensures Decision(r, g.State()) == AIMove(old(g.State()), moves, level, d)
  {
    match level
    case Easy => r := GetEasyMove(g, moves, d);
    case Medium => r := GetMediumMove(g, moves, d);
    case Hard => r := GetHardMove(g, moves, d);
    case Unknown => r := AnyMove(moves, d.any);
  }
}
