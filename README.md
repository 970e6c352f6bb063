# Ultimate tic-tac-toe: rule engine and AI

This project models the core of a browser game of ultimate tic-tac-toe and
proves properties of that model. The game has nine 3x3 sub-boards inside a 3x3
super-board. The cell a player marks decides which sub-board the opponent must
play in next. You win a sub-board with three in a line, and you win the game
with three won sub-boards in a line.

- `board.dfy` (module `Board`) holds marks, indices, moves and the eight
  lines, tried in the order rows, columns, diagonals. It also has the
  line-owner test shared by `checkBoardWinner` and `checkGameWinner`, the
  threat test of `canWinBoard`, and cell counts.
- `rules.dfy` (module `Rules`) is the rule engine of `js/game.js` over an
  explicit game-state value:
  - `isValidMove` and `executeMove` with its three outcomes;
  - draw and full-board detection;
  - the legal-move enumeration of `getValidMoves`;
  - the counting queries.

  It proves the game's invariants: cells are written once, sub-board winners
  never revert, the forced-board rule holds, and a winner is terminal.
- `engine.dfy` (module `Engine`) is the mutable state of `js/game.js`. The
  class `Game` holds `gameBoard` as a 9x9 array, `boardWinners` as an array,
  and `currentPlayer`, `nextBoard` and `gameWinner` as fields. Each method
  updates the arrays in place, as the source does. Each is proved to do
  exactly what the matching `Rules` definition does to the state the arrays
  hold.
- `ai.dfy` (module `AI`) is the computer opponent of `js/core/ai.js`, which
  always plays O:
  - the finders that simulate a move in the arrays and undo it;
  - the centre/corner preference;
  - the two scoring functions with their stable descending sort;
  - the three difficulty tiers.

  The tiers are defined over a state value. The methods that probe the real
  arrays are proved equal to those definitions. Each call to `Math.random()`
  reads one field of a `Dice` value (a real in [0, 1)). The index is
  `Floor(u * n)`, as the source computes it, over exact reals.
- `wrappers.dfy` holds the `Option` type that stands for `null`.

Three behaviours of the code that the model keeps:

- `getValidMoves` (js/game.js:217-241) does not look at `gameWinner`. After a
  game win it can still list moves. While nobody has won, there is no legal
  move exactly when the game is drawn (`Rules.NoLegalMoveIffDraw`).
- `getValidMoves` restricts moves to the forced board whenever that board is
  un-won, even if it is full, and then the list is empty. `executeMove` never
  forces a full board, so in play this does not arise
  (`Rules.ExecutePreservesConsistent`).
- The tiers (js/core/ai.js:36-78) read the global game state as well as the
  list they are given. On an empty list the easy and medium tiers and the
  default branch return `undefined` (`AI.NoMove`), and the hard tier throws a
  `TypeError` when it reads `evaluatedMoves[0].score` (`AI.Crash`).

## Model

| member | source | states |
|---|---|---|
| `Board.Other` | js/game.js:112 | the player to move next differs from the one who moved |
| `Board.FirstComplete` | js/game.js:141-146 | the index found is a complete line and no earlier line is complete; none is found only when no line at or after the start is complete |
| `Board.FindLine` | js/game.js:161-171 | no result exactly when none of the 8 lines is complete; otherwise the result is the first complete line in row, column, diagonal order, and its winner is the mark on that line |
| `Board.Owner` | js/game.js:131-149 | checkBoardWinner is non-null exactly when some line holds three equal non-empty marks, and then it is that line's mark |
| `Board.LineCellsDistinct` | js/game.js:135-139 | each of the 8 lines names three distinct cells |
| `Board.CanWinIffCompletingCell` | js/game.js:272-293 | "two of p and one empty on a line" holds exactly when some empty cell completes a line for p |
| `Board.FullIffNoEmptyCell` | js/game.js:177-180 | a sub-board is full exactly when it has no empty cell |
| `Board.OccupiedPlusEmpty` | js/game.js:298-306 | occupied and empty cells of a sub-board add up to the cells counted |
| `Board.PlaceAddsOccupied` | js/game.js:83 | writing a mark into an empty cell adds one occupied cell |
| `Rules.Initial` | js/game.js:22-29 | the reset position: empty boards, no winners, X to move, any board, no game winner; proved consistent in `Rules.InitialConsistent` |
| `Rules.CheckBoardWinner` | js/game.js:131-149 | checkBoardWinner(b) as the owner of sub-board b; its meaning is the contract of `Board.Owner` |
| `Rules.CheckGameWinner` | js/game.js:154-172 | checkGameWinner() as the first complete line of boardWinners; its meaning is the contract of `Board.FindLine` |
| `Rules.IsBoardFull` | js/game.js:177-180 | false outside 0..8, otherwise every cell occupied; tied to countEmptyCells by `Rules.FullIffNoEmptyCount` |
| `Rules.IsGameDraw` | js/game.js:185-193 | every board won or full and no game winner; tied to countActiveBoards by `Rules.DrawIffNoActiveBoard` and to the legal moves by `Rules.NoLegalMoveIffDraw` |
| `Rules.IsValidMove` | js/game.js:57-76 | the five rejections of isValidMove in their order; proved equal to membership in getValidMoves by `Rules.LegalMovesAreValidMoves` and closed by a winner in `Rules.WinnerIsTerminal` |
| `Rules.CanWinBoard` | js/game.js:272-293 | false outside 0..8, otherwise a line with two of the player and one empty cell; `Board.CanWinIffCompletingCell` shows this is a cell that completes a line |
| `Rules.EmptyCount` | js/game.js:298-306 | 0 outside 0..8, otherwise the empty cells of the board; computed by `Engine.Game.CountEmptyCells` |
| `Rules.ActiveBoards` | js/game.js:311-319 | the boards neither won nor full; computed by `Engine.Game.CountActiveBoards` |
| `Rules.MovesPlayed` | js/game.js:246-256 | the occupied cells of all boards; computed by `Engine.Game.GetTotalMoves`, raised by one per valid move in `Rules.ExecuteCountsOneMove` |
| `Rules.Execute` | js/game.js:81-122 | executeMove: write the mark, record a new sub-board winner, test the super-board, then draw or hand-over; its properties are the `Rules.Execute*` lemmas |
| `Rules.RecordBoardWin` | js/game.js:89-100 | boardWinners[b] = winner, then game_won with the first complete line, or the hand-over |
| `Rules.AfterBoards` | js/game.js:104-121 | game_draw, or continue with the flipped player and the next forced board, or the bare continue of a finished game; see `Rules.AfterBoardsFrame` |
| `Rules.Consistent` | js/game.js:81-122 | the invariant of reachable positions: board winners are the owners of their sub-boards, gameWinner the owner of the super-board, a forced board playable; kept by `Rules.ExecutePreservesConsistent` |
| `Rules.PlayedPlusEmptyUpTo` | js/game.js:246-256 | occupied cells plus countEmptyCells over boards 0..n-1 is 9n |
| `Rules.MovesPlayedPlusEmpty` | js/game.js:298-306 | getTotalMoves() plus countEmptyCells(b) summed over the nine boards is 81 |
| `Rules.ActiveUpTo` | js/game.js:311-319 | the active-board count never exceeds the number of boards counted |
| `Rules.CellMoves` | js/game.js:222-226 | exactly the empty cells of the board, in ascending cell order |
| `Rules.BoardMoves` | js/game.js:229-237 | exactly the empty cells of un-won boards, in ascending board-then-cell order |
| `Rules.LegalMoves` | js/game.js:217-241 | a move is listed iff its sub-board is un-won and its cell is empty, and it lies in nextBoard whenever nextBoard is set and un-won; the list is in ascending board-then-cell order |
| `Rules.SameBoardsSameDraw` | js/game.js:185-193 | the draw test depends only on cells, board winners and gameWinner |
| `Rules.AfterBoardsFrame` | js/game.js:104-121 | the hand-over changes no cell, board winner or gameWinner; it returns the bare continue exactly when gameWinner is set |
| `Rules.ExecuteCells` | js/game.js:83 | after a move the grid is the old grid with the player's mark at the played cell |
| `Rules.ExecuteWritesOneCell` | js/game.js:83 | the played cell holds the player's mark and every other cell is unchanged |
| `Rules.ExecuteWinners` | js/game.js:86-90 | boardWinners gains the owner of the played sub-board only when it had no winner and now has a complete line |
| `Rules.ExecuteKeepsWinners` | js/game.js:86-90 | recorded sub-board winners never change; only the played board can change, from none to the owner of its line |
| `Rules.ExecuteGameWon` | js/game.js:92-99 | on game_won, gameWinner is the reported winner; the reported line is a complete line of boardWinners held by that winner; currentPlayer and nextBoard are unchanged |
| `Rules.ExecuteContinue` | js/game.js:110-118 | on continue, the player flips, the reported next player and board are the new ones, and nextBoard is the played cell's index unless that sub-board is won or full (then any board) |
| `Rules.ExecuteDraw` | js/game.js:105-107 | in an unfinished game, game_draw is returned exactly when the new position is a draw, the turn is then kept, and the bare continue never occurs |
| `Rules.ExecuteCountsOneMove` | js/game.js:246-256 | a valid move increases getTotalMoves by exactly one |
| `Rules.InitialConsistent` | js/game.js:22-29 | the reset position satisfies the game invariant |
| `Rules.AfterBoardsConsistent` | js/game.js:109-118 | the hand-over keeps the invariant, and the new forced board is playable |
| `Rules.RecordBoardWinConsistent` | js/game.js:89-100 | recording a sub-board win (and possibly the game win) keeps the invariant |
| `Rules.ExecutePreservesConsistent` | js/game.js:81-122 | every valid move keeps the invariant: board winners are the owners of their sub-boards, gameWinner is the owner of the super-board, and a forced board is playable |
| `Rules.WinnerIsTerminal` | js/game.js:64 | once gameWinner is set no move is valid, and a complete line of board winners backs it |
| `Rules.LegalMovesAreValidMoves` | js/game.js:57-76 | while nobody has won, getValidMoves lists exactly the moves isValidMove accepts |
| `Rules.DrawHasNoLegalMove` | js/game.js:217-241 | a drawn position has no legal move |
| `Rules.OpenHasLegalMove` | js/game.js:217-241 | an open consistent position has at least one legal move |
| `Rules.NoLegalMoveIffDraw` | js/game.js:185-193 | while nobody has won, the legal-move list is empty exactly when the game is a draw |
| `Rules.DrawIffNoActiveBoard` | js/game.js:311-319 | a draw is exactly no winner and countActiveBoards() == 0 |
| `Rules.FullIffNoEmptyCount` | js/game.js:298-306 | isBoardFull(b) holds exactly when b is in range and countEmptyCells(b) is 0 |
| `Rules.CentreOpening` | js/game.js:110-118 | X in the centre cell of the centre board passes the turn to O, forced into the centre board |
| `Engine.Game.constructor` | js/game.js:6-10 | a fresh game holds the initial position |
| `Engine.Game.ResetGameState` | js/game.js:22-29 | after the reset the arrays are fresh and hold the initial position |
| `Engine.Game.ExecuteMove` | js/game.js:81-122 | the new arrays and fields, and the returned outcome, are those of Rules.Execute on the old state |
| `Engine.Game.HandOver` | js/game.js:104-121 | the draw test and the hand-over act as Rules.AfterBoards |
| `Engine.Game.GetValidMoves` | js/game.js:217-241 | the nested push loops return Rules.LegalMoves of the current state |
| `Engine.Game.GetTotalMoves` | js/game.js:246-256 | the counter equals the number of occupied cells |
| `Engine.Game.CountEmptyCells` | js/game.js:298-306 | the counter equals the empty cells of board b, and is 0 for an index outside 0..8 |
| `Engine.Game.CountActiveBoards` | js/game.js:311-319 | the counter equals the number of boards neither won nor full |
| `AI.Pick` | js/core/ai.js:25 | Math.floor(Math.random() * n) is an index below n |
| `AI.AnyMove` | js/core/ai.js:42 | the random pick is a member of the list, and it is undefined only for an empty list |
| `AI.Achieves` | js/core/ai.js:92-93 | the tests of the four finders: p at the move gives its sub-board the owner p (lines 92-93, 109-110); for the game goals the sub-board had no winner and the first complete line of winners with it given to p belongs to p (lines 184-190, 215-221) |
| `AI.Undo` | js/core/ai.js:94 | the undo writes null into the probed cell; `AI.ProbeBoardsOnEmptyTargets` shows this restores an empty cell |
| `AI.FirstAchieving` | js/core/ai.js:88-98 | the result is the first move in list order that reaches the goal; none only when no listed move does |
| `AI.ProbeBoards` | js/core/ai.js:87-116 | a found move is listed; board winners, turn, forced board and gameWinner are untouched |
| `AI.ProbeBoardsOnEmptyTargets` | js/core/ai.js:92-94 | on empty cells the undo restores gameBoard exactly, and the finder returns the first move whose mark gives its sub-board to the player |
| `AI.LegalMovesAreEmptyTargets` | js/game.js:223-233 | every move getValidMoves lists is an empty cell |
| `AI.CentreMoves` | js/core/ai.js:123 | exactly the listed moves on cell 4 |
| `AI.CornerMoves` | js/core/ai.js:129-131 | exactly the listed moves on cells 0, 2, 6, 8 |
| `AI.CentreMove` | js/core/ai.js:121-137 | a listed move on cell 4 if any exists, otherwise a listed corner-cell move, otherwise null only when no move is on the centre or a corner |
| `AI.ThreatsUpTo` | js/core/ai.js:294-307 | the count never exceeds the boards scanned, less the skipped move.board |
| `AI.Threats` | js/core/ai.js:290-310 | evaluateMultipleThreats lies in 0..8 |
| `AI.OpenTargetHasEmptyCell` | js/core/ai.js:161-162 | countEmptyCells is at most 9, and at least 1 on a board that is not full |
| `AI.StrategicScore` | js/core/ai.js:143-167 | the weights of findStrategicMove (board 10/5, cell 8/4, -20 for a won or full target, else -15 if X can win there and 2 per occupied cell); every score lies in -20..34, at most -2 for a won or full target and at least -15 otherwise |
| `AI.HardScore` | js/core/ai.js:241-276 | the weights of findBestStrategicMove (board 15/8, cell 10/5, -25 for a won or full target, else -20 if X can win, +15 if O can win and 3 per occupied cell, plus 5 per threat); every score lies in -25..104, at most 40 for a won or full target and at least -20 otherwise |
| `AI.ScoreMoves` | js/core/ai.js:143-167 | the mapped list holds exactly the listed moves, each paired with its own score |
| `AI.Insert` | js/core/ai.js:169 | inserting keeps the elements (as a multiset) and keeps the list sorted by descending score |
| `AI.SortDesc` | js/core/ai.js:169 | the sort is a permutation of its input and is sorted by descending score |
| `AI.WithScore` | js/core/ai.js:170 | exactly the elements with the given score |
| `AI.ScoreAtLeast` | js/core/ai.js:282 | exactly the elements scoring at least the bound |
| `AI.SortKeepsScoreClass` | js/core/ai.js:169 | the sort is stable: the elements of each score keep their original order |
| `AI.SortedHeadIsMax` | js/core/ai.js:170 | the head of the sorted list is an input element with the largest score |
| `AI.StrategicMove` | js/core/ai.js:142-173 | null only for an empty list; otherwise a listed move whose score equals the maximum |
| `AI.StrategicMoveKeepsOrder` | js/core/ai.js:169-172 | the random pick is taken from the top-scoring moves in their getValidMoves order |
| `AI.BestStrategicMove` | js/core/ai.js:240-285 | a listed move scoring at least the maximum minus 5; the empty list throws |
| `AI.EasyMove` | js/core/ai.js:36-43 | a listed move exactly when the list is non-empty, never a throw |
| `AI.MediumMove` | js/core/ai.js:48-62 | a listed move exactly when the list is non-empty, never a throw |
| `AI.HardMove` | js/core/ai.js:67-78 | a listed move, and a throw exactly for the empty list; it is a game-winning move for O whenever one exists, and otherwise a game-blocking move whenever one exists |
| `AI.AIMove` | js/core/ai.js:16-27 | for every difficulty, including unknown ones, a listed move exactly when the list is non-empty; only the hard tier throws, and only on the empty list |
| `AI.EasyBlocks` | js/core/ai.js:37-39 | with the 0.3 coin taken, easy returns the first move that blocks an X sub-board win, and the board is left unchanged |
| `AI.MediumPriorities` | js/core/ai.js:49-53 | medium returns the first sub-board win for O if one exists, else the first block of X, and leaves the board unchanged |
| `AI.AIMoveIsValid` | js/core/ai.js:367-371 | on the getValidMoves list, every tier leaves the state unchanged, and in an unfinished consistent game the move it returns is accepted by isValidMove |
| `AI.ProbeBoardCell` | js/core/ai.js:91-94 | writing the mark, reading the owner and writing null tests the goal on the old state and leaves only that cell cleared |
| `AI.FindBoardMove` | js/core/ai.js:88-98 | the loop returns the move and the state of ProbeBoards |
| `AI.FindWinningMove` | js/core/ai.js:87-99 | the probe with O: result and resulting state as ProbeBoards |
| `AI.FindBlockingMove` | js/core/ai.js:104-116 | the probe with X: result and resulting state as ProbeBoards |
| `AI.TestGameWin` | js/core/ai.js:187-197 | the super-board test reports whether the player owns the first complete line once the board is given to them, and restores boardWinners |
| `AI.ProbeGameCell` | js/core/ai.js:180-200 | one game probe decides the TakeGame goal and restores both arrays on every path |
| `AI.FindGameMove` | js/core/ai.js:179-203 | the state is unchanged, and the result is the first listed move that wins the game for the player |
| `AI.FindGameWinningMove` | js/core/ai.js:178-204 | the first move that wins the game for O; both arrays are restored |
| `AI.FindGameBlockingMove` | js/core/ai.js:209-235 | the first move that would win the game for X; both arrays are restored |
| `AI.EvaluateMultipleThreats` | js/core/ai.js:290-310 | the nested loops count the threats of Threats, which are at most 8 |
| `AI.GetEasyMove` | js/core/ai.js:36-43 | the reply and resulting state are those of EasyMove |
| `AI.GetMediumMove` | js/core/ai.js:48-62 | the reply and resulting state are those of MediumMove |
| `AI.GetHardMove` | js/core/ai.js:67-78 | the state is unchanged, and the reply is that of HardMove |
| `AI.SelectAIMove` | js/core/ai.js:16-27 | the reply and resulting state are those of AIMove |

## Left out

- User interface, analytics, application bootstrap, service worker and browser utilities (js/ui.js, js/utils/analytics.js, js/app.js, sw.js, js/utils.js): presentation, telemetry and browser I/O, with no rule logic.
- `calculateAIThinkingTime`, `scheduleAIMove` and `clearAITimeouts` (js/core/ai.js:319-378): random delays and `setTimeout` scheduling. Only the guard `scheduleAIMove` puts around `selectAIMove` appears, as the hypothesis of `AI.AIMoveIsValid`.
- `getGameState`, `setGameMode`, `getGameMode` and `getGameProgress` (js/game.js): a JSON deep copy, UI mode flags and a floating-point ratio.
- `lastPlayedCell` and `isAIGame`: UI bookkeeping that no rule reads. `aiDifficulty` appears only as the `Difficulty` argument.
- Sub-board and cell indices outside 0..8 for `executeMove`, `checkBoardWinner`, the AI finders and the forced board: no caller passes such an index, and the model types these indices as `Index`. So the `null` of `checkBoardWinner` for a missing board (js/game.js:133), the skip in `findWinningMove`/`findBlockingMove` (js/core/ai.js:89, 106), the `TypeError` of `executeMove` for a board of 9 or more (js/game.js:83) and the range test on `nextBoard` (js/game.js:220) have no counterpart. `isValidMove`, `isBoardFull`, `canWinBoard` and `countEmptyCells` take any integer, as their range checks do.
- Floating point: the model uses exact reals, so the rounding of the double product in `Math.floor(Math.random() * n)` and of the double constants in the 0.3 and 0.7 coins is not captured. For a value of `Math.random()` just below 8/9 the double product can reach the next integer where the exact one does not (`AI.Pick`).
- `Math.random()`: each call site reads its own `Dice` field. The model does not say that two calls in one run draw independent values.
- The board-level probes write `null` back rather than the old value. `AI.ProbeBoards` models that as written (`AI.Undo`). The "board left unchanged" results (`AI.ProbeBoardsOnEmptyTargets`, `AI.EasyBlocks`, `AI.MediumPriorities`) hold for lists whose cells are empty, which includes every list `getValidMoves` returns.
- `AI.ProbeBoardCell`, `AI.ProbeGameCell`, `AI.TestGameWin`: the body of each loop iteration of the four finders is a method of its own. The cell and winner are restored before the early `return`, just as the source restores them in both the winning and the non-winning path.
