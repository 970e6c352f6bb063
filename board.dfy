/**
 * Marks, indices, moves and the eight winning lines of a 3x3 grid.
 * The same line test decides a sub-board (over its nine cells) and the
 * super-board (over the nine sub-board winners).
 */
module Board {
  import opened Wrappers

  /** The content of a cell or of a sub-board's winner slot: null, 'X' or 'O'. */
  datatype Mark = Empty | X | O

  type Player = m: Mark | m != Empty witness X

  /** A sub-board index or a cell index. */
  type Index = i: int | 0 <= i < 9

  /** Nine marks: the cells of one sub-board, or the nine sub-board winners. */
  type Cells = s: seq<Mark> | |s| == 9
    witness [Empty, Empty, Empty, Empty, Empty, Empty, Empty, Empty, Empty]

  const EmptyCells: Cells := [Empty, Empty, Empty, Empty, Empty, Empty, Empty, Empty, Empty]

  /** A move: a sub-board and a cell inside it. */
  datatype Move = Move(board: Index, cell: Index)

  /** The player who moves after `p`. */
  function Other(p: Player): (q: Player)
    ensures q != p
  {
    if p == X then O else X
  }

  predicate IsCorner(i: Index) {
    i == 0 || i == 2 || i == 6 || i == 8
  }

  // ---------------------------------------------------------------
  // Lines
  // ---------------------------------------------------------------

  datatype Line = Line(a: Index, b: Index, c: Index)

  /** Rows, then columns, then diagonals: the order in which lines are tried. */
  const Lines: seq<Line> := [
    Line(0, 1, 2), Line(3, 4, 5), Line(6, 7, 8),
    Line(0, 3, 6), Line(1, 4, 7), Line(2, 5, 8),
    Line(0, 4, 8), Line(2, 4, 6)
  ]

  /** Three equal, non-empty marks on line `l`. */
  predicate Complete(s: Cells, l: Line) {
    s[l.a] != Empty && s[l.a] == s[l.b] && s[l.a] == s[l.c]
  }

  /** A winner together with the line that makes it the winner. */
  datatype Win = Win(winner: Player, line: Line)

  /** Index of the first complete line among Lines[k..], if any. */
  function FirstComplete(s: Cells, k: nat): (r: Option<nat>)
    requires k <= |Lines|
    ensures r.Some? ==> k <= r.value < |Lines| && Complete(s, Lines[r.value])
    ensures r.Some? ==> forall j :: k <= j < r.value ==> !Complete(s, Lines[j])
    ensures r.None? ==> forall j :: k <= j < |Lines| ==> !Complete(s, Lines[j])
    decreases |Lines| - k
  {
    if k == |Lines| then None
    else if Complete(s, Lines[k]) then Some(k)
    else FirstComplete(s, k + 1)
  }

  /**
   * The line scan of checkBoardWinner and checkGameWinner: the owner and
   * indices of the first complete line in canonical order, or None.
   */
  function FindLine(s: Cells): (r: Option<Win>)
    ensures r.None? <==> forall k :: 0 <= k < |Lines| ==> !Complete(s, Lines[k])
    ensures r.Some? ==> exists k :: 0 <= k < |Lines| && r.value.line == Lines[k]
                                    && (forall j :: 0 <= j < k ==> !Complete(s, Lines[j]))
    ensures r.Some? ==> Complete(s, r.value.line) && r.value.winner == s[r.value.line.a]
  {
    match FirstComplete(s, 0)
    case None => None
    case Some(k) => Some(Win(s[Lines[k].a], Lines[k]))
  }

  /** The winner mark of a grid (checkBoardWinner's return value): Empty when no line is complete. */
  function Owner(s: Cells): (w: Mark)
    ensures w != Empty <==> exists k :: 0 <= k < |Lines| && Complete(s, Lines[k])
    ensures w != Empty ==> exists k :: 0 <= k < |Lines| && Complete(s, Lines[k]) && s[Lines[k].a] == w
  {
    match FindLine(s)
    case None => Empty
    case Some(win) => win.winner
  }

  // ---------------------------------------------------------------
  // Threats (canWinBoard)
  // ---------------------------------------------------------------

  /** How many of the three cells of `l` hold `m`. */
  function CountOnLine(s: Cells, l: Line, m: Mark): nat {
    (if s[l.a] == m then 1 else 0) + (if s[l.b] == m then 1 else 0) + (if s[l.c] == m then 1 else 0)
  }

  /** Two of `p` and one empty cell on `l`. */
  predicate Threat(s: Cells, l: Line, p: Player) {
    CountOnLine(s, l, p) == 2 && CountOnLine(s, l, Empty) == 1
  }

  /** `p` can complete some line with one more mark. */
  predicate CanWin(s: Cells, p: Player) {
    exists k :: 0 <= k < |Lines| && Threat(s, Lines[k], p)
  }

  predicate OnLine(l: Line, c: Index) {
    l.a == c || l.b == c || l.c == c
  }

  /** Placing `p` on the empty cell `c` completes a line through `c`. */
  predicate Completes(s: Cells, c: Index, p: Player) {
    s[c] == Empty && exists k :: 0 <= k < |Lines| && OnLine(Lines[k], c) && Complete(s[c := p], Lines[k])
  }

  /** The three cells of every line are distinct. */
  lemma LineCellsDistinct(k: nat)
    requires k < |Lines|
    ensures Lines[k].a != Lines[k].b && Lines[k].a != Lines[k].c && Lines[k].b != Lines[k].c
  {
    assert k == 0 || k == 1 || k == 2 || k == 3 || k == 4 || k == 5 || k == 6 || k == 7;
  }

  /** A threat is exactly an empty cell whose filling completes a line through it. */
  lemma CanWinIffCompletingCell(s: Cells, p: Player)
    ensures CanWin(s, p) <==> exists c: Index :: Completes(s, c, p)
  {
    if CanWin(s, p) {
      var k :| 0 <= k < |Lines| && Threat(s, Lines[k], p);
      LineCellsDistinct(k);
      var l := Lines[k];
      var c: Index := if s[l.a] == Empty then l.a else if s[l.b] == Empty then l.b else l.c;
      assert OnLine(l, c) && Complete(s[c := p], l);
      assert Completes(s, c, p);
    }
    if c: Index :| Completes(s, c, p) {
      var k :| 0 <= k < |Lines| && OnLine(Lines[k], c) && Complete(s[c := p], Lines[k]);
      LineCellsDistinct(k);
      assert Threat(s, Lines[k], p);
    }
  }

  // ---------------------------------------------------------------
  // Counting
  // ---------------------------------------------------------------

  /** How many of the first `n` cells hold `m`. */
  function CountMark(s: Cells, m: Mark, n: nat): (r: nat)
    requires n <= 9
    ensures r <= n
  {
    if n == 0 then 0 else CountMark(s, m, n - 1) + (if s[n - 1] == m then 1 else 0)
  }

  /** How many of the first `n` cells are occupied. */
  function CountOccupied(s: Cells, n: nat): (r: nat)
    requires n <= 9
    ensures r <= n
  {
    if n == 0 then 0 else CountOccupied(s, n - 1) + (if s[n - 1] != Empty then 1 else 0)
  }

  /** Every cell is occupied. */
  predicate Full(s: Cells) {
    forall c :: 0 <= c < 9 ==> s[c] != Empty
  }

  lemma {:induction false} NoEmptyUpTo(s: Cells, n: nat)
    requires n <= 9
    ensures CountMark(s, Empty, n) == 0 <==> forall c :: 0 <= c < n ==> s[c] != Empty
  {
    if n > 0 {
      NoEmptyUpTo(s, n - 1);
    }
  }

  /** A grid is full exactly when it has no empty cell to count. */
  lemma FullIffNoEmptyCell(s: Cells)
    ensures Full(s) <==> CountMark(s, Empty, 9) == 0
  {
    NoEmptyUpTo(s, 9);
  }

  /** Occupied and empty cells together make up every cell. */
  lemma {:induction false} OccupiedPlusEmpty(s: Cells, n: nat)
    requires n <= 9
    ensures CountOccupied(s, n) + CountMark(s, Empty, n) == n
  {
    if n > 0 {
      OccupiedPlusEmpty(s, n - 1);
    }
  }

  /** Filling an empty cell adds one occupied cell. */
  lemma {:induction false} PlaceAddsOccupied(s: Cells, c: Index, p: Player, n: nat)
    requires n <= 9 && s[c] == Empty
    ensures CountOccupied(s[c := p], n) == CountOccupied(s, n) + (if c < n then 1 else 0)
  {
    if n > 0 {
      PlaceAddsOccupied(s, c, p, n - 1);
    }
  }
}
