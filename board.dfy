/** Board rules: the 3x3 grid, its eight lines and `checkWinner`. */
module Board {
  import opened Common

  /** A cell holds nothing ("" in the source) or one of the two marks. */
  datatype Cell = Empty | X | O

  /** The board as rows of cells, `board[row][col]`. */
  type Grid = seq<seq<Cell>>

  /** What `checkWinner` reports: a mark that owns a line, "egality" for a
      full board without a line, or null (game goes on). */
  datatype Outcome = Win(mark: Cell) | Egality | Ongoing

  predicate IsGrid(b: Grid) {
    |b| == 3 && |b[0]| == 3 && |b[1]| == 3 && |b[2]| == 3
  }

  predicate InBounds(row: int, col: int) {
    0 <= row < 3 && 0 <= col < 3
  }

  /** The board a new game starts with: nine empty cells. */
  function EmptyGrid(): (b: Grid)
    ensures IsGrid(b)
    ensures forall r, c | 0 <= r < 3 && 0 <= c < 3 :: b[r][c] == Empty
  {
    [[Empty, Empty, Empty], [Empty, Empty, Empty], [Empty, Empty, Empty]]
  }

  /** `board[row][col] = v`, as a value. */
  function SetCell(b: Grid, row: int, col: int, v: Cell): (b': Grid)
    requires IsGrid(b) && InBounds(row, col)
    ensures IsGrid(b')
    ensures b'[row][col] == v
    ensures forall r, c | 0 <= r < 3 && 0 <= c < 3 && (r, c) != (row, col) :: b'[r][c] == b[r][c]
  {
    b[row := b[row][col := v]]
  }

  /** Two grids that agree on every cell are equal. */
  lemma GridExtensional(a: Grid, b: Grid)
    requires IsGrid(a) && IsGrid(b)
    requires forall r, c | 0 <= r < 3 && 0 <= c < 3 :: a[r][c] == b[r][c]
    ensures a == b
  {
    forall r | 0 <= r < 3 ensures a[r] == b[r] {
      assert forall c | 0 <= c < 3 :: a[r][c] == b[r][c] by {
        forall c | 0 <= c < 3 ensures a[r][c] == b[r][c] {
          assert InBounds(r, c);
        }
      }
    }
  }

  predicate IsFull(b: Grid)
    requires IsGrid(b)
  {
    && b[0][0] != Empty && b[0][1] != Empty && b[0][2] != Empty
    && b[1][0] != Empty && b[1][1] != Empty && b[1][2] != Empty
    && b[2][0] != Empty && b[2][1] != Empty && b[2][2] != Empty
  }

  /** The eight lines in the order the source lists them: three rows,
      three columns, the main diagonal, the anti-diagonal. */
  function Lines(b: Grid): (ls: seq<seq<Cell>>)
    requires IsGrid(b)
  {
    [ [b[0][0], b[0][1], b[0][2]],
      [b[1][0], b[1][1], b[1][2]],
      [b[2][0], b[2][1], b[2][2]],
      [b[0][0], b[1][0], b[2][0]],
      [b[0][1], b[1][1], b[2][1]],
      [b[0][2], b[1][2], b[2][2]],
      [b[0][0], b[1][1], b[2][2]],
      [b[0][2], b[1][1], b[2][0]] ]
  }

  /** The source's test on one line: its first cell is non-empty and the
      other two equal it. */
  predicate Uniform(line: seq<Cell>) {
    |line| == 3 && line[0] != Empty && line[0] == line[1] && line[0] == line[2]
  }

  /** The search loop of `checkWinner`: the mark of the first uniform line
      at or after index `i`. */
  function FirstWinningMark(lines: seq<seq<Cell>>, i: nat): (r: Option<Cell>)
    requires i <= |lines|
    decreases |lines| - i
    ensures r.None? <==> forall k | i <= k < |lines| :: !Uniform(lines[k])
    ensures r.Some? ==> exists k | i <= k < |lines| ::
      Uniform(lines[k]) && lines[k][0] == r.value && forall j | i <= j < k :: !Uniform(lines[j])
  {
    if i == |lines| then None
    else if Uniform(lines[i]) then Some(lines[i][0])
    else FirstWinningMark(lines, i + 1)
  }

  /** `checkWinner(board)`. */
  function CheckWinner(b: Grid): Outcome
    requires IsGrid(b)
  {
    match FirstWinningMark(Lines(b), 0)
    case Some(m) => Win(m)
    case None => if IsFull(b) then Egality else Ongoing
  }

  /** Reference definition of "mark m owns a line": a whole row, a whole
      column or a whole diagonal holds the non-empty mark m. */
  predicate HasLine(b: Grid, m: Cell)
    requires IsGrid(b)
  {
    m != Empty &&
    ( (b[0][0] == m && b[0][1] == m && b[0][2] == m)
    || (b[1][0] == m && b[1][1] == m && b[1][2] == m)
    || (b[2][0] == m && b[2][1] == m && b[2][2] == m)
    || (b[0][0] == m && b[1][0] == m && b[2][0] == m)
    || (b[0][1] == m && b[1][1] == m && b[2][1] == m)
    || (b[0][2] == m && b[1][2] == m && b[2][2] == m)
    || (b[0][0] == m && b[1][1] == m && b[2][2] == m)
    || (b[0][2] == m && b[1][1] == m && b[2][0] == m) )
  }

  predicate HasWinningLine(b: Grid)
    requires IsGrid(b)
  {
    HasLine(b, X) || HasLine(b, O)
  }

  /** The eight listed lines are exactly the rows, columns and diagonals of
      the reference definition. */
  lemma LinesAgree(b: Grid, m: Cell)
    requires IsGrid(b)
    ensures (exists k | 0 <= k < 8 :: Uniform(Lines(b)[k]) && Lines(b)[k][0] == m) <==> HasLine(b, m)
  {
    var ls := Lines(b);
    if HasLine(b, m) {
      if r :| 0 <= r < 3 && b[r][0] == m && b[r][1] == m && b[r][2] == m {
        assert Uniform(ls[r]) && ls[r][0] == m;
      } else if c :| 0 <= c < 3 && b[0][c] == m && b[1][c] == m && b[2][c] == m {
        assert Uniform(ls[3 + c]) && ls[3 + c][0] == m;
      } else if b[0][0] == m && b[1][1] == m && b[2][2] == m {
        assert Uniform(ls[6]) && ls[6][0] == m;
      } else {
        assert Uniform(ls[7]) && ls[7][0] == m;
      }
    }
    if k :| 0 <= k < 8 && Uniform(ls[k]) && ls[k][0] == m {
      if k < 3 {
        assert b[k][0] == m && b[k][1] == m && b[k][2] == m;
      } else if k < 6 {
        assert b[0][k - 3] == m && b[1][k - 3] == m && b[2][k - 3] == m;
      }
    }
  }

  /** What `checkWinner` returns, stated against the reference definition:
      a win exactly when some line is owned (so a line beats a full board),
      and then by a mark that owns a line; "egality" exactly when no line is
      owned and the board is full; null otherwise. */
  lemma CheckWinnerCorrect(b: Grid)
    requires IsGrid(b)
    ensures CheckWinner(b).Win? <==> HasWinningLine(b)
    ensures CheckWinner(b).Win? ==> HasLine(b, CheckWinner(b).mark)
    ensures CheckWinner(b) == Egality <==> !HasWinningLine(b) && IsFull(b)
    ensures CheckWinner(b) == Ongoing <==> !HasWinningLine(b) && !IsFull(b)
  {
    var ls := Lines(b);
    LinesAgree(b, X);
    LinesAgree(b, O);
    match FirstWinningMark(ls, 0)
    case Some(m) =>
      var k :| 0 <= k < |ls| && Uniform(ls[k]) && ls[k][0] == m;
      LinesAgree(b, m);
      assert m == X || m == O;
    case None =>
  }

  /** When at most one mark owns a line, `checkWinner` names mark m if and
      only if m owns a line. */
  lemma CheckWinnerNamesOwner(b: Grid, m: Cell)
    requires IsGrid(b)
    requires m != Empty
    requires !(HasLine(b, X) && HasLine(b, O))
    ensures CheckWinner(b) == Win(m) <==> HasLine(b, m)
  {
    CheckWinnerCorrect(b);
  }

  /** A line owned after placing m at (row, col) is owned by m, or was
      already owned before the move. */
  lemma LineAfterPlacement(b: Grid, row: int, col: int, m: Cell, m': Cell)
    requires IsGrid(b) && InBounds(row, col)
    ensures HasLine(SetCell(b, row, col, m), m') ==> m' == m || HasLine(b, m')
  {
    var b' := SetCell(b, row, col, m);
    if HasLine(b', m') && m' != m {
      if r :| 0 <= r < 3 && b'[r][0] == m' && b'[r][1] == m' && b'[r][2] == m' {
        assert b[r][0] == m' && b[r][1] == m' && b[r][2] == m';
      } else if c :| 0 <= c < 3 && b'[0][c] == m' && b'[1][c] == m' && b'[2][c] == m' {
        assert b[0][c] == m' && b[1][c] == m' && b[2][c] == m';
      }
    }
  }

  /** Placing mark m on a board that has no owned line can only create lines
      owned by m, so `checkWinner` then names m or no mark at all. */
  lemma NewLineBelongsToMover(b: Grid, row: int, col: int, m: Cell)
    requires IsGrid(b) && InBounds(row, col)
    requires !HasWinningLine(b)
    requires m != Empty
    ensures forall m' | HasLine(SetCell(b, row, col, m), m') :: m' == m
    ensures CheckWinner(SetCell(b, row, col, m)) in {Win(m), Egality, Ongoing}
  {
    var b' := SetCell(b, row, col, m);
    forall m' | HasLine(b', m') ensures m' == m {
      LineAfterPlacement(b, row, col, m, m');
      assert HasLine(b, m') ==> m' == X || m' == O;
    }
    CheckWinnerCorrect(b');
  }
}
