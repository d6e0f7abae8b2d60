/** The six scans of `checkWinCondition` (ConnectFour.kt) against a direct definition of a win:
    four equal pieces in a row, horizontally, vertically or on either diagonal, anywhere on the
    playable board. The scans find a winner exactly when there is such a row. */
module ConnectFourWins {
  import opened ConnectFourRules

  /** The four directions a row of four can run in: right, down, down-right, up-right. */
  predicate Step(dy: int, dx: int) {
    (dy == 0 && dx == 1) || (dy == 1 && dx == 0) || (dy == 1 && dx == 1) || (dy == -1 && dx == 1)
  }

  /** Four equal pieces starting at (y, x), all on playable cells, each one step (dy, dx) on. */
  predicate FourInARow(board: seq<seq<char>>, h: int, w: int, y: int, x: int, dy: int, dx: int)
    requires IsBoard(board, h, w)
  {
    && Step(dy, dx)
    && 1 <= y <= h && 1 <= x <= w && 1 <= y + 3 * dy <= h && 1 <= x + 3 * dx <= w
    && board[y][x] != ' '
    && board[y + dy][x + dx] == board[y][x]
    && board[y + 2 * dy][x + 2 * dx] == board[y][x]
    && board[y + 3 * dy][x + 3 * dx] == board[y][x]
  }

  /** The step between consecutive cells of a scan line. */
  function StepY(d: Direction): int {
    match d
    case Horizontal => 0
    case DiagonalUp1 => -1
    case DiagonalUp2 => -1
    case _ => 1
  }

  function StepX(d: Direction): int {
    if d == Vertical then 0 else 1
  }

  /** Every guarded cell among the first n of line r is a playable cell. */
  predicate Playable(d: Direction, r: int, n: int, h: int, w: int) {
    || (d == Horizontal && 1 <= r <= h && n <= w)
    || (d == Vertical && 1 <= r <= w && n <= h)
    || (d == DiagonalDown1 && 1 <= r && n <= w)
    || (d == DiagonalDown2 && 1 <= r && n <= h)
    || (d == DiagonalUp1 && r <= h && n <= w)
    || (d == DiagonalUp2 && 1 <= r && n <= h)
  }

  /** Consecutive cells of a scan line are one step (StepY, StepX) apart. */
  lemma StepAlong(d: Direction, r: int, k: int, h: int)
    ensures RowOf(d, r, k + 1, h) == RowOf(d, r, k, h) + StepY(d)
    ensures ColOf(d, r, k + 1) == ColOf(d, r, k) + StepX(d)
  {
  }

  /** The three cells after the k-th are one, two and three steps on. */
  lemma StepsAlong(d: Direction, r: int, k: int, h: int)
    ensures var y, x, dy, dx := RowOf(d, r, k, h), ColOf(d, r, k), StepY(d), StepX(d);
            && RowOf(d, r, k + 1, h) == y + dy && ColOf(d, r, k + 1) == x + dx
            && RowOf(d, r, k + 2, h) == y + 2 * dy && ColOf(d, r, k + 2) == x + 2 * dx
            && RowOf(d, r, k + 3, h) == y + 3 * dy && ColOf(d, r, k + 3) == x + 3 * dx
  {
  }

  /** Cells k to k + 3 of a line, as read by the scan, are a row of four exactly when the board
      holds one starting at the k-th cell. */
  lemma LineCells(board: seq<seq<char>>, h: int, w: int, d: Direction, r: int, n: int, k: int)
    requires IsBoard(board, h, w) && LineFits(d, r, n, h, w) && Playable(d, r, n, h, w)
    requires 1 <= k && k + 3 <= Reach(d, r, n, h, w)
    ensures var s, y, x := Line(board, h, w, d, r, n), RowOf(d, r, k, h), ColOf(d, r, k);
            && 1 <= y <= h && 1 <= x <= w
            && s[k - 1] == board[y][x]
            && (FourEndAt(s, k + 2) <==> FourInARow(board, h, w, y, x, StepY(d), StepX(d)))
  {
    var s := Line(board, h, w, d, r, n);
    var y, x, dy, dx := RowOf(d, r, k, h), ColOf(d, r, k), StepY(d), StepX(d);
    var y1, x1 := RowOf(d, r, k + 1, h), ColOf(d, r, k + 1);
    var y2, x2 := RowOf(d, r, k + 2, h), ColOf(d, r, k + 2);
    var y3, x3 := RowOf(d, r, k + 3, h), ColOf(d, r, k + 3);
    PlayableEnds(d, r, k, n, h, w);
    StepsAlong(d, r, k, h);
    assert Step(dy, dx);
    FourCellsOfLine(board, h, w, d, r, n, k, s);
    FourFromCells(board, h, w, y, x, dy, dx, [y1, y2, y3], [x1, x2, x3], s, k);
  }

  /** Four entries of a sequence that hold (y, x) and the three cells ys[i], xs[i] one, two
      and three steps on end a run of four exactly when those cells are a row of four. */
  lemma FourFromCells(board: seq<seq<char>>, h: int, w: int, y: int, x: int, dy: int, dx: int,
                      ys: seq<int>, xs: seq<int>, s: seq<char>, k: int)
    requires IsBoard(board, h, w) && Step(dy, dx) && 1 <= k && k + 2 < |s| && |ys| == |xs| == 3
    requires ys[0] == y + dy && ys[1] == y + 2 * dy && ys[2] == y + 3 * dy
    requires xs[0] == x + dx && xs[1] == x + 2 * dx && xs[2] == x + 3 * dx
    requires 1 <= y <= h && 1 <= x <= w && 1 <= ys[2] <= h && 1 <= xs[2] <= w
    requires s[k - 1] == board[y][x] && s[k] == board[ys[0]][xs[0]]
    requires s[k + 1] == board[ys[1]][xs[1]] && s[k + 2] == board[ys[2]][xs[2]]
    ensures FourEndAt(s, k + 2) <==> FourInARow(board, h, w, y, x, dy, dx)
  {
  }

  /** Cells k to k + 3 of a line, as the scan reads them. */
  lemma FourCellsOfLine(board: seq<seq<char>>, h: int, w: int, d: Direction, r: int, n: int, k: int, s: seq<char>)
    requires IsBoard(board, h, w) && LineFits(d, r, n, h, w) && 1 <= k && k + 3 <= Reach(d, r, n, h, w)
    requires s == Line(board, h, w, d, r, n)
    ensures 0 <= RowOf(d, r, k, h) <= h && 0 <= ColOf(d, r, k) <= w
    ensures 0 <= RowOf(d, r, k + 1, h) <= h && 0 <= ColOf(d, r, k + 1) <= w
    ensures 0 <= RowOf(d, r, k + 2, h) <= h && 0 <= ColOf(d, r, k + 2) <= w
    ensures 0 <= RowOf(d, r, k + 3, h) <= h && 0 <= ColOf(d, r, k + 3) <= w
    ensures && s[k - 1] == board[RowOf(d, r, k, h)][ColOf(d, r, k)]
            && s[k] == board[RowOf(d, r, k + 1, h)][ColOf(d, r, k + 1)]
            && s[k + 1] == board[RowOf(d, r, k + 2, h)][ColOf(d, r, k + 2)]
            && s[k + 2] == board[RowOf(d, r, k + 3, h)][ColOf(d, r, k + 3)]
  {
    LineAt(board, h, w, d, r, n, k);
    LineAt(board, h, w, d, r, n, k + 1);
    LineAt(board, h, w, d, r, n, k + 2);
    LineAt(board, h, w, d, r, n, k + 3);
  }

  /** The first and the last of four guarded cells of a playable line are playable cells. */
  lemma PlayableEnds(d: Direction, r: int, k: int, n: int, h: int, w: int)
    requires Playable(d, r, n, h, w) && 1 <= k && k + 3 <= n && Guarded(d, r, k + 3, h, w)
    ensures 1 <= RowOf(d, r, k, h) <= h && 1 <= ColOf(d, r, k) <= w
    ensures 1 <= RowOf(d, r, k + 3, h) <= h && 1 <= ColOf(d, r, k + 3) <= w
  {
  }

  /** A scan over playable lines that finds a winner has found a row of four of that piece. */
  lemma ScanWinIsFour(board: seq<seq<char>>, h: int, w: int, d: Direction, lo: int, hi: int, n: int)
    requires IsBoard(board, h, w) && ScanFits(d, lo, hi, n, h, w)
    requires forall r :: lo <= r <= hi ==> Playable(d, r, n, h, w)
    requires ScanFrom(board, h, w, d, lo, hi, n).Some?
    ensures exists y, x, dy, dx :: FourInARow(board, h, w, y, x, dy, dx) && board[y][x] == ScanFrom(board, h, w, d, lo, hi, n).value
  {
    var r := FoundLine(board, h, w, d, lo, hi, n);
    var s := Line(board, h, w, d, r, n);
    var c := ScanFrom(board, h, w, d, lo, hi, n).value;
    LineWinnerIff(s);
    var j :| FourEndAt(s, j) && s[j] == c;
    assert Playable(d, r, n, h, w);
    LineCells(board, h, w, d, r, n, j - 2);
  }

  /** If the scan reaches cells k to k + 3 of line r and they are a row of four, the scan over
      lo..hi finds a winner. */
  lemma ScanFinds(board: seq<seq<char>>, h: int, w: int, d: Direction, lo: int, hi: int, n: int, r: int, k: int)
    requires IsBoard(board, h, w) && ScanFits(d, lo, hi, n, h, w) && lo <= r <= hi
    requires Playable(d, r, n, h, w)
    requires 1 <= k && k + 3 <= n && Guarded(d, r, k + 3, h, w)
    requires FourInARow(board, h, w, RowOf(d, r, k, h), ColOf(d, r, k), StepY(d), StepX(d))
    ensures ScanFrom(board, h, w, d, lo, hi, n).Some?
  {
    assert LineFits(d, r, n, h, w);
    ReachAtLeast(d, r, n, h, w, k + 3);
    LineCells(board, h, w, d, r, n, k);
    LineWinnerIff(Line(board, h, w, d, r, n));
    ScanNoneIff(board, h, w, d, lo, hi, n);
  }

  /** The line on which a successful scan found its winner. */
  lemma FoundLine(board: seq<seq<char>>, h: int, w: int, d: Direction, lo: int, hi: int, n: int) returns (r: int)
    requires IsBoard(board, h, w) && ScanFits(d, lo, hi, n, h, w)
    requires ScanFrom(board, h, w, d, lo, hi, n).Some?
    ensures lo <= r <= hi && LineFits(d, r, n, h, w)
    ensures LineWinner(Line(board, h, w, d, r, n)) == ScanFrom(board, h, w, d, lo, hi, n)
    decreases hi - lo
  {
    if LineWinner(Line(board, h, w, d, lo, n)).Some? {
      r := lo;
    } else {
      r := FoundLine(board, h, w, d, lo + 1, hi, n);
    }
  }

  /** Soundness: when `checkWinCondition` declares a winner, the board has a row of four of that
      player's pieces. */
  lemma JudgeWinIsFour(board: seq<seq<char>>, h: int, w: int)
    requires IsBoard(board, h, w) && Judge(board, h, w).Won?
    ensures exists y, x, dy, dx :: FourInARow(board, h, w, y, x, dy, dx) && board[y][x] == Judge(board, h, w).piece
  {
    if ScanFrom(board, h, w, Horizontal, 1, h, w).Some? {
      ScanWinIsFour(board, h, w, Horizontal, 1, h, w);
    } else if ScanFrom(board, h, w, Vertical, 1, w, h).Some? {
      ScanWinIsFour(board, h, w, Vertical, 1, w, h);
    } else if ScanFrom(board, h, w, DiagonalDown1, 1, h - 3, w).Some? {
      ScanWinIsFour(board, h, w, DiagonalDown1, 1, h - 3, w);
    } else if ScanFrom(board, h, w, DiagonalDown2, 2, w - 3, h).Some? {
      ScanWinIsFour(board, h, w, DiagonalDown2, 2, w - 3, h);
    } else if ScanFrom(board, h, w, DiagonalUp1, 4, h, w).Some? {
      ScanWinIsFour(board, h, w, DiagonalUp1, 4, h, w);
    } else {
      ScanWinIsFour(board, h, w, DiagonalUp2, 2, w - 3, h);
    }
  }

  /** Completeness: every row of four on the board is found by one of the six scans. */
  lemma FourIsJudgedWin(board: seq<seq<char>>, h: int, w: int, y: int, x: int, dy: int, dx: int)
    requires IsBoard(board, h, w) && FourInARow(board, h, w, y, x, dy, dx)
    ensures Judge(board, h, w).Won?
  {
    if dy == 0 {
      HorizontalFourJudged(board, h, w, y, x, dy, dx);
    } else if dx == 0 {
      VerticalFourJudged(board, h, w, y, x, dy, dx);
    } else if dy == 1 && y >= x {
      LowerDownFourJudged(board, h, w, y, x, dy, dx);
    } else if dy == 1 {
      UpperDownFourJudged(board, h, w, y, x, dy, dx);
    } else if y + x - 1 <= h {
      UpperUpFourJudged(board, h, w, y, x, dy, dx);
    } else {
      LowerUpFourJudged(board, h, w, y, x, dy, dx);
    }
  }

  /** A horizontal row of four is cells x to x + 3 of row y. */
  lemma HorizontalFourJudged(board: seq<seq<char>>, h: int, w: int, y: int, x: int, dy: int, dx: int)
    requires IsBoard(board, h, w) && FourInARow(board, h, w, y, x, dy, dx) && dy == 0
    ensures Judge(board, h, w).Won?
  {
    FoundBy(board, h, w, Horizontal, 1, h, w, y, x, y, x, dy, dx);
    AnyScanWins(board, h, w);
  }

  /** A vertical row of four is cells y to y + 3 of column x. */
  lemma VerticalFourJudged(board: seq<seq<char>>, h: int, w: int, y: int, x: int, dy: int, dx: int)
    requires IsBoard(board, h, w) && FourInARow(board, h, w, y, x, dy, dx) && dy != 0 && dx == 0
    ensures Judge(board, h, w).Won?
  {
    FoundBy(board, h, w, Vertical, 1, w, h, x, y, y, x, dy, dx);
    AnyScanWins(board, h, w);
  }

  /** A falling diagonal at or below the main one starts in column 1. */
  lemma LowerDownFourJudged(board: seq<seq<char>>, h: int, w: int, y: int, x: int, dy: int, dx: int)
    requires IsBoard(board, h, w) && FourInARow(board, h, w, y, x, dy, dx) && dy == 1 && dx != 0 && y >= x
    ensures Judge(board, h, w).Won?
  {
    FoundBy(board, h, w, DiagonalDown1, 1, h - 3, w, y - x + 1, x, y, x, dy, dx);
    AnyScanWins(board, h, w);
  }

  /** A falling diagonal above the main one starts in row 1. */
  lemma UpperDownFourJudged(board: seq<seq<char>>, h: int, w: int, y: int, x: int, dy: int, dx: int)
    requires IsBoard(board, h, w) && FourInARow(board, h, w, y, x, dy, dx) && dy == 1 && dx != 0 && y < x
    ensures Judge(board, h, w).Won?
  {
    FoundBy(board, h, w, DiagonalDown2, 2, w - 3, h, x - y + 1, y, y, x, dy, dx);
    AnyScanWins(board, h, w);
  }

  /** A rising diagonal that starts in column 1 (its first cell is row y + x - 1). */
  lemma UpperUpFourJudged(board: seq<seq<char>>, h: int, w: int, y: int, x: int, dy: int, dx: int)
    requires IsBoard(board, h, w) && FourInARow(board, h, w, y, x, dy, dx) && dy != 0 && dy != 1 && dx != 0
    requires y + x - 1 <= h
    ensures Judge(board, h, w).Won?
  {
    FoundBy(board, h, w, DiagonalUp1, 4, h, w, y + x - 1, x, y, x, dy, dx);
    AnyScanWins(board, h, w);
  }

  /** A rising diagonal that starts in the bottom row h. */
  lemma LowerUpFourJudged(board: seq<seq<char>>, h: int, w: int, y: int, x: int, dy: int, dx: int)
    requires IsBoard(board, h, w) && FourInARow(board, h, w, y, x, dy, dx) && dy != 0 && dy != 1 && dx != 0
    requires y + x - 1 > h
    ensures Judge(board, h, w).Won?
  {
    FoundBy(board, h, w, DiagonalUp2, 2, w - 3, h, y + x - h, h - y + 1, y, x, dy, dx);
    AnyScanWins(board, h, w);
  }

  /** A row of four starting at (y, x) that is cells k to k + 3 of line r of a scan is found by
      that scan. */
  lemma FoundBy(board: seq<seq<char>>, h: int, w: int, d: Direction, lo: int, hi: int, n: int, r: int, k: int,
                y: int, x: int, dy: int, dx: int)
    requires IsBoard(board, h, w) && ScanFits(d, lo, hi, n, h, w) && lo <= r <= hi
    requires Playable(d, r, n, h, w)
    requires 1 <= k && k + 3 <= n && Guarded(d, r, k + 3, h, w)
    requires RowOf(d, r, k, h) == y && ColOf(d, r, k) == x && StepY(d) == dy && StepX(d) == dx
    requires FourInARow(board, h, w, y, x, dy, dx)
    ensures ScanFrom(board, h, w, d, lo, hi, n).Some?
  {
    ScanFinds(board, h, w, d, lo, hi, n, r, k);
  }

  /** A winner found by any of the six scans makes the verdict a win. */
  lemma AnyScanWins(board: seq<seq<char>>, h: int, w: int)
    requires IsBoard(board, h, w)
    requires || ScanFrom(board, h, w, Horizontal, 1, h, w).Some?
             || ScanFrom(board, h, w, Vertical, 1, w, h).Some?
             || ScanFrom(board, h, w, DiagonalDown1, 1, h - 3, w).Some?
             || ScanFrom(board, h, w, DiagonalDown2, 2, w - 3, h).Some?
             || ScanFrom(board, h, w, DiagonalUp1, 4, h, w).Some?
             || ScanFrom(board, h, w, DiagonalUp2, 2, w - 3, h).Some?
    ensures Judge(board, h, w).Won?
  {
  }

  /** The six scans declare a winner exactly when the board has a row of four. */
  lemma JudgeWonIff(board: seq<seq<char>>, h: int, w: int)
    requires IsBoard(board, h, w)
    ensures Judge(board, h, w).Won? <==> exists y, x, dy, dx :: FourInARow(board, h, w, y, x, dy, dx)
  {
    if Judge(board, h, w).Won? {
      JudgeWinIsFour(board, h, w);
    }
    if exists y, x, dy, dx :: FourInARow(board, h, w, y, x, dy, dx) {
      var y, x, dy, dx :| FourInARow(board, h, w, y, x, dy, dx);
      FourIsJudgedWin(board, h, w, y, x, dy, dx);
    }
  }
}
