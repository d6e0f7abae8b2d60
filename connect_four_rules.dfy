/** The rules of Connect Four (ConnectFour.kt) as functions of the board. The board has
    `h + 1` rows of `w + 1` cells; row 0 and column 0 are padding that is never played, so
    playable cells are board[y][x] with 1 <= y <= h (row 1 is the top) and 1 <= x <= w.
    An empty cell holds ' ', the first player's pieces 'o' and the second player's '*'. */
module ConnectFourRules {

  const MinDim := 5
  const MaxDim := 9

  /** `board` has h + 1 rows of w + 1 cells. */
  predicate IsBoard(board: seq<seq<char>>, h: int, w: int) {
    h >= 0 && w >= 0 && |board| == h + 1 && forall y :: 0 <= y <= h ==> |board[y]| == w + 1
  }

  /** The padding row 0 and padding column 0 are empty. */
  predicate PaddingEmpty(board: seq<seq<char>>, h: int, w: int)
    requires IsBoard(board, h, w)
  {
    (forall x :: 0 <= x <= w ==> board[0][x] == ' ') && (forall y :: 0 <= y <= h ==> board[y][0] == ' ')
  }

  /** Scan of `getColumnTopPosition` from row y downwards. */
  function TopFrom(board: seq<seq<char>>, h: int, w: int, c: int, y: int): (t: int)
    requires IsBoard(board, h, w) && 0 <= c <= w && 0 <= y
    ensures y - 1 <= t <= h || (y > h && t == h)
    ensures forall j :: y <= j <= t ==> board[j][c] == ' '
    ensures t < h ==> 0 <= t + 1 <= h && board[t + 1][c] != ' '
    decreases h - y
  {
    if y > h then h else if board[y][c] != ' ' then y - 1 else TopFrom(board, h, w, c, y + 1)
  }

  /** The row a piece dropped into column c lands on: one above the first occupied row, or h
      for an empty column; 0 (with empty padding) means the column is full. */
  function ColumnTop(board: seq<seq<char>>, h: int, w: int, c: int): (t: int)
    requires IsBoard(board, h, w) && 0 <= c <= w
    ensures -1 <= t <= h
    ensures forall j :: 0 <= j <= t ==> board[j][c] == ' '
    ensures t < h ==> board[t + 1][c] != ' '
  {
    TopFrom(board, h, w, c, 0)
  }

  /** With empty padding, a column is full exactly when its top playable cell is taken. */
  lemma ColumnFullIff(board: seq<seq<char>>, h: int, w: int, c: int)
    requires IsBoard(board, h, w) && PaddingEmpty(board, h, w) && h >= 1 && 1 <= c <= w
    ensures ColumnTop(board, h, w, c) == 0 <==> board[1][c] != ' '
  {
  }

  /** An empty column lets a piece fall to the bottom row. */
  lemma EmptyColumnTop(board: seq<seq<char>>, h: int, w: int, c: int)
    requires IsBoard(board, h, w) && 0 <= c <= w
    requires forall y :: 0 <= y <= h ==> board[y][c] == ' '
    ensures ColumnTop(board, h, w, c) == h
  {
  }

  /** The board after writing `piece` at (y, x), and nothing else. */
  function Place(board: seq<seq<char>>, h: int, w: int, y: int, x: int, piece: char): (r: seq<seq<char>>)
    requires IsBoard(board, h, w) && 0 <= y <= h && 0 <= x <= w
    ensures IsBoard(r, h, w)
    ensures r[y][x] == piece
    ensures forall j, i :: 0 <= j <= h && 0 <= i <= w && (j != y || i != x) ==> r[j][i] == board[j][i]
  {
    board[y := board[y][x := piece]]
  }

  /** The piece of the player whose turn it is. */
  function Piece(firstPlayersTurn: bool): char {
    if firstPlayersTurn then 'o' else '*'
  }

  /** A piece dropped into a column that is not full lands on the top of it: the column's top
      moves up by one, every other column keeps its top, and the padding stays empty. */
  lemma DropLands(board: seq<seq<char>>, h: int, w: int, c: int, piece: char)
    requires IsBoard(board, h, w) && PaddingEmpty(board, h, w) && 1 <= c <= w
    requires ColumnTop(board, h, w, c) != 0 && piece != ' '
    ensures var t := ColumnTop(board, h, w, c);
            var r := Place(board, h, w, t, c, piece);
            && 1 <= t
            && PaddingEmpty(r, h, w)
            && ColumnTop(r, h, w, c) == t - 1
            && forall c' :: 0 <= c' <= w && c' != c ==> ColumnTop(r, h, w, c') == ColumnTop(board, h, w, c')
  {
    var t := ColumnTop(board, h, w, c);
    var r := Place(board, h, w, t, c, piece);
    TopDeterminedByColumn(r, board, h, w, c, 0);
    forall c' | 0 <= c' <= w && c' != c ensures ColumnTop(r, h, w, c') == ColumnTop(board, h, w, c') {
      TopSameColumn(r, board, h, w, c', 0);
    }
  }

  /** The scan from row y in column c after a piece landed at (t, c), t >= y. */
  lemma {:induction false} TopDeterminedByColumn(r: seq<seq<char>>, board: seq<seq<char>>, h: int, w: int, c: int, y: int)
    requires IsBoard(board, h, w) && IsBoard(r, h, w) && 0 <= c <= w && 0 <= y
    requires var t := ColumnTop(board, h, w, c);
             && 1 <= t && y <= t
             && r[t][c] != ' '
             && forall j :: 0 <= j <= h && j != t ==> r[j][c] == board[j][c]
    ensures TopFrom(r, h, w, c, y) == ColumnTop(board, h, w, c) - 1
    decreases h - y
  {
    var t := ColumnTop(board, h, w, c);
    if y < t {
      assert board[y][c] == ' ';
      TopDeterminedByColumn(r, board, h, w, c, y + 1);
    }
  }

  /** The scan from row y only looks at column c. */
  lemma {:induction false} TopSameColumn(r: seq<seq<char>>, board: seq<seq<char>>, h: int, w: int, c: int, y: int)
    requires IsBoard(board, h, w) && IsBoard(r, h, w) && 0 <= c <= w && 0 <= y
    requires forall j :: 0 <= j <= h ==> r[j][c] == board[j][c]
    ensures TopFrom(r, h, w, c, y) == TopFrom(board, h, w, c, y)
    decreases h - y
  {
    if y <= h {
      TopSameColumn(r, board, h, w, c, y + 1);
    }
  }

  /** The board is full: every column's top position is 0. */
  predicate Full(board: seq<seq<char>>, h: int, w: int)
    requires IsBoard(board, h, w)
  {
    forall c :: 1 <= c <= w ==> ColumnTop(board, h, w, c) == 0
  }

  /** The six scans of `checkWinCondition`. */
  datatype Direction = Horizontal | Vertical | DiagonalDown1 | DiagonalDown2 | DiagonalUp1 | DiagonalUp2

  /** Row of the k-th cell (k >= 1) of scan line r. */
  function RowOf(d: Direction, r: int, k: int, h: int): int {
    match d
    case Horizontal => r
    case Vertical => k
    case DiagonalDown1 => r + (k - 1)
    case DiagonalDown2 => k
    case DiagonalUp1 => r - (k - 1)
    case DiagonalUp2 => h - (k - 1)
  }

  /** Column of the k-th cell (k >= 1) of scan line r. */
  function ColOf(d: Direction, r: int, k: int): int {
    match d
    case Horizontal => k
    case Vertical => r
    case DiagonalDown1 => k
    case DiagonalDown2 => r + (k - 1)
    case DiagonalUp1 => k
    case DiagonalUp2 => r + (k - 1)
  }

  /** The k-th cell of line r is on the board; the diagonal scans give up on the line at the
      first cell that is not. */
  predicate Guarded(d: Direction, r: int, k: int, h: int, w: int) {
    match d
    case DiagonalDown1 => r + (k - 1) <= h
    case DiagonalDown2 => r + (k - 1) <= w
    case DiagonalUp1 => r - (k - 1) >= 1
    case DiagonalUp2 => r + (k - 1) <= w
    case _ => true
  }

  /** Every guarded cell among the first n of line r is inside the padded board. */
  predicate LineFits(d: Direction, r: int, n: int, h: int, w: int) {
    || (d == Horizontal && 0 <= r <= h && n <= w)
    || (d == Vertical && 0 <= r <= w && n <= h)
    || (d == DiagonalDown1 && 0 <= r && n <= w)
    || (d == DiagonalDown2 && 0 <= r && n <= h)
    || (d == DiagonalUp1 && r <= h && n <= w)
    || (d == DiagonalUp2 && 0 <= r && n <= h + 1)
  }

  /** Every line of a scan over lo..hi fits. */
  predicate ScanFits(d: Direction, lo: int, hi: int, n: int, h: int, w: int) {
    lo > hi || (LineFits(d, lo, n, h, w) && LineFits(d, hi, n, h, w))
  }

  lemma CellInside(d: Direction, r: int, k: int, n: int, h: int, w: int)
    requires LineFits(d, r, n, h, w) && 1 <= k <= n && Guarded(d, r, k, h, w)
    ensures 0 <= RowOf(d, r, k, h) <= h && 0 <= ColOf(d, r, k) <= w
  {
  }

  /** How many leading cells of line r, among the first n, are scanned before the guard fails. */
  function Reach(d: Direction, r: int, n: int, h: int, w: int): (m: nat)
    ensures m <= n || m == 0
    ensures forall k :: 1 <= k <= m ==> Guarded(d, r, k, h, w)
    ensures m < n ==> !Guarded(d, r, m + 1, h, w)
    decreases n
  {
    if n <= 0 then 0
    else
      var m := Reach(d, r, n - 1, h, w);
      if m == n - 1 && Guarded(d, r, n, h, w) then n else m
  }

  /** The characters scan line r reads, in order. */
  function Line(board: seq<seq<char>>, h: int, w: int, d: Direction, r: int, n: int): (s: seq<char>)
    requires IsBoard(board, h, w) && LineFits(d, r, n, h, w)
    ensures |s| == Reach(d, r, n, h, w)
  {
    var m := Reach(d, r, n, h, w);
    seq(m, i requires 0 <= i < m =>
      CellInside(d, r, i + 1, n, h, w);
      board[RowOf(d, r, i + 1, h)][ColOf(d, r, i + 1)])
  }

  /** The k-th cell of a line, as the scan reads it. */
  lemma LineAt(board: seq<seq<char>>, h: int, w: int, d: Direction, r: int, n: int, k: int)
    requires IsBoard(board, h, w) && LineFits(d, r, n, h, w) && 1 <= k <= Reach(d, r, n, h, w)
    ensures 0 <= RowOf(d, r, k, h) <= h && 0 <= ColOf(d, r, k) <= w
    ensures Line(board, h, w, d, r, n)[k - 1] == board[RowOf(d, r, k, h)][ColOf(d, r, k)]
  {
    CellInside(d, r, k, n, h, w);
  }

  /** A guarded cell within the first n is reached by the scan, and so is every cell before it. */
  lemma {:induction false} ReachAtLeast(d: Direction, r: int, n: int, h: int, w: int, k: int)
    requires k <= n && Guarded(d, r, k, h, w)
    ensures Reach(d, r, n, h, w) >= k
    decreases n
  {
    if 0 < k && k < n {
      ReachAtLeast(d, r, n - 1, h, w, k);
    } else if 0 < k {
      if k > 1 {
        assert Guarded(d, r, k - 1, h, w);
        ReachAtLeast(d, r, n - 1, h, w, k - 1);
      }
    }
  }

  /** Length of the run of equal characters ending at position i. */
  function RunLength(s: seq<char>, i: nat): (n: nat)
    requires i < |s|
    ensures 1 <= n <= i + 1
  {
    if i == 0 then 1 else if s[i] == s[i - 1] then RunLength(s, i - 1) + 1 else 1
  }

  /** Four equal pieces end at position i. */
  predicate FourEndAt(s: seq<char>, i: int) {
    3 <= i < |s| && s[i] != ' ' && s[i - 3] == s[i] && s[i - 2] == s[i] && s[i - 1] == s[i]
  }

  /** The run counter reaches four on a piece exactly where four equal pieces end. */
  lemma {:induction false} RunOfFour(s: seq<char>, i: nat)
    requires i < |s|
    ensures (RunLength(s, i) >= 4 && s[i] != ' ') <==> FourEndAt(s, i)
  {
    RunAtLeast(s, i, 4);
  }

  /** The run ending at i is at least n long exactly when the n - 1 entries before i equal s[i]. */
  lemma {:induction false} RunAtLeast(s: seq<char>, i: nat, n: nat)
    requires i < |s| && n >= 1
    ensures RunLength(s, i) >= n <==> (n - 1 <= i && forall j :: i - (n - 1) <= j <= i ==> s[j] == s[i])
    decreases n
  {
    if n > 1 && i > 0 {
      RunAtLeast(s, i - 1, n - 1);
      if s[i] == s[i - 1] && RunLength(s, i - 1) >= n - 1 {
        assert forall j :: i - (n - 1) <= j <= i ==> s[j] == s[i] by {
          forall j | i - (n - 1) <= j <= i ensures s[j] == s[i] {
            if j < i {
              assert i - 1 - (n - 2) <= j <= i - 1;
            }
          }
        }
      }
      if n - 1 <= i && forall j :: i - (n - 1) <= j <= i ==> s[j] == s[i] {
        assert s[i - 1] == s[i];
        assert forall j :: i - 1 - (n - 2) <= j <= i - 1 ==> s[j] == s[i - 1];
      }
    } else if n > 1 {
      assert !(n - 1 <= i);
    }
  }

  /** The first piece, from position i on, at which the run counter reaches four. */
  function FirstRunFrom(s: seq<char>, i: nat): Option<char>
    decreases |s| - i
  {
    if i >= |s| then None
    else if RunLength(s, i) >= 4 && s[i] != ' ' then Some(s[i])
    else FirstRunFrom(s, i + 1)
  }

  /** The counter finds a winner from i on exactly when four equal pieces end at some j >= i,
      and the winner owns such a four. */
  lemma {:induction false} FirstRunFromFinds(s: seq<char>, i: nat)
    ensures FirstRunFrom(s, i).Some? ==> exists j :: i <= j < |s| && FourEndAt(s, j) && s[j] == FirstRunFrom(s, i).value
    ensures FirstRunFrom(s, i).None? <==> forall j :: i <= j < |s| ==> !FourEndAt(s, j)
    decreases |s| - i
  {
    if i < |s| {
      RunOfFour(s, i);
      FirstRunFromFinds(s, i + 1);
    }
  }

  /** One step of the run counter of `checkForWinInDirection` at cell i, the cell after prev:
      the counter of the cells up to prev (0 and ' ' before the first cell) becomes the run
      length at i, and the first run of four from i on is at i or further on. */
  lemma CounterStep(s: seq<char>, prev: int, i: nat, runLength: int, runChar: char)
    requires i == prev + 1 && i < |s|
    requires prev < 0 ==> runLength == 0 && runChar == ' '
    requires prev >= 0 ==> runLength == RunLength(s, prev) && runChar == s[prev]
    ensures var n := if s[i] == runChar then runLength + 1 else 1;
            && n == RunLength(s, i)
            && FirstRunFrom(s, i) == if n >= 4 && s[i] != ' ' then Some(s[i]) else FirstRunFrom(s, i + 1)
  {
  }

  /** The winner of one scanned line: the owner of the first run of four. */
  function LineWinner(s: seq<char>): Option<char> {
    FirstRunFrom(s, 0)
  }

  /** A line has a winner exactly when four equal pieces end somewhere on it. */
  lemma LineWinnerIff(s: seq<char>)
    ensures LineWinner(s).Some? ==> exists j :: FourEndAt(s, j) && s[j] == LineWinner(s).value
    ensures LineWinner(s).None? <==> forall j :: !FourEndAt(s, j)
  {
    FirstRunFromFinds(s, 0);
  }

  datatype Option<T> = None | Some(value: T)

  /** The first winner over lines r..hi, in scan order. */
  function ScanFrom(board: seq<seq<char>>, h: int, w: int, d: Direction, r: int, hi: int, n: int): Option<char>
    requires IsBoard(board, h, w) && ScanFits(d, r, hi, n, h, w)
    decreases hi - r
  {
    if r > hi then None
    else
      match LineWinner(Line(board, h, w, d, r, n))
      case Some(c) => Some(c)
      case None => ScanFrom(board, h, w, d, r + 1, hi, n)
  }

  /** The scan over lo..hi finds no winner exactly when none of its lines has one. */
  lemma {:induction false} ScanNoneIff(board: seq<seq<char>>, h: int, w: int, d: Direction, lo: int, hi: int, n: int)
    requires IsBoard(board, h, w) && ScanFits(d, lo, hi, n, h, w)
    ensures ScanFrom(board, h, w, d, lo, hi, n).None? <==>
              forall r :: lo <= r <= hi ==> LineWinner(Line(board, h, w, d, r, n)).None?
    decreases hi - lo
  {
    if lo <= hi {
      ScanNoneIff(board, h, w, d, lo + 1, hi, n);
    }
  }

  /** The outcome of `checkWinCondition` on a board. */
  datatype Verdict = Won(piece: char) | Draw | Undecided

  /** The six scans in the order `checkWinCondition` runs them; the first that finds a run
      decides the winner. */
  function ScanVerdict(board: seq<seq<char>>, h: int, w: int): Verdict
    requires IsBoard(board, h, w)
  {
    if ScanFrom(board, h, w, Horizontal, 1, h, w).Some? then
      Won(ScanFrom(board, h, w, Horizontal, 1, h, w).value)
    else if ScanFrom(board, h, w, Vertical, 1, w, h).Some? then
      Won(ScanFrom(board, h, w, Vertical, 1, w, h).value)
    else if ScanFrom(board, h, w, DiagonalDown1, 1, h - 3, w).Some? then
      Won(ScanFrom(board, h, w, DiagonalDown1, 1, h - 3, w).value)
    else if ScanFrom(board, h, w, DiagonalDown2, 2, w - 3, h).Some? then
      Won(ScanFrom(board, h, w, DiagonalDown2, 2, w - 3, h).value)
    else if ScanFrom(board, h, w, DiagonalUp1, 4, h, w).Some? then
      Won(ScanFrom(board, h, w, DiagonalUp1, 4, h, w).value)
    else if ScanFrom(board, h, w, DiagonalUp2, 2, w - 3, h).Some? then
      Won(ScanFrom(board, h, w, DiagonalUp2, 2, w - 3, h).value)
    else Undecided
  }

  /** The verdict of `checkWinCondition`: the scans' winner if any; otherwise a full board is a
      draw. */
  function Judge(board: seq<seq<char>>, h: int, w: int): Verdict
    requires IsBoard(board, h, w)
  {
    var v := ScanVerdict(board, h, w);
    if v.Won? then v else if Full(board, h, w) then Draw else Undecided
  }

  /** The scores after a verdict: a win gives its owner ('o' is the first player) 2 points, a
      draw gives each player 1. */
  function ScoreAfter(v: Verdict, first: int, second: int): (scores: (int, int))
    ensures v == Undecided <==> scores == (first, second)
    ensures v != Undecided ==> scores.0 + scores.1 == first + second + 2
    ensures scores.0 >= first && scores.1 >= second
    ensures v == Won('o') ==> scores == (first + 2, second)
    ensures v.Won? && v.piece != 'o' ==> scores == (first, second + 2)
    ensures v == Draw ==> scores == (first + 1, second + 1)
  {
    match v
    case Won(c) => if c == 'o' then (first + 2, second) else (first, second + 2)
    case Draw => (first + 1, second + 1)
    case Undecided => (first, second)
  }

  /** The game goes on only while the verdict is undecided. */
  function RunningAfter(v: Verdict, running: bool): bool {
    if v == Undecided then running else false
  }

  /** A move into column c is played: c is a column of the board and not full. */
  predicate Legal(board: seq<seq<char>>, h: int, w: int, c: int)
    requires IsBoard(board, h, w)
  {
    1 <= c <= w && ColumnTop(board, h, w, c) != 0
  }

  /** One answer to the board-size prompt, after splitting at 'x' and parsing. */
  datatype DimensionsInput = Blank | Malformed | Dimensions(rows: int, columns: int)

  /** The prompt is answered: blank for the default, or rows and columns both in 5..9. */
  predicate Acceptable(input: DimensionsInput) {
    input.Blank? || (input.Dimensions? && MinDim <= input.columns <= MaxDim && MinDim <= input.rows <= MaxDim)
  }

  /** The (rows, columns) an acceptable answer sets: 6 x 7 for a blank answer. */
  function Chosen(input: DimensionsInput): (dims: (int, int))
    requires Acceptable(input)
    ensures MinDim <= dims.0 <= MaxDim && MinDim <= dims.1 <= MaxDim
    ensures input.Blank? ==> dims == (6, 7)
    ensures input.Dimensions? ==> dims == (input.rows, input.columns)
  {
    if input.Blank? then (6, 7) else (input.rows, input.columns)
  }
}
