/** The index permutations of MatrixProcessor.kt: the zero matrix, the four transpositions
    (main diagonal, side diagonal, vertical line, horizontal line) and the minor that drops
    row 0 and one column, which the Laplace expansion recurses on. They move entries without
    computing with them, so the element type is a parameter. A matrix is a two-dimensional
    array indexed [row, column]; each operation allocates its result and never writes the
    matrix it reads. */
module MatrixProcessor {
  import opened Grids

  // ----- Specification on values -----

  /** The transpose of an n x m grid: an m x n grid with t[r][c] == g[c][r]. */
  function Transposed<T>(g: seq<seq<T>>, n: nat, m: nat): (t: seq<seq<T>>)
    requires IsGrid(g, n, m)
    ensures IsGrid(t, m, n)
  {
    seq(m, r requires 0 <= r < m => seq(n, c requires 0 <= c < n => g[c][r]))
  }

  /** The reflection of an n x m grid in its side (anti-) diagonal: an m x n grid with
      t[r][c] == g[n - 1 - c][m - 1 - r]. */
  function SideFlipped<T>(g: seq<seq<T>>, n: nat, m: nat): (t: seq<seq<T>>)
    requires IsGrid(g, n, m)
    ensures IsGrid(t, m, n)
  {
    seq(m, r requires 0 <= r < m => seq(n, c requires 0 <= c < n => g[n - 1 - c][m - 1 - r]))
  }

  /** The reflection of an n x m grid in its vertical middle line: each row reversed. */
  function VerticalFlipped<T>(g: seq<seq<T>>, n: nat, m: nat): (t: seq<seq<T>>)
    requires IsGrid(g, n, m)
    ensures IsGrid(t, n, m)
  {
    seq(n, r requires 0 <= r < n => seq(m, c requires 0 <= c < m => g[r][m - 1 - c]))
  }

  /** The reflection of an n x m grid in its horizontal middle line: the rows in reverse order. */
  function HorizontalFlipped<T>(g: seq<seq<T>>, n: nat, m: nat): (t: seq<seq<T>>)
    requires IsGrid(g, n, m)
    ensures IsGrid(t, n, m)
  {
    seq(n, r requires 0 <= r < n => seq(m, c requires 0 <= c < m => g[n - 1 - r][c]))
  }

  /** The column a minor's column j comes from when column k is dropped. */
  function Source(j: nat, k: nat): nat {
    if j < k then j else j + 1
  }

  /** The (n-1) x (n-1) minor of an n x n grid without row 0 and column k. */
  function Minor<T>(g: seq<seq<T>>, n: nat, k: nat): (t: seq<seq<T>>)
    requires IsGrid(g, n, n) && k < n
    ensures IsGrid(t, n - 1, n - 1)
  {
    seq(n - 1, i requires 0 <= i < n - 1 => seq(n - 1, j requires 0 <= j < n - 1 => g[i + 1][Source(j, k)]))
  }

  // ----- Properties -----

  /** Transposing twice gives the matrix back. */
  lemma TransposeInvolution<T>(g: seq<seq<T>>, n: nat, m: nat)
    requires IsGrid(g, n, m)
    ensures Transposed(Transposed(g, n, m), m, n) == g
  {
    var t := Transposed(Transposed(g, n, m), m, n);
    GridExt(t, g, n, m);
  }

  /** Each transposition moves entry (r, c) to the mirrored place and back. */
  lemma SideFlipInvolution<T>(g: seq<seq<T>>, n: nat, m: nat)
    requires IsGrid(g, n, m)
    ensures SideFlipped(SideFlipped(g, n, m), m, n) == g
  {
    GridExt(SideFlipped(SideFlipped(g, n, m), m, n), g, n, m);
  }

  lemma VerticalFlipInvolution<T>(g: seq<seq<T>>, n: nat, m: nat)
    requires IsGrid(g, n, m)
    ensures VerticalFlipped(VerticalFlipped(g, n, m), n, m) == g
  {
    GridExt(VerticalFlipped(VerticalFlipped(g, n, m), n, m), g, n, m);
  }

  lemma HorizontalFlipInvolution<T>(g: seq<seq<T>>, n: nat, m: nat)
    requires IsGrid(g, n, m)
    ensures HorizontalFlipped(HorizontalFlipped(g, n, m), n, m) == g
  {
    GridExt(HorizontalFlipped(HorizontalFlipped(g, n, m), n, m), g, n, m);
  }

  /** The side-diagonal reflection is the main-diagonal one followed by both line
      reflections (a half turn), and the two line reflections commute. */
  lemma SideFlipIsHalfTurnOfTranspose<T>(g: seq<seq<T>>, n: nat, m: nat)
    requires IsGrid(g, n, m)
    ensures SideFlipped(g, n, m) == HorizontalFlipped(VerticalFlipped(Transposed(g, n, m), m, n), m, n)
    ensures HorizontalFlipped(VerticalFlipped(g, n, m), n, m) == VerticalFlipped(HorizontalFlipped(g, n, m), n, m)
  {
    GridExt(SideFlipped(g, n, m), HorizontalFlipped(VerticalFlipped(Transposed(g, n, m), m, n), m, n), m, n);
    GridExt(HorizontalFlipped(VerticalFlipped(g, n, m), n, m), VerticalFlipped(HorizontalFlipped(g, n, m), n, m), n, m);
  }

  /** The minor keeps every entry outside row 0 and column k, each at exactly one place:
      entry (i, j) lands at (i - 1, j) left of k and at (i - 1, j - 1) right of it. */
  lemma MinorKeepsTheRest<T>(g: seq<seq<T>>, n: nat, k: nat)
    requires IsGrid(g, n, n) && k < n
    ensures forall i, j :: 1 <= i < n && 0 <= j < n && j != k ==>
              Minor(g, n, k)[i - 1][if j < k then j else j - 1] == g[i][j]
    ensures forall j :: 0 <= j < n - 1 ==> Source(j, k) != k && Source(j, k) < n
  {
  }

  // ----- The source's loops, on arrays -----

  /** `zeroMatrix`: n rows of m entries, all `zero`. */
  method ZeroMatrix<T>(n: nat, m: nat, zero: T) returns (r: array2<T>)
    ensures fresh(r) && r.Length0 == n && r.Length1 == m
    ensures forall i, j :: 0 <= i < n && 0 <= j < m ==> r[i, j] == zero
  {
    r := new T[n, m]((i, j) => zero);
  }

  /** `transposeMainDiag`, with the loops running over the result's rows and columns so that
      every n x m matrix is accepted (the source's loops only fit square matrices). */
  method TransposeMainDiag<T>(a: array2<T>, zero: T) returns (r: array2<T>)
    ensures fresh(r) && Cells(r) == Transposed(Cells(a), a.Length0, a.Length1)
  {
    var n, m := a.Length0, a.Length1;
    r := ZeroMatrix(m, n, zero);
    for row := 0 to m
      invariant forall i, j :: 0 <= i < row && 0 <= j < n ==> r[i, j] == a[j, i]
    {
      for col := 0 to n
        invariant forall i, j :: 0 <= i < row && 0 <= j < n ==> r[i, j] == a[j, i]
        invariant forall j :: 0 <= j < col ==> r[row, j] == a[j, row]
      {
        r[row, col] := a[col, row];
      }
    }
    GridExt(Cells(r), Transposed(Cells(a), n, m), m, n);
  }

  /** `transposeSideDiag`, with the loops running over the result's rows and columns so that
      every n x m matrix is accepted (the source's loops only fit square matrices; see
      `SideDiagAsWritten`). */
  method TransposeSideDiag<T>(a: array2<T>, zero: T) returns (r: array2<T>)
    ensures fresh(r) && Cells(r) == SideFlipped(Cells(a), a.Length0, a.Length1)
  {
    var n, m := a.Length0, a.Length1;
    r := ZeroMatrix(m, n, zero);
    for row := 0 to m
      invariant forall i, j :: 0 <= i < row && 0 <= j < n ==> r[i, j] == a[n - 1 - j, m - 1 - i]
    {
      for col := 0 to n
        invariant forall i, j :: 0 <= i < row && 0 <= j < n ==> r[i, j] == a[n - 1 - j, m - 1 - i]
        invariant forall j :: 0 <= j < col ==> r[row, j] == a[n - 1 - j, m - 1 - row]
      {
        r[row, col] := a[n - 1 - col, m - 1 - row];
      }
    }
    GridExt(Cells(r), SideFlipped(Cells(a), n, m), m, n);
  }

  /** `transposeVertical`, allocating a result of the input's own shape (the source allocates
      the transposed shape, which fits only square matrices). */
  method TransposeVertical<T>(a: array2<T>, zero: T) returns (r: array2<T>)
    ensures fresh(r) && Cells(r) == VerticalFlipped(Cells(a), a.Length0, a.Length1)
  {
    var n, m := a.Length0, a.Length1;
    r := ZeroMatrix(n, m, zero);
    for row := 0 to n
      invariant forall i, j :: 0 <= i < row && 0 <= j < m ==> r[i, j] == a[i, m - 1 - j]
    {
      for col := 0 to m
        invariant forall i, j :: 0 <= i < row && 0 <= j < m ==> r[i, j] == a[i, m - 1 - j]
        invariant forall j :: 0 <= j < col ==> r[row, j] == a[row, m - 1 - j]
      {
        r[row, col] := a[row, m - 1 - col];
      }
    }
    GridExt(Cells(r), VerticalFlipped(Cells(a), n, m), n, m);
  }

  /** `transposeHorizontal`, allocating a result of the input's own shape, as above. */
  method TransposeHorizontal<T>(a: array2<T>, zero: T) returns (r: array2<T>)
    ensures fresh(r) && Cells(r) == HorizontalFlipped(Cells(a), a.Length0, a.Length1)
  {
    var n, m := a.Length0, a.Length1;
    r := ZeroMatrix(n, m, zero);
    for row := 0 to n
      invariant forall i, j :: 0 <= i < row && 0 <= j < m ==> r[i, j] == a[n - 1 - i, j]
    {
      for col := 0 to m
        invariant forall i, j :: 0 <= i < row && 0 <= j < m ==> r[i, j] == a[n - 1 - i, j]
        invariant forall j :: 0 <= j < col ==> r[row, j] == a[n - 1 - row, j]
      {
        r[row, col] := a[n - 1 - row, col];
      }
    }
    GridExt(Cells(r), HorizontalFlipped(Cells(a), n, m), n, m);
  }

  /** `constructMatrix`: the minor without row 0 and column `skipColumn`, copied row by row
      with a separate write index for the columns kept. */
  method ConstructMatrix<T>(m: array2<T>, skipColumn: nat, zero: T) returns (r: array2<T>)
    requires m.Length0 == m.Length1 && skipColumn < m.Length0
    ensures fresh(r) && Cells(r) == Minor(Cells(m), m.Length0, skipColumn)
  {
    var n := m.Length0;
    r := ZeroMatrix(n - 1, n - 1, zero);
    var ii := 0;
    var i := 1;
    while i < n
      invariant 1 <= i <= n && ii == i - 1
      invariant forall p, q :: 0 <= p < ii && 0 <= q < n - 1 ==> r[p, q] == m[p + 1, Source(q, skipColumn)]
    {
      var jj := 0;
      for j := 0 to n
        invariant jj == (if j <= skipColumn then j else j - 1)
        invariant forall q :: 0 <= q < jj ==> r[ii, q] == m[i, Source(q, skipColumn)]
        invariant forall p, q :: 0 <= p < ii && 0 <= q < n - 1 ==> r[p, q] == m[p + 1, Source(q, skipColumn)]
      {
        if j == skipColumn {
          continue;
        }
        var v := m[i, j];
        r[ii, jj] := v;
        jj := jj + 1;
      }
      i := i + 1;
      ii := ii + 1;
    }
    GridExt(Cells(r), Minor(Cells(m), n, skipColumn), n - 1, n - 1);
  }

  // ----- The source's loops as written -----

  /** Whether the loops of `transposeMainDiag`, `transposeVertical` and `transposeHorizontal`,
      which run over the n rows and m columns of the input while writing into a freshly
      allocated m x n result, stay inside it. */
  predicate SourceLoopFits(n: nat, m: nat) {
    forall row, col :: 0 <= row < n && 0 <= col < m ==> WriteInside(n, m, row, col)
  }

  /** The write at (row, col) lands inside an m x n result. */
  predicate WriteInside(n: nat, m: nat, row: int, col: int) {
    row < m && col < n
  }

  /** They do exactly on square matrices: on a 2 x 3 matrix, say, the iteration at
      row 0, column 2 reads and writes outside the matrices. */
  lemma SourceLoopFitsOnlySquare(n: nat, m: nat)
    requires n >= 1 && m >= 1
    ensures SourceLoopFits(n, m) <==> n == m
  {
    if n < m {
      assert !WriteInside(n, m, 0, n);
    } else if m < n {
      assert !WriteInside(n, m, m, 0);
    }
  }

  /** Whether iteration (col, row) of the source's `transposeSideDiag` on an n x m input
      reads and writes inside the input and its m x n result. */
  predicate SideAccessInside(n: nat, m: nat, col: int, row: int) {
    n - 1 - row < m && col < m && row < m && n - 1 - col < m
  }

  /** The side-diagonal loop runs over the leading n x n block only, so it stays inside
      exactly when the matrix has no more rows than columns. */
  lemma SideLoopFitsIff(n: nat, m: nat)
    ensures (forall col, row :: 0 <= col < n && 0 <= row < n - col ==> SideAccessInside(n, m, col, row)) <==> n <= m
  {
    if m < n {
      assert !SideAccessInside(n, m, 0, 0);
    }
  }

  /** What the source's `transposeSideDiag` returns on an n x m matrix with n <= m: the
      side-diagonal reflection of the leading n x n block, followed by m - n rows of zeros. */
  function SidePadded<T>(g: seq<seq<T>>, n: nat, m: nat, zero: T): (t: seq<seq<T>>)
    requires IsGrid(g, n, m) && n <= m
    ensures IsGrid(t, m, n)
  {
    seq(m, r requires 0 <= r < m => seq(n, c requires 0 <= c < n => if r < n then g[n - 1 - c][n - 1 - r] else zero))
  }

  /** An m x n grid is that result when its leading n x n block is the reflection and its
      other rows are zeros. */
  lemma SidePaddedByEntries<T>(t: seq<seq<T>>, g: seq<seq<T>>, n: nat, m: nat, zero: T)
    requires IsGrid(g, n, m) && IsGrid(t, m, n) && n <= m
    requires forall i, j :: 0 <= i < n && 0 <= j < n ==> t[i][j] == g[n - 1 - j][n - 1 - i]
    requires forall i, j :: n <= i < m && 0 <= j < n ==> t[i][j] == zero
    ensures t == SidePadded(g, n, m, zero)
  {
    GridExt(t, SidePadded(g, n, m, zero), m, n);
  }

  /** On a square matrix that is the side-diagonal reflection. */
  lemma SidePaddedSquare<T>(g: seq<seq<T>>, n: nat, zero: T)
    requires IsGrid(g, n, n)
    ensures SidePadded(g, n, n, zero) == SideFlipped(g, n, n)
  {
    GridExt(SidePadded(g, n, n, zero), SideFlipped(g, n, n), n, n);
  }

  /** On the 2 x 3 matrix [[1, 2, 3], [4, 5, 6]] it is not: the source gives
      [[5, 2], [4, 1], [0, 0]] where the reflection is [[6, 3], [5, 2], [4, 1]]. */
  lemma SideDiagWideExample()
    ensures SidePadded([[1, 2, 3], [4, 5, 6]], 2, 3, 0) == [[5, 2], [4, 1], [0, 0]]
    ensures SideFlipped([[1, 2, 3], [4, 5, 6]], 2, 3) == [[6, 3], [5, 2], [4, 1]]
  {
    var g := [[1, 2, 3], [4, 5, 6]];
    assert IsGrid(g, 2, 3);
    GridExt(SidePadded(g, 2, 3, 0), [[5, 2], [4, 1], [0, 0]], 3, 2);
    GridExt(SideFlipped(g, 2, 3), [[6, 3], [5, 2], [4, 1]], 3, 2);
  }

  /** Whether cell (i, j) of the result is written by the side-diagonal loop before
      iteration (col, row): the loop covers the cells on and above the side diagonal of the
      leading n x n block column by column. */
  predicate SideWritten(n: nat, col: nat, row: nat, i: int, j: int) {
    (j < col && i + j < n) || (j == col && i < row)
  }

  /** The source's `transposeSideDiag` as written, on the inputs where it stays inside the
      arrays: the loops fill the leading n x n block of the m x n result, and rows n and
      below keep their zeros. */
  method SideDiagAsWritten<T>(a: array2<T>, zero: T) returns (r: array2<T>)
    requires a.Length0 <= a.Length1
    ensures fresh(r) && Cells(r) == SidePadded(Cells(a), a.Length0, a.Length1, zero)
  {
    var n, m := a.Length0, a.Length1;
    r := ZeroMatrix(m, n, zero);
    SideLoops(a, r);
    SidePaddedByEntries(Cells(r), Cells(a), n, m, zero);
  }

  /** The two nested loops of `transposeSideDiag`: each iteration writes a cell on or above
      the side diagonal of the leading n x n block and its mirror image below it; on the side
      diagonal both writes agree. */
  method SideLoops<T>(a: array2<T>, r: array2<T>)
    requires a.Length0 <= a.Length1 && r.Length0 == a.Length1 && r.Length1 == a.Length0 && r != a
    modifies r
    ensures forall i, j :: 0 <= i < a.Length0 && 0 <= j < a.Length0 ==> r[i, j] == a[a.Length0 - 1 - j, a.Length0 - 1 - i]
    ensures forall i, j :: a.Length0 <= i < r.Length0 && 0 <= j < r.Length1 ==> r[i, j] == old(r[i, j])
  {
    var n := a.Length0;
    for col := 0 to n
      invariant forall i, j :: 0 <= i < n && 0 <= j < n && (SideWritten(n, col, 0, i, j) || SideWritten(n, col, 0, n - 1 - j, n - 1 - i)) ==>
                  r[i, j] == a[n - 1 - j, n - 1 - i]
      invariant forall i, j :: n <= i < r.Length0 && 0 <= j < n ==> r[i, j] == old(r[i, j])
    {
      for row := 0 to n - col
        invariant forall i, j :: 0 <= i < n && 0 <= j < n && (SideWritten(n, col, row, i, j) || SideWritten(n, col, row, n - 1 - j, n - 1 - i)) ==>
                    r[i, j] == a[n - 1 - j, n - 1 - i]
        invariant forall i, j :: n <= i < r.Length0 && 0 <= j < n ==> r[i, j] == old(r[i, j])
      {
        r[row, col] := a[n - 1 - col, n - 1 - row];
        r[n - 1 - col, n - 1 - row] := a[row, col];
      }
    }
    forall i, j | 0 <= i < n && 0 <= j < n
      ensures r[i, j] == a[n - 1 - j, n - 1 - i]
    {
      assert SideWritten(n, n, 0, i, j) || SideWritten(n, n, 0, n - 1 - j, n - 1 - i);
    }
  }
}
