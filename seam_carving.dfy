/** Seam carving (SeamCarving.kt): an image is a two-dimensional array of RGB pixels indexed
    [x, y] (column x, row y), as `getRGB(x, y)` reads it. Each carve step computes an energy
    grid, runs the seam search of SeamSearch in place over it, and copies every row except the
    seam pixel into an image one column narrower. Height is reduced by rotating the image a
    quarter turn, carving columns, and rotating back.

    The square root of the dual-gradient energy is a library call on floating point; it is a
    parameter `root` here, applied to the exact integer sum of squared differences. */
module SeamCarving {
  import opened Grids
  import opened SeamSearch

  /** One 8-bit colour channel. */
  type Channel = c: int | 0 <= c < 256

  datatype Rgb = Rgb(red: Channel, green: Channel, blue: Channel)

  /** An entry of the energy grid: `Pair<Double, Int>`, the (cumulative) cost and the parent column. */
  datatype Cell = Cell(cost: real, parent: int)

  function Square(d: int): nat {
    d * d
  }

  /** Sum over the three channels of the squared difference (b - a)^2. */
  function PixelDistance(a: Rgb, b: Rgb): (d: nat)
    ensures d == 0 <==> a == b
  {
    Square(b.red - a.red) + Square(b.green - a.green) + Square(b.blue - a.blue)
  }

  /** `gradient`: the squared colour difference of the two neighbours of (x, y), left and right
      when `horizontal`, above and below otherwise. */
  function Gradient(g: seq<seq<Rgb>>, w: nat, h: nat, horizontal: bool, x: int, y: int): (d: nat)
    requires IsGrid(g, w, h)
    requires if horizontal then 1 <= x < w - 1 && 0 <= y < h else 0 <= x < w && 1 <= y < h - 1
    ensures d == 0 <==> if horizontal then g[x - 1][y] == g[x + 1][y] else g[x][y - 1] == g[x][y + 1]
  {
    if horizontal then PixelDistance(g[x - 1][y], g[x + 1][y])
    else PixelDistance(g[x][y - 1], g[x][y + 1])
  }

  /** `coerceIn(lo, hi)` on a non-empty range. */
  function Clamp(v: int, lo: int, hi: int): (c: int)
    requires lo <= hi
    ensures lo <= c <= hi && (lo <= v <= hi ==> c == v)
  {
    if v < lo then lo else if v > hi then hi else v
  }

  /** The quantity under the square root in `energies`: the horizontal gradient at the column
      clamped to [1, w - 2] plus the vertical gradient at the row clamped to [1, h - 2]. */
  function SquaredEnergy(g: seq<seq<Rgb>>, w: nat, h: nat, x: nat, y: nat): nat
    requires IsGrid(g, w, h) && w >= 3 && h >= 3 && x < w && y < h
  {
    Gradient(g, w, h, true, Clamp(x, 1, w - 2), y) + Gradient(g, w, h, false, x, Clamp(y, 1, h - 2))
  }

  /** The energy is zero exactly when both sampled pairs of pixels agree. */
  lemma EnergyZeroIff(g: seq<seq<Rgb>>, w: nat, h: nat, x: nat, y: nat)
    requires IsGrid(g, w, h) && w >= 3 && h >= 3 && x < w && y < h
    ensures var cx, cy := Clamp(x, 1, w - 2), Clamp(y, 1, h - 2);
            SquaredEnergy(g, w, h, x, y) == 0 <==> g[cx - 1][y] == g[cx + 1][y] && g[x][cy - 1] == g[x][cy + 1]
  {
  }

  /** A uniform region has zero energy: if the pixels a gradient samples around (x, y) all have
      one colour, the energy there is 0. */
  lemma UniformHasZeroEnergy(g: seq<seq<Rgb>>, w: nat, h: nat, c: Rgb)
    requires IsGrid(g, w, h) && w >= 3 && h >= 3
    requires forall x, y :: 0 <= x < w && 0 <= y < h ==> g[x][y] == c
    ensures forall x, y :: 0 <= x < w && 0 <= y < h ==> SquaredEnergy(g, w, h, x, y) == 0
  {
    forall x, y | 0 <= x < w && 0 <= y < h ensures SquaredEnergy(g, w, h, x, y) == 0 {
      EnergyZeroIff(g, w, h, x, y);
    }
  }

  /** The energy grid with costs root(squared energy). */
  function EnergyGrid(g: seq<seq<Rgb>>, w: nat, h: nat, root: nat -> real): (e: seq<seq<real>>)
    requires IsGrid(g, w, h) && w >= 3 && h >= 3
    ensures IsGrid(e, w, h)
  {
    seq(w, x requires 0 <= x < w =>
      seq(h, y requires 0 <= y < h => root(SquaredEnergy(g, w, h, x, y))))
  }

  /** The image with one pixel removed from every row: left of the seam pixels stay, right of it
      they move one column left. */
  function RemoveSeam<T>(g: seq<seq<T>>, w: nat, h: nat, s: seq<nat>): (r: seq<seq<T>>)
    requires IsGrid(g, w, h) && w >= 1 && |s| == h && forall y :: 0 <= y < h ==> s[y] < w
    ensures IsGrid(r, w - 1, h)
  {
    seq(w - 1, x requires 0 <= x < w - 1 =>
      seq(h, y requires 0 <= y < h => if x < s[y] then g[x][y] else g[x + 1][y]))
  }

  /** Row y of a column-major grid. */
  function Row<T>(g: seq<seq<T>>, w: nat, h: nat, y: nat): (row: seq<T>)
    requires IsGrid(g, w, h) && y < h
    ensures |row| == w
  {
    seq(w, x requires 0 <= x < w => g[x][y])
  }

  /** Removing a seam deletes exactly the seam pixel from each row and keeps the rest in order. */
  lemma RemoveSeamRows<T>(g: seq<seq<T>>, w: nat, h: nat, s: seq<nat>)
    requires IsGrid(g, w, h) && w >= 1 && |s| == h && forall y :: 0 <= y < h ==> s[y] < w
    ensures forall y :: 0 <= y < h ==>
      Row(RemoveSeam(g, w, h, s), w - 1, h, y) == Row(g, w, h, y)[..s[y]] + Row(g, w, h, y)[s[y] + 1..]
  {
    var r := RemoveSeam(g, w, h, s);
    forall y | 0 <= y < h
      ensures Row(r, w - 1, h, y) == Row(g, w, h, y)[..s[y]] + Row(g, w, h, y)[s[y] + 1..]
    {
      var row := Row(g, w, h, y);
      var lhs := Row(r, w - 1, h, y);
      var rhs := row[..s[y]] + row[s[y] + 1..];
      assert |lhs| == |rhs|;
      forall x | 0 <= x < w - 1 ensures lhs[x] == rhs[x] {
        if x < s[y] {
          assert rhs[x] == row[x];
        } else {
          assert rhs[x] == row[s[y] + 1..][x - s[y]];
        }
      }
    }
  }

  /** One carve step on an image value: remove the seam of its energy grid. */
  function Carved(g: seq<seq<Rgb>>, w: nat, h: nat, root: nat -> real): (r: seq<seq<Rgb>>)
    requires IsGrid(g, w, h) && w >= 3 && h >= 3
    ensures IsGrid(r, w - 1, h)
  {
    var e := EnergyGrid(g, w, h, root);
    RemoveSeam(g, w, h, Seam(e, w, h))
  }

  /** `n` carve steps in a row (the counting loops of `main`). */
  function CarvedTimes(g: seq<seq<Rgb>>, w: nat, h: nat, n: nat, root: nat -> real): (r: seq<seq<Rgb>>)
    requires IsGrid(g, w, h) && n <= w
    requires n >= 1 ==> h >= 3 && w - n >= 2
    ensures IsGrid(r, w - n, h)
    decreases n
  {
    if n == 0 then g else CarvedTimes(Carved(g, w, h, root), w - 1, h, n - 1, root)
  }

  /** `rotate90(true)`: the pixel at (i, j) goes to (h - 1 - j, i). */
  function RotatedCW<T>(g: seq<seq<T>>, w: nat, h: nat): (r: seq<seq<T>>)
    requires IsGrid(g, w, h)
    ensures IsGrid(r, h, w)
  {
    seq(h, a requires 0 <= a < h => seq(w, b requires 0 <= b < w => g[b][h - 1 - a]))
  }

  /** `rotate90(false)`: the pixel at (i, j) goes to (j, w - 1 - i). */
  function RotatedCCW<T>(g: seq<seq<T>>, w: nat, h: nat): (r: seq<seq<T>>)
    requires IsGrid(g, w, h)
    ensures IsGrid(r, h, w)
  {
    seq(h, a requires 0 <= a < h => seq(w, b requires 0 <= b < w => g[w - 1 - b][a]))
  }

  /** Clockwise after counter-clockwise is the identity. */
  lemma RotateCCWThenCW<T>(g: seq<seq<T>>, w: nat, h: nat)
    requires IsGrid(g, w, h)
    ensures RotatedCW(RotatedCCW(g, w, h), h, w) == g
  {
    var r := RotatedCW(RotatedCCW(g, w, h), h, w);
    forall i, j | 0 <= i < w && 0 <= j < h ensures r[i][j] == g[i][j] {
    }
    GridExt(r, g, w, h);
  }

  /** Counter-clockwise after clockwise is the identity. */
  lemma RotateCWThenCCW<T>(g: seq<seq<T>>, w: nat, h: nat)
    requires IsGrid(g, w, h)
    ensures RotatedCCW(RotatedCW(g, w, h), h, w) == g
  {
    var r := RotatedCCW(RotatedCW(g, w, h), h, w);
    forall i, j | 0 <= i < w && 0 <= j < h ensures r[i][j] == g[i][j] {
    }
    GridExt(r, g, w, h);
  }

  /** The whole of `main` between reading and writing the file, on image values. */
  function Reduced(g: seq<seq<Rgb>>, w: nat, h: nat, width: int, height: int, root: nat -> real): (r: seq<seq<Rgb>>)
    requires IsGrid(g, w, h) && ReductionFits(w, h, width, height)
    ensures IsGrid(r, w - Count(width), h - Count(height))
  {
    var w' := w - Count(width);
    var narrow := CarvedTimes(g, w, h, Count(width), root);
    var turned := RotatedCCW(narrow, w', h);
    var low := CarvedTimes(turned, h, w', Count(height), root);
    RotatedCW(low, h - Count(height), w')
  }

  /** Number of iterations of `for (i in 1..n)`. */
  function Count(n: int): nat {
    if n < 0 then 0 else n
  }

  /** Every carve in the reduction sees an image at least 3 pixels wide and high (`coerceIn`
      throws below that); there is no other guard. */
  predicate ReductionFits(w: nat, h: nat, width: int, height: int) {
    && (width >= 1 ==> h >= 3 && w - width >= 2)
    && (height >= 1 ==> w - Count(width) >= 3 && h - height >= 2)
  }

  /** With nothing to remove, the reduction gives back the input exactly. */
  lemma ReduceNothing(g: seq<seq<Rgb>>, w: nat, h: nat, width: int, height: int, root: nat -> real)
    requires IsGrid(g, w, h) && width <= 0 && height <= 0
    ensures Reduced(g, w, h, width, height, root) == g
  {
    RotateCCWThenCW(g, w, h);
  }

  /** The cost grid of an energy array. */
  ghost function Costs(en: array2<Cell>): (e: seq<seq<real>>)
    reads en
    ensures IsGrid(e, en.Length0, en.Length1)
    ensures forall x, y :: 0 <= x < en.Length0 && 0 <= y < en.Length1 ==> e[x][y] == en[x, y].cost
  {
    seq(en.Length0, x requires 0 <= x < en.Length0 reads en =>
      seq(en.Length1, y requires 0 <= y < en.Length1 reads en => en[x, y].cost))
  }

  /** `energies`: a fresh grid with the energy of every pixel and parent 0. */
  method Energies(img: array2<Rgb>, root: nat -> real) returns (en: array2<Cell>)
    requires img.Length0 >= 3 && img.Length1 >= 3
    ensures fresh(en) && en.Length0 == img.Length0 && en.Length1 == img.Length1
    ensures forall x, y :: 0 <= x < en.Length0 && 0 <= y < en.Length1 ==>
      en[x, y] == Cell(root(SquaredEnergy(Cells(img), img.Length0, img.Length1, x, y)), 0)
  {
    var w, h := img.Length0, img.Length1;
    ghost var expected := EnergyGrid(Cells(img), w, h, root);
    en := new Cell[w, h];
    for x := 0 to w
      invariant forall i, j :: 0 <= i < x && 0 <= j < h ==> en[i, j] == Cell(expected[i][j], 0)
    {
      FillColumn(img, en, x, expected, root);
    }
  }

  /** The inner loop of `energies`: the energies of column x, with parent 0. */
  method FillColumn(img: array2<Rgb>, en: array2<Cell>, x: nat, ghost expected: seq<seq<real>>, root: nat -> real)
    requires img.Length0 >= 3 && img.Length1 >= 3 && en.Length0 == img.Length0 && en.Length1 == img.Length1
    requires x < img.Length0 && expected == EnergyGrid(Cells(img), img.Length0, img.Length1, root)
    modifies en
    ensures forall j :: 0 <= j < en.Length1 ==> en[x, j] == Cell(expected[x][j], 0)
    ensures forall i, j :: 0 <= i < en.Length0 && i != x && 0 <= j < en.Length1 ==> en[i, j] == old(en[i, j])
  {
    for y := 0 to en.Length1
      invariant forall j :: 0 <= j < y ==> en[x, j] == Cell(expected[x][j], 0)
      invariant forall i, j :: 0 <= i < en.Length0 && i != x && 0 <= j < en.Length1 ==> en[i, j] == old(en[i, j])
    {
      var e := EnergyAt(img, x, y);
      en[x, y] := Cell(root(e), 0);
    }
  }

  /** The body of the inner loop of `energies`: the two gradients at (x, y), read from the
      image with the clamped column and row. */
  method EnergyAt(img: array2<Rgb>, x: nat, y: nat) returns (e: nat)
    requires img.Length0 >= 3 && img.Length1 >= 3 && x < img.Length0 && y < img.Length1
    ensures e == SquaredEnergy(Cells(img), img.Length0, img.Length1, x, y)
  {
    var w, h := img.Length0, img.Length1;
    var cx, cy := Clamp(x, 1, w - 2), Clamp(y, 1, h - 2);
    var horizontal := PixelDistance(img[cx - 1, y], img[cx + 1, y]);
    var vertical := PixelDistance(img[x, cy - 1], img[x, cy + 1]);
    e := horizontal + vertical;
  }

  /** `rotate90`: a fresh image with the dimensions swapped and every pixel moved. */
  method Rotate90(img: array2<Rgb>, clockwise: bool) returns (r: array2<Rgb>)
    ensures fresh(r) && r.Length0 == img.Length1 && r.Length1 == img.Length0
    ensures Cells(r) == if clockwise then RotatedCW(Cells(img), img.Length0, img.Length1)
                        else RotatedCCW(Cells(img), img.Length0, img.Length1)
  {
    var w, h := img.Length0, img.Length1;
    r := new Rgb[h, w];
    for i := 0 to w
      invariant clockwise ==> forall i', j :: 0 <= i' < i && 0 <= j < h ==> r[h - 1 - j, i'] == img[i', j]
      invariant !clockwise ==> forall i', j :: 0 <= i' < i && 0 <= j < h ==> r[j, w - 1 - i'] == img[i', j]
    {
      for j := 0 to h
        invariant clockwise ==> forall i', j' :: 0 <= i' < i && 0 <= j' < h ==> r[h - 1 - j', i'] == img[i', j']
        invariant !clockwise ==> forall i', j' :: 0 <= i' < i && 0 <= j' < h ==> r[j', w - 1 - i'] == img[i', j']
        invariant clockwise ==> forall j' :: 0 <= j' < j ==> r[h - 1 - j', i] == img[i, j']
        invariant !clockwise ==> forall j' :: 0 <= j' < j ==> r[j', w - 1 - i] == img[i, j']
      {
        if clockwise {
          r[h - j - 1, i] := img[i, j];
        } else {
          r[j, w - i - 1] := img[i, j];
        }
      }
    }
    var expected := if clockwise then RotatedCW(Cells(img), w, h) else RotatedCCW(Cells(img), w, h);
    forall a, b | 0 <= a < h && 0 <= b < w ensures Cells(r)[a][b] == expected[a][b] {
      if clockwise {
        assert r[h - 1 - (h - 1 - a), b] == img[b, h - 1 - a];
      } else {
        assert r[a, w - 1 - (w - 1 - b)] == img[w - 1 - b, a];
      }
    }
    GridExt(Cells(r), expected, h, w);
  }

  /** `carve`: a fresh image one column narrower, without the cheapest seam of its energies. */
  method Carve(img: array2<Rgb>, root: nat -> real) returns (out: array2<Rgb>)
    requires img.Length0 >= 3 && img.Length1 >= 3
    ensures fresh(out) && out.Length0 == img.Length0 - 1 && out.Length1 == img.Length1
    ensures Cells(out) == Carved(Cells(img), img.Length0, img.Length1, root)
  {
    var w, h := img.Length0, img.Length1;
    var en := Energies(img, root);
    GridExt(Costs(en), EnergyGrid(Cells(img), w, h, root), w, h);
    out := CarveWith(img, en);
  }

  /** `main` between reading and writing the file: remove `width` columns, turn the image
      counter-clockwise, remove `height` columns of the turned image, and turn it back. */
  method Reduce(img: array2<Rgb>, width: int, height: int, root: nat -> real) returns (out: array2<Rgb>)
    requires ReductionFits(img.Length0, img.Length1, width, height)
    ensures fresh(out) && out.Length0 == img.Length0 - Count(width) && out.Length1 == img.Length1 - Count(height)
    ensures Cells(out) == Reduced(Cells(img), img.Length0, img.Length1, width, height, root)
  {
    var narrow := CarveRepeatedly(img, width, root);
    var turned := Rotate90(narrow, false);
    var low := CarveRepeatedly(turned, height, root);
    out := Rotate90(low, true);
    ReducedInStages(Cells(img), img.Length0, img.Length1, width, height, root, Cells(narrow), Cells(turned), Cells(low), Cells(out));
  }

  /** `Reduced` is the composition of its four stages. */
  lemma ReducedInStages(g: seq<seq<Rgb>>, w: nat, h: nat, width: int, height: int, root: nat -> real,
                        narrow: seq<seq<Rgb>>, turned: seq<seq<Rgb>>, low: seq<seq<Rgb>>, r: seq<seq<Rgb>>)
    requires IsGrid(g, w, h) && ReductionFits(w, h, width, height)
    requires narrow == CarvedTimes(g, w, h, Count(width), root)
    requires turned == RotatedCCW(narrow, w - Count(width), h)
    requires low == CarvedTimes(turned, h, w - Count(width), Count(height), root)
    requires r == RotatedCW(low, h - Count(height), w - Count(width))
    ensures r == Reduced(g, w, h, width, height, root)
  {
  }

  /** `for (i in 1..n) image = carve(image)`: no carve at all when n <= 0. The loop counts the
      carves still to go. */
  method CarveRepeatedly(img: array2<Rgb>, n: int, root: nat -> real) returns (out: array2<Rgb>)
    requires n >= 1 ==> img.Length1 >= 3 && img.Length0 - n >= 2
    ensures out.Length0 == img.Length0 - Count(n) && out.Length1 == img.Length1
    ensures Cells(out) == CarvedTimes(Cells(img), img.Length0, img.Length1, Count(n), root)
  {
    var k := Count(n);
    ghost var target := CarvedTimes(Cells(img), img.Length0, img.Length1, k, root);
    var image := img;
    var left := k;
    while left > 0
      invariant image.Length0 == img.Length0 - (k - left) && image.Length1 == img.Length1
      invariant CarvesTo(image, left, target, root)
    {
      image := CarveNext(image, left, target, root);
      left := left - 1;
    }
    out := image;
  }

  /** Carving `a` m more times gives `target`. */
  ghost predicate CarvesTo(a: array2<Rgb>, m: int, target: seq<seq<Rgb>>, root: nat -> real)
    reads a
  {
    && 0 <= m <= a.Length0
    && (m >= 1 ==> a.Length1 >= 3 && a.Length0 - m >= 2)
    && CarvedTimes(Cells(a), a.Length0, a.Length1, m, root) == target
  }

  /** One pass of the loop of `CarveRepeatedly` with m carves still to go: one carve now leaves
      m - 1 to go towards the same image. */
  method CarveNext(img: array2<Rgb>, m: int, ghost target: seq<seq<Rgb>>, root: nat -> real) returns (out: array2<Rgb>)
    requires m >= 1 && CarvesTo(img, m, target, root)
    ensures out.Length0 == img.Length0 - 1 && out.Length1 == img.Length1
    ensures CarvesTo(out, m - 1, target, root)
  {
    out := Carve(img, root);
    assert CarvedTimes(Cells(out), img.Length0 - 1, img.Length1, m - 1, root) ==
           CarvedTimes(Cells(img), img.Length0, img.Length1, m, root);
  }

  /** The part of `carve` after `energies`, for any energy grid of the image's shape: the
      dynamic-programming pass overwrites `en` in place, the seam starts at the first minimum of
      the last row, and the walk up the parent pointers copies every row but the seam pixel. */
  method CarveWith(img: array2<Rgb>, en: array2<Cell>) returns (out: array2<Rgb>)
    requires en.Length0 == img.Length0 >= 2 && en.Length1 == img.Length1 >= 1
    modifies en
    ensures fresh(out) && out.Length0 == img.Length0 - 1 && out.Length1 == img.Length1
    ensures var e, w, h := old(Costs(en)), img.Length0, img.Length1;
            Cells(out) == RemoveSeam(Cells(img), w, h, Seam(e, w, h))
  {
    ghost var e := Costs(en);
    var curX, seam := FindSeam(en, e);
    out := CopyWithoutSeam(img, en, curX, seam);
  }

  /** The dynamic-programming pass followed by the choice of the start column: afterwards the
      table holds the cumulative costs and parents of the search, `curX` is where the seam ends,
      and following the stored parents from there walks the seam. */
  method FindSeam(en: array2<Cell>, ghost e: seq<seq<real>>) returns (curX: nat, ghost s: seq<nat>)
    requires en.Length0 >= 1 && en.Length1 >= 1 && e == Costs(en)
    modifies en
    ensures s == Seam(e, en.Length0, en.Length1) && curX == s[en.Length1 - 1]
    ensures forall y :: 1 <= y < en.Length1 ==> en[s[y], y].parent == s[y - 1]
    ensures forall x :: 0 <= x < en.Length0 ==> en[x, 0] == old(en[x, 0])
    ensures forall x, y :: 0 <= x < en.Length0 && 1 <= y < en.Length1 ==>
              en[x, y] == Cell(Cumulative(e, en.Length0, en.Length1, x, y), Parent(e, en.Length0, en.Length1, x, y))
  {
    DynamicPass(en, e);
    curX := StartColumn(en);
    s := Seam(e, en.Length0, en.Length1);
    SeamFromTable(en, e, curX);
  }

  /** Once the table holds the search's costs and parents, the first minimum of its last row is
      where the seam ends, and the stored parents along the seam link each row to the one above. */
  lemma SeamFromTable(en: array2<Cell>, e: seq<seq<real>>, k: nat)
    requires en.Length0 >= 1 && en.Length1 >= 1 && IsGrid(e, en.Length0, en.Length1)
    requires forall x :: 0 <= x < en.Length0 ==> en[x, 0].cost == e[x][0]
    requires forall x, y :: 0 <= x < en.Length0 && 1 <= y < en.Length1 ==>
               en[x, y] == Cell(Cumulative(e, en.Length0, en.Length1, x, y), Parent(e, en.Length0, en.Length1, x, y))
    requires k < en.Length0
    requires forall j :: 0 <= j < en.Length0 ==> LastCosts(en)[k] <= LastCosts(en)[j]
    requires forall j :: 0 <= j < k ==> LastCosts(en)[k] < LastCosts(en)[j]
    ensures var s := Seam(e, en.Length0, en.Length1);
            && k == s[en.Length1 - 1]
            && forall y :: 1 <= y < en.Length1 ==> en[s[y], y].parent == s[y - 1]
  {
    var w, h := en.Length0, en.Length1;
    var row := LastRow(e, w, h);
    assert LastCosts(en) == row by {
      forall x | 0 <= x < w ensures LastCosts(en)[x] == row[x] {
      }
    }
    FirstMinUnique(row, k);
    var s := Seam(e, w, h);
    TraceLinks(e, w, h, k, h - 1);
    forall y | 1 <= y < h ensures en[s[y], y].parent == s[y - 1] {
      assert s[y - 1] == Parent(e, w, h, s[y], y);
    }
  }

  /** The last loop of `carve`: from the bottom row up, copy each row without the pixel in
      column `curX`, then step `curX` to the parent stored for it. The parents stored along the
      path from `start` are those of the seam `s`. */
  method CopyWithoutSeam(img: array2<Rgb>, en: array2<Cell>, start: nat, ghost s: seq<nat>) returns (out: array2<Rgb>)
    requires en.Length0 == img.Length0 >= 2 && en.Length1 == img.Length1 >= 1
    requires |s| == img.Length1 && s[img.Length1 - 1] == start
    requires forall y :: 0 <= y < |s| ==> s[y] < img.Length0
    requires forall y :: 1 <= y < |s| ==> en[s[y], y].parent == s[y - 1]
    ensures fresh(out) && out.Length0 == img.Length0 - 1 && out.Length1 == img.Length1
    ensures Cells(out) == RemoveSeam(Cells(img), img.Length0, img.Length1, s)
  {
    var w, h := img.Length0, img.Length1;
    out := new Rgb[w - 1, h];
    ghost var expected := RemoveSeam(Cells(img), w, h, s);
    var curX := start;
    var y := h - 1;
    while y >= 0
      invariant -1 <= y < h
      invariant y >= 0 ==> curX == s[y]
      invariant forall x, j :: 0 <= x < w - 1 && y < j < h ==> out[x, j] == expected[x][j]
    {
      for x := 0 to w - 1
        invariant forall x', j :: 0 <= x' < w - 1 && y < j < h ==> out[x', j] == expected[x'][j]
        invariant forall x' :: 0 <= x' < x ==> out[x', y] == expected[x'][y]
      {
        if x < curX {
          out[x, y] := img[x, y];
        } else {
          out[x, y] := img[x + 1, y];
        }
      }
      if y > 0 {
        curX := en[curX, y].parent;
      }
      y := y - 1;
    }
    GridExt(Cells(out), expected, w - 1, h);
  }

  /** The costs in the last row of an energy array. */
  ghost function LastCosts(en: array2<Cell>): (row: seq<real>)
    requires en.Length1 >= 1
    reads en
    ensures |row| == en.Length0
    ensures forall x :: 0 <= x < en.Length0 ==> row[x] == en[x, en.Length1 - 1].cost
  {
    seq(en.Length0, x requires 0 <= x < en.Length0 reads en => en[x, en.Length1 - 1].cost)
  }

  /** `energies.indices.minByOrNull { energies[it][h - 1].first }`: the first column of the last
      row with the least cost. */
  method StartColumn(en: array2<Cell>) returns (k: nat)
    requires en.Length0 >= 1 && en.Length1 >= 1
    ensures k < en.Length0
    ensures var row := LastCosts(en);
            forall j :: 0 <= j < en.Length0 ==> row[k] <= row[j]
    ensures var row := LastCosts(en);
            forall j :: 0 <= j < k ==> row[k] < row[j]
  {
    var last := en.Length1 - 1;
    k := 0;
    for i := 1 to en.Length0
      invariant k < i
      invariant forall j :: 0 <= j < i ==> en[k, last].cost <= en[j, last].cost
      invariant forall j :: 0 <= j < k ==> en[k, last].cost < en[j, last].cost
    {
      if en[i, last].cost < en[k, last].cost {
        k := i;
      }
    }
  }

  /** The dynamic-programming pass of `carve`, in place: row by row from row 1, each cell adds
      the cost of its chosen parent in the row above and records that parent. */
  method DynamicPass(en: array2<Cell>, ghost e: seq<seq<real>>)
    requires en.Length0 >= 1 && en.Length1 >= 1 && e == Costs(en)
    modifies en
    ensures forall x :: 0 <= x < en.Length0 ==> en[x, 0] == old(en[x, 0])
    ensures forall x, y :: 0 <= x < en.Length0 && 1 <= y < en.Length1 ==>
              en[x, y] == Cell(Cumulative(e, en.Length0, en.Length1, x, y), Parent(e, en.Length0, en.Length1, x, y))
  {
    var w, h := en.Length0, en.Length1;
    for y := 1 to h
      invariant forall x :: 0 <= x < w ==> en[x, 0] == old(en[x, 0])
      invariant forall x, j :: 0 <= x < w && 1 <= j < y ==>
                  en[x, j] == Cell(Cumulative(e, w, h, x, j), Parent(e, w, h, x, j))
      invariant forall x, j :: 0 <= x < w && y <= j < h ==> en[x, j] == old(en[x, j])
    {
      FillRow(en, e, y - 1, y);
    }
  }

  /** One row of the dynamic-programming pass: with the row above settled, every cell of row
      `above + 1` gets its cumulative cost and parent; nothing else changes. */
  method FillRow(en: array2<Cell>, ghost e: seq<seq<real>>, above: nat, y: nat)
    requires IsGrid(e, en.Length0, en.Length1) && y == above + 1 && y < en.Length1
    requires forall x :: 0 <= x < en.Length0 ==> en[x, above].cost == Cumulative(e, en.Length0, en.Length1, x, above)
    requires forall x :: 0 <= x < en.Length0 ==> en[x, y].cost == e[x][y]
    modifies en
    ensures forall x :: 0 <= x < en.Length0 ==>
              en[x, y] == Cell(Cumulative(e, en.Length0, en.Length1, x, y), Parent(e, en.Length0, en.Length1, x, y))
    ensures forall x, j :: 0 <= x < en.Length0 && 0 <= j < en.Length1 && j != y ==> en[x, j] == old(en[x, j])
  {
    var w, h := en.Length0, en.Length1;
    for x := 0 to w
      invariant forall x' :: 0 <= x' < x ==> en[x', y] == Cell(Cumulative(e, w, h, x', y), Parent(e, w, h, x', y))
      invariant forall x' :: x <= x' < w ==> en[x', y] == old(en[x', y])
      invariant forall x', j :: 0 <= x' < w && 0 <= j < h && j != y ==> en[x', j] == old(en[x', j])
    {
      Settle(en, e, x, above, y);
    }
  }

  /** The body of the inner loop of the pass: cell (x, y) takes the first of its left, centre
      and right candidates whose cost is at most the other two, and adds that cost to its own. */
  method Settle(en: array2<Cell>, ghost e: seq<seq<real>>, x: nat, above: nat, y: nat)
    requires IsGrid(e, en.Length0, en.Length1) && x < en.Length0 && y == above + 1 && y < en.Length1
    requires forall x' :: 0 <= x' < en.Length0 ==> en[x', above].cost == Cumulative(e, en.Length0, en.Length1, x', above)
    requires en[x, y].cost == e[x][y]
    modifies en
    ensures en[x, y] == Cell(Cumulative(e, en.Length0, en.Length1, x, y), Parent(e, en.Length0, en.Length1, x, y))
    ensures forall x', j :: 0 <= x' < en.Length0 && 0 <= j < en.Length1 && (x' != x || j != y) ==> en[x', j] == old(en[x', j])
  {
    var w, h := en.Length0, en.Length1;
    var l := en[LeftOf(x), y - 1].cost;
    var c := en[x, y - 1].cost;
    var r := en[RightOf(x, w), y - 1].cost;
    RowAbove(en, e, x, above, y);
    ghost var settled := Cell(Cumulative(e, w, h, x, y), Parent(e, w, h, x, y));
    if l <= Min(c, r) {
      en[x, y] := Cell(en[x, y].cost + l, LeftOf(x));
    } else if c <= Min(l, r) {
      en[x, y] := Cell(en[x, y].cost + c, x);
    } else if r <= Min(c, l) {
      en[x, y] := Cell(en[x, y].cost + r, RightOf(x, w));
    } else {
      assert false;
    }
    assert en[x, y] == settled;
  }

  /** When the row above holds its cumulative costs and (x, y) still holds its own cost, the
      three candidate costs are those the search compares. */
  lemma RowAbove(en: array2<Cell>, e: seq<seq<real>>, x: nat, above: nat, y: nat)
    requires IsGrid(e, en.Length0, en.Length1) && x < en.Length0 && y == above + 1 && y < en.Length1
    requires forall x' :: 0 <= x' < en.Length0 ==> en[x', above].cost == Cumulative(e, en.Length0, en.Length1, x', above)
    requires en[x, y].cost == e[x][y]
    ensures var w, h := en.Length0, en.Length1;
            var l, c, r := en[LeftOf(x), above].cost, en[x, above].cost, en[RightOf(x, w), above].cost;
            Parent(e, w, h, x, y) == (if l <= Min(c, r) then LeftOf(x) else if c <= Min(l, r) then x else RightOf(x, w)) &&
            Cumulative(e, w, h, x, y) == en[x, y].cost + en[Parent(e, w, h, x, y), above].cost &&
            (l <= Min(c, r) || c <= Min(l, r) || r <= Min(c, l))
  {
  }
}
