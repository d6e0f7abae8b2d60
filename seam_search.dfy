/** The seam search of seam carving, generic over a grid of costs.
    A cost grid `e` is column-major: e[x][y] is the cost of column x in row y, with `w` columns
    and `h` rows. The dynamic-programming pass of `carve` (SeamCarving.kt) fills, for every cell,
    the cheapest cumulative cost of a path from row 0 that moves at most one column per row, and
    the column of the row above that this path goes through (its parent). */
module SeamSearch {
  import opened Grids

  /** max(0, x - 1): the left candidate, clamped to the grid. */
  function LeftOf(x: nat): nat {
    if x == 0 then 0 else x - 1
  }

  /** min(w - 1, x + 1): the right candidate, clamped to the grid. */
  function RightOf(x: nat, w: nat): nat
    requires x < w
  {
    if x + 1 > w - 1 then w - 1 else x + 1
  }

  function Min(a: real, b: real): real {
    if a <= b then a else b
  }

  /** Cumulative cost of cell (x, y) after the top-to-bottom pass: row 0 keeps its own cost,
      every later cell adds the cumulative cost of its chosen parent in the row above. */
  function Cumulative(e: seq<seq<real>>, w: nat, h: nat, x: nat, y: nat): real
    requires IsGrid(e, w, h) && x < w && y < h
    decreases y, 1
  {
    if y == 0 then e[x][0] else e[x][y] + Cumulative(e, w, h, Parent(e, w, h, x, y), y - 1)
  }

  /** The parent chosen for cell (x, y), y >= 1: the first of left, centre and right (each
      clamped) whose cumulative cost is at most the minimum of the other two. */
  function Parent(e: seq<seq<real>>, w: nat, h: nat, x: nat, y: nat): (p: nat)
    requires IsGrid(e, w, h) && x < w && 1 <= y < h
    ensures p < w && p <= x + 1 && x <= p + 1
    decreases y, 0
  {
    var l := Cumulative(e, w, h, LeftOf(x), y - 1);
    var c := Cumulative(e, w, h, x, y - 1);
    var r := Cumulative(e, w, h, RightOf(x, w), y - 1);
    if l <= Min(c, r) then LeftOf(x) else if c <= Min(l, r) then x else RightOf(x, w)
  }

  /** The tie-break policy: the parent attains the minimum of the three candidates, and it is
      the first of left, centre, right that does. In particular the third candidate is only
      chosen when it is itself a minimum, so one of the three branches always applies. */
  lemma ParentPolicy(e: seq<seq<real>>, w: nat, h: nat, x: nat, y: nat)
    requires IsGrid(e, w, h) && x < w && 1 <= y < h
    ensures var l, c, r := Cumulative(e, w, h, LeftOf(x), y - 1), Cumulative(e, w, h, x, y - 1),
                           Cumulative(e, w, h, RightOf(x, w), y - 1);
            var p := Parent(e, w, h, x, y);
            && (p == LeftOf(x) || p == x || p == RightOf(x, w))
            && Cumulative(e, w, h, p, y - 1) == Min(l, Min(c, r))
            && (l <= Min(c, r) ==> p == LeftOf(x))
            && (!(l <= Min(c, r)) && c <= Min(l, r) ==> p == x)
            && (!(l <= Min(c, r)) && !(c <= Min(l, r)) ==> p == RightOf(x, w) && r <= Min(c, l))
            && Cumulative(e, w, h, x, y) == e[x][y] + Min(l, Min(c, r))
  {
  }

  /** First index of a minimum element, scanning upwards and replacing the candidate only on a
      strictly smaller value (Kotlin's minByOrNull). */
  function FirstMin(s: seq<real>): (k: nat)
    requires |s| > 0
    ensures k < |s|
    ensures forall j :: 0 <= j < |s| ==> s[k] <= s[j]
    ensures forall j :: 0 <= j < k ==> s[k] < s[j]
  {
    if |s| == 1 then 0
    else
      var k' := FirstMin(s[..|s| - 1]);
      if s[|s| - 1] < s[k'] then |s| - 1 else k'
  }

  /** The first minimum is the only index that is a minimum with every earlier entry larger. */
  lemma FirstMinUnique(s: seq<real>, k: nat)
    requires k < |s|
    requires forall j :: 0 <= j < |s| ==> s[k] <= s[j]
    requires forall j :: 0 <= j < k ==> s[k] < s[j]
    ensures FirstMin(s) == k
  {
    var m := FirstMin(s);
    assert s[m] <= s[k] && s[k] <= s[m];
  }

  /** The cumulative costs of the last row. */
  function LastRow(e: seq<seq<real>>, w: nat, h: nat): (row: seq<real>)
    requires IsGrid(e, w, h) && h >= 1
    ensures |row| == w && forall x :: 0 <= x < w ==> row[x] == Cumulative(e, w, h, x, h - 1)
  {
    seq(w, x requires 0 <= x < w => Cumulative(e, w, h, x, h - 1))
  }

  /** The columns visited by walking parent pointers up from (x, y) to row 0. */
  function Trace(e: seq<seq<real>>, w: nat, h: nat, x: nat, y: nat): (t: seq<nat>)
    requires IsGrid(e, w, h) && x < w && y < h
    ensures |t| == y + 1 && forall k :: 0 <= k <= y ==> t[k] < w
    decreases y
  {
    if y == 0 then [x] else Trace(e, w, h, Parent(e, w, h, x, y), y - 1) + [x]
  }

  /** The seam `carve` removes: start at the first minimum of the last row and follow parents. */
  function Seam(e: seq<seq<real>>, w: nat, h: nat): (s: seq<nat>)
    requires IsGrid(e, w, h) && w >= 1 && h >= 1
    ensures |s| == h && forall y :: 0 <= y < h ==> s[y] < w
  {
    Trace(e, w, h, FirstMin(LastRow(e, w, h)), h - 1)
  }

  /** A vertical seam: one column per row, inside the grid, moving at most one column per row. */
  predicate IsSeam(s: seq<nat>, w: nat, h: nat) {
    && |s| == h
    && (forall y :: 0 <= y < h ==> s[y] < w)
    && (forall y :: 1 <= y < h ==> s[y] <= s[y - 1] + 1 && s[y - 1] <= s[y] + 1)
  }

  /** Sum of the costs along the path s from row 0 to row y. */
  function PathCost(e: seq<seq<real>>, w: nat, h: nat, s: seq<nat>, y: nat): real
    requires IsGrid(e, w, h) && y < |s| && y < h
    requires forall k :: 0 <= k <= y ==> s[k] < w
    decreases y
  {
    e[s[y]][y] + (if y == 0 then 0.0 else PathCost(e, w, h, s, y - 1))
  }

  /** The path cost up to row y only reads the first y + 1 entries. */
  lemma {:induction false} PathCostPrefix(e: seq<seq<real>>, w: nat, h: nat, s: seq<nat>, s': seq<nat>, y: nat)
    requires IsGrid(e, w, h) && y < |s| && y < |s'| && y < h
    requires forall k :: 0 <= k <= y ==> s[k] < w && s'[k] == s[k]
    ensures PathCost(e, w, h, s, y) == PathCost(e, w, h, s', y)
  {
    if y > 0 {
      PathCostPrefix(e, w, h, s, s', y - 1);
    }
  }

  /** Walking parents from (x, y): every column is inside the grid, the last one is x, and each
      entry is the parent of the one below it. */
  lemma {:induction false} TraceLinks(e: seq<seq<real>>, w: nat, h: nat, x: nat, y: nat)
    requires IsGrid(e, w, h) && x < w && y < h
    ensures var t := Trace(e, w, h, x, y);
            && t[y] == x
            && (forall k :: 0 <= k <= y ==> t[k] < w)
            && (forall k :: 1 <= k <= y ==> t[k] < w && t[k - 1] == Parent(e, w, h, t[k], k))
    decreases y
  {
    if y > 0 {
      var p := Parent(e, w, h, x, y);
      TraceLinks(e, w, h, p, y - 1);
      var t' := Trace(e, w, h, p, y - 1);
      var t := Trace(e, w, h, x, y);
      assert t == t' + [x];
      forall k | 1 <= k <= y ensures t[k] < w && t[k - 1] == Parent(e, w, h, t[k], k) {
        if k < y {
          assert t[k] == t'[k] && t[k - 1] == t'[k - 1];
        }
      }
    }
  }

  /** The cost of the traced path is the cumulative cost stored at its lower end. */
  lemma {:induction false} TraceCost(e: seq<seq<real>>, w: nat, h: nat, x: nat, y: nat)
    requires IsGrid(e, w, h) && x < w && y < h
    ensures PathCost(e, w, h, Trace(e, w, h, x, y), y) == Cumulative(e, w, h, x, y)
    decreases y
  {
    TraceLinks(e, w, h, x, y);
    if y > 0 {
      var p := Parent(e, w, h, x, y);
      var t' := Trace(e, w, h, p, y - 1);
      var t := Trace(e, w, h, x, y);
      TraceLinks(e, w, h, p, y - 1);
      TraceCost(e, w, h, p, y - 1);
      PathCostPrefix(e, w, h, t', t, y - 1);
    }
  }

  /** Any connected path reaching (s[y], y) costs at least the cumulative cost stored there. */
  lemma {:induction false} CumulativeIsLowerBound(e: seq<seq<real>>, w: nat, h: nat, s: seq<nat>, y: nat)
    requires IsGrid(e, w, h) && IsSeam(s, w, h) && y < h
    ensures Cumulative(e, w, h, s[y], y) <= PathCost(e, w, h, s, y)
  {
    if y > 0 {
      CumulativeIsLowerBound(e, w, h, s, y - 1);
      ParentPolicy(e, w, h, s[y], y);
      assert s[y - 1] == LeftOf(s[y]) || s[y - 1] == s[y] || s[y - 1] == RightOf(s[y], w);
    }
  }

  /** The seam has one column per row, inside the grid, and is connected. */
  lemma SeamIsConnected(e: seq<seq<real>>, w: nat, h: nat)
    requires IsGrid(e, w, h) && w >= 1 && h >= 1
    ensures IsSeam(Seam(e, w, h), w, h)
  {
    var t := Seam(e, w, h);
    TraceLinks(e, w, h, FirstMin(LastRow(e, w, h)), h - 1);
    forall y | 1 <= y < h ensures t[y] <= t[y - 1] + 1 && t[y - 1] <= t[y] + 1 {
      assert t[y - 1] == Parent(e, w, h, t[y], y);
    }
  }

  /** The seam ends at the first column of the last row with the least cumulative cost. */
  lemma SeamStart(e: seq<seq<real>>, w: nat, h: nat)
    requires IsGrid(e, w, h) && w >= 1 && h >= 1
    ensures var x, row := Seam(e, w, h)[h - 1], LastRow(e, w, h);
            && x < w
            && (forall j :: 0 <= j < w ==> row[x] <= row[j])
            && (forall j :: 0 <= j < x ==> row[x] < row[j])
  {
    TraceLinks(e, w, h, FirstMin(LastRow(e, w, h)), h - 1);
  }

  /** The seam is a cheapest seam: no connected top-to-bottom path costs less. */
  lemma SeamIsOptimal(e: seq<seq<real>>, w: nat, h: nat, s: seq<nat>)
    requires IsGrid(e, w, h) && w >= 1 && h >= 1 && IsSeam(s, w, h)
    ensures PathCost(e, w, h, Seam(e, w, h), h - 1) <= PathCost(e, w, h, s, h - 1)
  {
    SeamIsConnected(e, w, h);
    var x := FirstMin(LastRow(e, w, h));
    SeamStart(e, w, h);
    TraceLinks(e, w, h, x, h - 1);
    TraceCost(e, w, h, x, h - 1);
    CumulativeIsLowerBound(e, w, h, s, h - 1);
    var row := LastRow(e, w, h);
    assert row[x] <= row[s[h - 1]];
    assert Seam(e, w, h) == Trace(e, w, h, x, h - 1);
  }
}
