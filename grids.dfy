/** Rectangular grids shared by the image and matrix models.
    A grid value is a sequence of columns (or rows) of equal length; a two-dimensional
    array is read as such a value through Cells. */
module Grids {

  /** `g` has `n` outer entries, each of length `m`. */
  predicate IsGrid<T>(g: seq<seq<T>>, n: nat, m: nat) {
    |g| == n && forall i :: 0 <= i < n ==> |g[i]| == m
  }

  /** The value held by a two-dimensional array: Cells(a)[i][j] == a[i, j]. */
  ghost function Cells<T>(a: array2<T>): (g: seq<seq<T>>)
    reads a
    ensures IsGrid(g, a.Length0, a.Length1)
    ensures forall i, j :: 0 <= i < a.Length0 && 0 <= j < a.Length1 ==> g[i][j] == a[i, j]
  {
    seq(a.Length0, i requires 0 <= i < a.Length0 reads a =>
      seq(a.Length1, j requires 0 <= j < a.Length1 reads a => a[i, j]))
  }

  /** Two grids of the same shape that agree everywhere are equal. */
  lemma GridExt<T>(g: seq<seq<T>>, h: seq<seq<T>>, n: nat, m: nat)
    requires IsGrid(g, n, m) && IsGrid(h, n, m)
    requires forall i, j :: 0 <= i < n && 0 <= j < m ==> g[i][j] == h[i][j]
    ensures g == h
  {
    forall i | 0 <= i < n ensures g[i] == h[i] {
      assert forall j :: 0 <= j < m ==> g[i][j] == h[i][j];
    }
  }
}
