/** Scalar fields: a rectangular grid of cell values indexed first by column x, then by row y. */
module Grids {

  /** The value of a field: column x is g[x], and g[x][y] is the cell at (x, y). */
  type Grid = seq<seq<real>>

  /** A field the smoother can read: at least one column, and every column as long as the first. */
  predicate IsRect(g: Grid) {
    |g| > 0 && forall x :: 0 <= x < |g| ==> |g[x]| == |g[0]|
  }

  /** The number of columns, `noise.length` in the source. */
  function Width(g: Grid): nat {
    |g|
  }

  /** The length of the first column, `noise[0].length` in the source. */
  function Height(g: Grid): nat
    requires |g| > 0
  {
    |g[0]|
  }

  /** Every cell lies in the half-open interval [lo, hi). */
  ghost predicate Bounded(g: Grid, lo: real, hi: real)
    requires IsRect(g)
  {
    forall x, y :: 0 <= x < Width(g) && 0 <= y < Height(g) ==> lo <= g[x][y] < hi
  }

  /** Every cell holds the same value c. */
  ghost predicate Constant(g: Grid, c: real)
    requires IsRect(g)
  {
    forall x, y :: 0 <= x < Width(g) && 0 <= y < Height(g) ==> g[x][y] == c
  }

  /** The value held by a two-dimensional array, cell by cell. */
  ghost function Cells(a: array2<real>): (g: Grid)
    reads a
    ensures |g| == a.Length0
    ensures forall x :: 0 <= x < a.Length0 ==> |g[x]| == a.Length1
    ensures forall x, y :: 0 <= x < a.Length0 && 0 <= y < a.Length1 ==> g[x][y] == a[x, y]
    ensures a.Length0 > 0 ==> IsRect(g) && Width(g) == a.Length0 && Height(g) == a.Length1
  {
    seq(a.Length0, x requires 0 <= x < a.Length0 reads a =>
      seq(a.Length1, y requires 0 <= y < a.Length1 reads a => a[x, y]))
  }

  /** Two fields with the same shape and the same cells are the same field. */
  lemma CellsEqual(g: Grid, h: Grid)
    requires |g| == |h|
    requires forall x :: 0 <= x < |g| ==> |g[x]| == |h[x]|
    requires forall x, y :: 0 <= x < |g| && 0 <= y < |g[x]| ==> g[x][y] == h[x][y]
    ensures g == h
  {
    forall x | 0 <= x < |g|
      ensures g[x] == h[x]
    {
      assert forall y :: 0 <= y < |g[x]| ==> g[x][y] == h[x][y];
    }
  }
}
