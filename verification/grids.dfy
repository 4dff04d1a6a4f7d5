/** Two- and three-dimensional grids as nested sequences, and their shapes.
    A grid is indexed (row, column); a volume (slice, row, column). */
module Grids {

  type Grid = seq<seq<real>>
  type Volume = seq<Grid>

  /** `g` has `rows` rows of `cols` values each. */
  predicate IsGrid<T>(g: seq<seq<T>>, rows: nat, cols: nat)
  {
    |g| == rows && forall i :: 0 <= i < rows ==> |g[i]| == cols
  }

  /** `v` has shape (n, rows, cols). */
  ghost predicate IsVolume(v: Volume, n: nat, rows: nat, cols: nat)
  {
    |v| == n && forall k :: 0 <= k < n ==> IsGrid(v[k], rows, cols)
  }

  /** The column count of a grid, read from its first row (0 for no rows). */
  function Cols<T>(g: seq<seq<T>>): nat
  {
    if |g| == 0 then 0 else |g[0]|
  }
}
