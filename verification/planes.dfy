/** Plane extraction (app.py:225-233 and app.py:272-274): a slice picked by
    index after a bounds check, and the default axial, coronal and sagittal
    views through the middle of the volume. Every operation reads the
    volume and returns a new grid; none changes the volume. */
module Planes {
  import opened Wrappers
  import opened Grids
  import opened Slices
  import opened Calibration
  import opened Assembly

  datatype PlaneError = SliceIndexOutOfRange

  /** A volume as assembly leaves it: at least one slice, every slice of
      the same non-empty shape. */
  ghost predicate ValidVolume(v: Volume)
  {
    |v| > 0 && |v[0]| > 0 && |v[0][0]| > 0 && IsVolume(v, |v|, |v[0]|, |v[0][0]|)
  }

  /** `volume[i]` for the slice view, after rejecting an index outside
      [0, N). */
  function SliceAt(v: Volume, i: int): (r: Result<Grid, PlaneError>)
    ensures r.Err? <==> i < 0 || i >= |v|
    ensures r.Ok? ==> r.value == v[i]
  {
    if i < 0 || i >= |v| then Err(SliceIndexOutOfRange) else Ok(v[i])
  }

  /** `volume[:, row, :]`: row `row` of every slice. */
  function Coronal(v: Volume, row: nat): (r: Grid)
    requires forall k :: 0 <= k < |v| ==> row < |v[k]|
    ensures |r| == |v|
    ensures forall k :: 0 <= k < |v| ==> r[k] == v[k][row]
  {
    seq(|v|, k requires 0 <= k < |v| => v[k][row])
  }

  /** `volume[:, :, col]`: column `col` of every slice. */
  function Sagittal(v: Volume, col: nat): (r: Grid)
    requires forall k, j :: 0 <= k < |v| && 0 <= j < |v[k]| ==> col < |v[k][j]|
    ensures |r| == |v|
    ensures forall k :: 0 <= k < |v| ==> |r[k]| == |v[k]|
    ensures forall k, j :: 0 <= k < |v| && 0 <= j < |v[k]| ==> r[k][j] == v[k][j][col]
  {
    seq(|v|, k requires 0 <= k < |v| =>
      seq(|v[k]|, j requires 0 <= j < |v[k]| => v[k][j][col]))
  }

  datatype Views = Views(axial: Grid, coronal: Grid, sagittal: Grid)

  /** The three preview planes: slice 0, the middle row `rows / 2` and the
      middle column `cols / 2`. */
  function MultiplanarViews(v: Volume): (r: Views)
    requires ValidVolume(v)
  {
    Views(v[0], Coronal(v, |v[0]| / 2), Sagittal(v, |v[0][0]| / 2))
  }

  /** The previews have shapes (rows, cols), (N, cols) and (N, rows), and
      they meet along the volume's middle lines. */
  lemma MultiplanarShapes(v: Volume, n: nat, rows: nat, cols: nat)
    requires ValidVolume(v) && IsVolume(v, n, rows, cols)
    ensures var p := MultiplanarViews(v);
      IsGrid(p.axial, rows, cols) && IsGrid(p.coronal, n, cols) && IsGrid(p.sagittal, n, rows)
    ensures var p := MultiplanarViews(v);
      forall k :: 0 <= k < n ==> p.coronal[k][cols / 2] == p.sagittal[k][rows / 2]
    ensures var p := MultiplanarViews(v);
      p.coronal[0] == p.axial[rows / 2] && p.sagittal[0][rows / 2] == p.axial[rows / 2][cols / 2]
  {
    assert |v[0]| == rows && |v[0][0]| == cols;
    var p := MultiplanarViews(v);
    forall k | 0 <= k < n ensures |p.coronal[k]| == cols {
      assert IsGrid(v[k], rows, cols);
    }
    forall k | 0 <= k < n ensures |p.sagittal[k]| == rows {
      assert IsGrid(v[k], rows, cols);
    }
  }

  /** Coronal and sagittal planes both pass through voxel (k, row, col). */
  lemma PlanesMeet(v: Volume, k: nat, row: nat, col: nat)
    requires ValidVolume(v) && k < |v| && row < |v[0]| && col < |v[0][0]|
    ensures Coronal(v, row)[k][col] == Sagittal(v, col)[k][row] == v[k][row][col]
  {
    assert IsGrid(v[k], |v[0]|, |v[0][0]|);
  }

  /** The coronal planes together hold the whole volume: slice k is the
      sequence of the k-th rows of the coronal planes, in row order. */
  lemma CoronalReconstructs(v: Volume, k: nat)
    requires ValidVolume(v) && k < |v|
    ensures seq(|v[0]|, row requires 0 <= row < |v[0]| => Coronal(v, row)[k]) == v[k]
  {
    assert IsGrid(v[k], |v[0]|, |v[0][0]|);
  }

  /** Round trip through assembly: the slice at index i of a volume built
      from a series is exactly the calibrated slice i, and any other index
      is rejected. */
  lemma SliceAtBuiltVolume(slices: seq<SliceRecord>, i: int)
    requires BuildVolume(slices).Ok?
    ensures 0 <= i < |slices| ==> SliceAt(BuildVolume(slices).value, i) == Ok(Calibrate(slices[i]))
    ensures !(0 <= i < |slices|) ==> SliceAt(BuildVolume(slices).value, i) == Err(SliceIndexOutOfRange)
  {
  }

  /** Example: in a 10 x 256 x 256 volume the default coronal plane is row
      128 and slice index 10 is rejected. */
  lemma ViewsExample(v: Volume)
    requires IsVolume(v, 10, 256, 256)
    ensures MultiplanarViews(v).coronal == Coronal(v, 128)
    ensures MultiplanarViews(v).sagittal == Sagittal(v, 128)
    ensures SliceAt(v, 10).Err?
  {
    assert IsGrid(v[0], 256, 256);
  }
}
