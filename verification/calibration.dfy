/** Intensity calibration (app.py, `apply_modality_lut`): the rescale of
    DICOM PS3.3 section C.11.1.1.2, output = stored * slope + intercept,
    applied to every pixel when both RescaleSlope and RescaleIntercept are
    present; otherwise the stored values pass through unchanged. */
module Calibration {
  import opened Wrappers
  import opened Grids
  import opened Slices

  function Rescale(stored: int, slope: real, intercept: real): real
  {
    stored as real * slope + intercept
  }

  function ApplyModalityLut(pixels: seq<seq<int>>, slope: Option<real>, intercept: Option<real>): (r: Grid)
    ensures |r| == |pixels|
    ensures forall i :: 0 <= i < |r| ==> |r[i]| == |pixels[i]|
    ensures forall i, j :: 0 <= i < |pixels| && 0 <= j < |pixels[i]| ==>
      r[i][j] == if slope.Some? && intercept.Some?
                 then Rescale(pixels[i][j], slope.value, intercept.value)
                 else pixels[i][j] as real
  {
    if slope.Some? && intercept.Some? then
      seq(|pixels|, i requires 0 <= i < |pixels| =>
        seq(|pixels[i]|, j requires 0 <= j < |pixels[i]| =>
          Rescale(pixels[i][j], slope.value, intercept.value)))
    else
      seq(|pixels|, i requires 0 <= i < |pixels| =>
        seq(|pixels[i]|, j requires 0 <= j < |pixels[i]| => pixels[i][j] as real))
  }

  /** The calibrated grid of one slice. */
  function Calibrate(s: SliceRecord): Grid
  {
    ApplyModalityLut(s.pixels, s.rescaleSlope, s.rescaleIntercept)
  }

  /** Calibration keeps the shape of the stored grid, in both directions. */
  lemma CalibrateKeepsShape(s: SliceRecord, rows: nat, cols: nat)
    ensures IsGrid(Calibrate(s), rows, cols) <==> IsGrid(s.pixels, rows, cols)
  {
    var r := Calibrate(s);
    if IsGrid(s.pixels, rows, cols) {
      assert forall i :: 0 <= i < rows ==> |r[i]| == |s.pixels[i]|;
    }
  }

  /** Slope 1 and intercept 0 is the identity: the same grid as with the
      tags absent. */
  lemma IdentityRescale(pixels: seq<seq<int>>)
    ensures ApplyModalityLut(pixels, Some(1.0), Some(0.0)) == ApplyModalityLut(pixels, None, None)
  {
    var a := ApplyModalityLut(pixels, Some(1.0), Some(0.0));
    var b := ApplyModalityLut(pixels, None, None);
    forall i | 0 <= i < |pixels| ensures a[i] == b[i] {
      assert |a[i]| == |b[i]|;
    }
  }

  /** With a non-zero slope the rescale can be undone: every stored value is
      recovered from its calibrated value. */
  lemma RescaleInvertible(pixels: seq<seq<int>>, slope: real, intercept: real)
    requires slope != 0.0
    ensures var r := ApplyModalityLut(pixels, Some(slope), Some(intercept));
      forall i, j :: 0 <= i < |pixels| && 0 <= j < |pixels[i]| ==>
        (r[i][j] - intercept) / slope == pixels[i][j] as real
  {
    var r := ApplyModalityLut(pixels, Some(slope), Some(intercept));
    forall i, j | 0 <= i < |pixels| && 0 <= j < |pixels[i]|
      ensures (r[i][j] - intercept) / slope == pixels[i][j] as real
    {
      var x := pixels[i][j] as real;
      assert r[i][j] - intercept == x * slope;
    }
  }

  /** A positive slope keeps the order of stored values. */
  lemma RescaleMonotone(a: int, b: int, slope: real, intercept: real)
    requires slope > 0.0 && a <= b
    ensures Rescale(a, slope, intercept) <= Rescale(b, slope, intercept)
  {
    assert (b - a) as real * slope >= 0.0;
  }

  /** The CT example: slope 1 and intercept -1024 map stored 500 to -524. */
  lemma RescaleExample()
    ensures ApplyModalityLut([[500, 0]], Some(1.0), Some(-1024.0)) == [[-524.0, -1024.0]]
  {
    var r := ApplyModalityLut([[500, 0]], Some(1.0), Some(-1024.0));
    assert |r| == 1 && |r[0]| == 2;
    assert r[0][0] == -524.0 && r[0][1] == -1024.0;
    assert r[0] == [-524.0, -1024.0];
  }
}
