/** Volume assembly (app.py:189 and app.py:450): the calibrated slices,
    in series order, stacked along a new leading axis. Stacking needs at
    least one slice and every slice of the same shape as the first. */
module Assembly {
  import opened Wrappers
  import opened Grids
  import opened Slices
  import opened Calibration

  datatype StackError = EmptyStack | ShapeMismatch

  /** Stacks grids into a volume of shape (n, rows, cols), where (rows, cols)
      is the shape of the first grid. */
  function Stack(gs: seq<Grid>): (r: Result<Volume, StackError>)
    ensures r == Err(EmptyStack) <==> |gs| == 0
    ensures r.Ok? <==> |gs| > 0 && forall i :: 0 <= i < |gs| ==> IsGrid(gs[i], |gs[0]|, Cols(gs[0]))
    ensures r.Ok? ==> IsVolume(r.value, |gs|, |gs[0]|, Cols(gs[0]))
    ensures r.Ok? ==> forall i :: 0 <= i < |gs| ==> r.value[i] == gs[i]
  {
    if |gs| == 0 then Err(EmptyStack)
    else if forall i :: 0 <= i < |gs| ==> IsGrid(gs[i], |gs[0]|, Cols(gs[0])) then Ok(gs)
    else Err(ShapeMismatch)
  }

  /** The series volume: each slice calibrated, then stacked in order. */
  function BuildVolume(slices: seq<SliceRecord>): (r: Result<Volume, StackError>)
    ensures r.Ok? ==> |r.value| == |slices|
    ensures r.Ok? ==> forall i :: 0 <= i < |slices| ==> r.value[i] == Calibrate(slices[i])
  {
    Stack(seq(|slices|, i requires 0 <= i < |slices| => Calibrate(slices[i])))
  }

  /** Slices whose stored grids all have shape rows x cols assemble into a
      volume of shape (N, rows, cols); if two stored shapes differ (and the
      first is rectangular), assembly fails with a shape mismatch. */
  lemma BuildVolumeShape(slices: seq<SliceRecord>, rows: nat, cols: nat)
    requires |slices| > 0 && rows > 0 && IsGrid(slices[0].pixels, rows, cols)
    ensures BuildVolume(slices).Ok? <==>
      forall i :: 0 <= i < |slices| ==> IsGrid(slices[i].pixels, rows, cols)
    ensures BuildVolume(slices).Ok? ==> IsVolume(BuildVolume(slices).value, |slices|, rows, cols)
    ensures BuildVolume(slices).Err? ==> BuildVolume(slices).error == ShapeMismatch
  {
    var gs := seq(|slices|, i requires 0 <= i < |slices| => Calibrate(slices[i]));
    CalibrateKeepsShape(slices[0], rows, cols);
    assert Cols(gs[0]) == cols by {
      assert |gs[0][0]| == |slices[0].pixels[0]|;
    }
    forall i | 0 <= i < |slices|
      ensures IsGrid(gs[i], rows, cols) <==> IsGrid(slices[i].pixels, rows, cols)
    {
      CalibrateKeepsShape(slices[i], rows, cols);
    }
  }

  /** Two slices of shapes 4 x 4 and 4 x 5 do not stack. */
  lemma StackMismatchExample()
    ensures var a: Grid := seq(4, _ => seq(4, _ => 0.0));
            var b: Grid := seq(4, _ => seq(5, _ => 0.0));
            Stack([a, b]) == Err(ShapeMismatch)
  {
    var a: Grid := seq(4, _ => seq(4, _ => 0.0));
    var b: Grid := seq(4, _ => seq(5, _ => 0.0));
    assert |a| == 4 && Cols(a) == 4;
    assert |b[0]| == 5 && !IsGrid(b, 4, 4);
    assert !IsGrid([a, b][1], |[a, b][0]|, Cols([a, b][0]));
  }
}
