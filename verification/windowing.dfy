/** Window normalization (app.py, `normalize_image`): a grid of intensities
    mapped to 8-bit display values, either through an explicit window
    (center, width) or by stretching the grid's own range. */
module Windowing {
  import opened Wrappers
  import opened Grids

  datatype Window = Window(center: real, width: real)

  /** A zero-width window divides 0 by 0 (the result is not a number); an
      automatic stretch of a grid with no pixels has no minimum. */
  datatype NormalizeError = ZeroWidthWindow | EmptyImage

  function Low(w: Window): real { w.center - w.width / 2.0 }

  function High(w: Window): real { w.center + w.width / 2.0 }

  /** `np.clip`: raise `x` to `lo`, then lower the result to `hi`. When
      `lo > hi` the result is `hi` whatever `x` is. */
  function Clip(x: real, lo: real, hi: real): real
  {
    var m := if x < lo then lo else x;
    if m > hi then hi else m
  }

  /** The integer part of `x` (truncation toward zero). */
  function Trunc(x: real): int
  {
    if x >= 0.0 then x.Floor else -((-x).Floor)
  }

  /** The float-to-uint8 cast: the integer part, wrapped modulo 256. */
  function ToUInt8(x: real): int
  {
    Trunc(x) % 256
  }

  /** The windowed level of one value before the cast, in the code's own
      formula: clip to [low, high], then scale that range onto [0, 255]. */
  function WindowLevel(x: real, w: Window): real
    requires w.width != 0.0
  {
    (Clip(x, Low(w), High(w)) - Low(w)) / (High(w) - Low(w)) * 255.0
  }

  /** The stretched level of one value before the cast: shift by the grid
      minimum `mn`, then divide by the shifted maximum if it is positive. */
  function AutoLevel(x: real, mn: real, mx: real): real
  {
    var shifted, peak := x - mn, mx - mn;
    if peak > 0.0 then shifted / peak * 255.0 else shifted
  }

  /** All pixels of a grid, row after row. */
  function Flatten(g: Grid): (r: seq<real>)
    ensures |r| == 0 <==> forall i :: 0 <= i < |g| ==> |g[i]| == 0
  {
    if |g| == 0 then [] else g[0] + Flatten(g[1..])
  }

  /** Flattening keeps exactly the pixels of the grid. */
  lemma {:induction false} FlattenPixels(g: Grid)
    ensures forall i, j :: 0 <= i < |g| && 0 <= j < |g[i]| ==> g[i][j] in Flatten(g)
    ensures forall x :: x in Flatten(g) ==> InGrid(x, g)
  {
    if |g| > 0 {
      var rest := Flatten(g[1..]);
      FlattenPixels(g[1..]);
      assert Flatten(g) == g[0] + rest;
      forall i, j | 0 <= i < |g| && 0 <= j < |g[i]| ensures g[i][j] in Flatten(g) {
        if i > 0 {
          assert g[i][j] == g[1..][i - 1][j];
        }
      }
      forall x | x in Flatten(g) ensures InGrid(x, g) {
        if x in g[0] {
          var j :| 0 <= j < |g[0]| && g[0][j] == x;
        } else {
          assert x in rest;
          var i, j :| 0 <= i < |g[1..]| && 0 <= j < |g[1..][i]| && g[1..][i][j] == x;
          assert g[i + 1][j] == x;
        }
      }
    }
  }

  ghost predicate InGrid(x: real, g: Grid)
  {
    exists i, j :: 0 <= i < |g| && 0 <= j < |g[i]| && g[i][j] == x
  }

  function SeqMin(s: seq<real>): (m: real)
    requires |s| > 0
    ensures m in s && forall i :: 0 <= i < |s| ==> m <= s[i]
  {
    if |s| == 1 then s[0]
    else
      var m := SeqMin(s[1..]);
      assert forall i :: 1 <= i < |s| ==> s[i] == s[1..][i - 1];
      if s[0] <= m then s[0] else m
  }

  function SeqMax(s: seq<real>): (m: real)
    requires |s| > 0
    ensures m in s && forall i :: 0 <= i < |s| ==> s[i] <= m
  {
    if |s| == 1 then s[0]
    else
      var m := SeqMax(s[1..]);
      assert forall i :: 1 <= i < |s| ==> s[i] == s[1..][i - 1];
      if s[0] >= m then s[0] else m
  }

  /** The windowed image: every pixel cast from its own window level. */
  function WindowGrid(g: Grid, w: Window): seq<seq<int>>
    requires w.width != 0.0
  {
    seq(|g|, i requires 0 <= i < |g| =>
      seq(|g[i]|, j requires 0 <= j < |g[i]| => ToUInt8(WindowLevel(g[i][j], w))))
  }

  /** The windowed image keeps the grid's shape, pixel for pixel. */
  lemma WindowGridPixels(g: Grid, w: Window)
    requires w.width != 0.0
    ensures var r := WindowGrid(g, w);
      |r| == |g| && (forall i :: 0 <= i < |g| ==> |r[i]| == |g[i]|) &&
      forall i, j :: 0 <= i < |g| && 0 <= j < |g[i]| ==> r[i][j] == ToUInt8(WindowLevel(g[i][j], w))
  {
  }

  /** The stretched image: every pixel cast from its own stretched level. */
  function AutoGrid(g: Grid, mn: real, mx: real): seq<seq<int>>
  {
    seq(|g|, i requires 0 <= i < |g| =>
      seq(|g[i]|, j requires 0 <= j < |g[i]| => ToUInt8(AutoLevel(g[i][j], mn, mx))))
  }

  /** The stretched image keeps the grid's shape, pixel for pixel. */
  lemma AutoGridPixels(g: Grid, mn: real, mx: real)
    ensures var r := AutoGrid(g, mn, mx);
      |r| == |g| && (forall i :: 0 <= i < |g| ==> |r[i]| == |g[i]|) &&
      forall i, j :: 0 <= i < |g| && 0 <= j < |g[i]| ==> r[i][j] == ToUInt8(AutoLevel(g[i][j], mn, mx))
  {
  }

  /** `normalize_image`: the explicit window when one is given, otherwise
      the automatic stretch between the grid's minimum and maximum. */
  function NormalizeImage(g: Grid, window: Option<Window>): Result<seq<seq<int>>, NormalizeError>
  {
    match window
    case Some(w) =>
      if w.width == 0.0 then Err(ZeroWidthWindow) else Ok(WindowGrid(g, w))
    case None =>
      var flat := Flatten(g);
      if |flat| == 0 then Err(EmptyImage) else Ok(AutoGrid(g, SeqMin(flat), SeqMax(flat)))
  }

  // ---------------------------------------------------------------------
  // Properties of one value

  /** A fraction of a positive whole lies in [0, 1] and grows with the part. */
  lemma FractionBounds(t: real, u: real, d: real)
    requires d > 0.0 && 0.0 <= t <= u <= d
    ensures 0.0 <= t / d <= u / d <= 1.0
  {
    var p, q := t / d, u / d;
    assert p * d == t && q * d == u;
    SignOfProduct(p, d);
    SignOfProduct(q - p, d);
    SignOfProduct(1.0 - q, d);
  }

  lemma DivSelf(d: real)
    requires d != 0.0
    ensures d / d == 1.0
  {
  }

  lemma SignOfProduct(a: real, d: real)
    requires d > 0.0
    ensures a < 0.0 ==> a * d < 0.0
  {
  }

  /** A level in [0, 255] is cast to its integer part, without wrapping. */
  lemma CastInRange(y: real)
    requires 0.0 <= y <= 255.0
    ensures ToUInt8(y) == y.Floor && 0 <= ToUInt8(y) <= 255
  {
  }

  /** With a positive width every windowed level lies in [0, 255] and the
      cast neither wraps nor goes negative. */
  lemma WindowLevelRange(x: real, w: Window)
    requires w.width > 0.0
    ensures 0.0 <= WindowLevel(x, w) <= 255.0
    ensures 0 <= ToUInt8(WindowLevel(x, w)) <= 255
    ensures ToUInt8(WindowLevel(x, w)) == WindowLevel(x, w).Floor
  {
    var lo, hi := Low(w), High(w);
    var t := Clip(x, lo, hi) - lo;
    FractionBounds(t, t, hi - lo);
    CastInRange(WindowLevel(x, w));
  }

  /** Values at or below the window's low end give 0, values at or above
      its high end give 255, and the center gives 127. */
  lemma WindowEnds(x: real, w: Window)
    requires w.width > 0.0
    ensures x <= Low(w) ==> ToUInt8(WindowLevel(x, w)) == 0
    ensures x >= High(w) ==> ToUInt8(WindowLevel(x, w)) == 255
    ensures x == w.center ==> ToUInt8(WindowLevel(x, w)) == 127
  {
    WindowLevelRange(x, w);
    var d := High(w) - Low(w);
    if x >= High(w) {
      assert Clip(x, Low(w), High(w)) == High(w);
      DivSelf(d);
      assert WindowLevel(x, w) == 255.0;
    }
    if x == w.center {
      CentreLevel(w);
      CastInRange(127.5);
      assert (127.5).Floor == 127;
    }
  }

  /** The window centre sits halfway up the output range. */
  lemma CentreLevel(w: Window)
    requires w.width > 0.0
    ensures WindowLevel(w.center, w) == 127.5
  {
    var lo, hi := Low(w), High(w);
    var d := hi - lo;
    assert d == w.width && d > 0.0;
    var t := Clip(w.center, lo, hi) - lo;
    assert t == 0.5 * d;
    HalfOf(t, d);
    assert WindowLevel(w.center, w) == t / d * 255.0;
  }

  lemma HalfOf(t: real, d: real)
    requires d > 0.0 && t == 0.5 * d
    ensures t / d == 0.5
  {
    DivMul(t, d);
    Cancel(t / d, 0.5, d);
  }

  lemma DivMul(t: real, d: real)
    requires d != 0.0
    ensures t / d * d == t
  {
  }

  lemma Cancel(a: real, b: real, d: real)
    requires d > 0.0 && a * d == b * d
    ensures a == b
  {
    SignOfProduct(a - b, d);
    SignOfProduct(b - a, d);
  }

  /** The windowed output never decreases as the input grows. */
  lemma WindowMonotone(x: real, y: real, w: Window)
    requires w.width > 0.0 && x <= y
    ensures ToUInt8(WindowLevel(x, w)) <= ToUInt8(WindowLevel(y, w))
  {
    var lo, hi := Low(w), High(w);
    FractionBounds(Clip(x, lo, hi) - lo, Clip(y, lo, hi) - lo, hi - lo);
    WindowLevelRange(x, w);
    WindowLevelRange(y, w);
  }

  /** A negative width makes the clip bounds cross, so every value is
      clipped to the high end and the whole image is 255. */
  lemma NegativeWidthSaturates(x: real, w: Window)
    requires w.width < 0.0
    ensures ToUInt8(WindowLevel(x, w)) == 255
  {
    var lo, hi := Low(w), High(w);
    assert Clip(x, lo, hi) == hi;
    DivSelf(hi - lo);
    assert WindowLevel(x, w) == 255.0;
    CastInRange(255.0);
  }

  /** Example: window center 1000, width 2000 sends 2500 (above the high end
      2000) to 255 and 0 (the low end) to 0. */
  lemma WindowExample()
    ensures NormalizeImage([[2500.0, 0.0]], Some(Window(1000.0, 2000.0))) == Ok([[255, 0]])
  {
    var w := Window(1000.0, 2000.0);
    WindowEnds(2500.0, w);
    WindowEnds(0.0, w);
    var r := WindowGrid([[2500.0, 0.0]], w);
    WindowGridPixels([[2500.0, 0.0]], w);
    assert |r| == 1 && |r[0]| == 2 && r[0][0] == 255 && r[0][1] == 0;
    assert r[0] == [255, 0];
    assert r == [[255, 0]];
  }

  /** A stretched value between the minimum and maximum lies in [0, 255];
      the minimum gives 0, and the maximum gives 255 when it exceeds the
      minimum; when they are equal every value gives 0. */
  lemma AutoLevelRange(x: real, mn: real, mx: real)
    requires mn <= x <= mx
    ensures 0.0 <= AutoLevel(x, mn, mx) <= 255.0
    ensures ToUInt8(AutoLevel(x, mn, mx)) == AutoLevel(x, mn, mx).Floor
    ensures x == mn ==> ToUInt8(AutoLevel(x, mn, mx)) == 0
    ensures x == mx && mn < mx ==> ToUInt8(AutoLevel(x, mn, mx)) == 255
    ensures mn == mx ==> ToUInt8(AutoLevel(x, mn, mx)) == 0
  {
    var peak := mx - mn;
    if peak > 0.0 {
      FractionBounds(x - mn, x - mn, peak);
      if x == mx {
        DivSelf(peak);
        assert AutoLevel(x, mn, mx) == 255.0;
      }
    }
    CastInRange(AutoLevel(x, mn, mx));
  }

  /** The stretched output never decreases as the input grows. */
  lemma AutoMonotone(x: real, y: real, mn: real, mx: real)
    requires mn <= x <= y <= mx
    ensures ToUInt8(AutoLevel(x, mn, mx)) <= ToUInt8(AutoLevel(y, mn, mx))
  {
    if mx - mn > 0.0 {
      FractionBounds(x - mn, y - mn, mx - mn);
    }
    AutoLevelRange(x, mn, mx);
    AutoLevelRange(y, mn, mx);
  }

  // ---------------------------------------------------------------------
  // Properties of whole images

  /** Normalization fails exactly for a zero-width window, or for the
      automatic stretch of a grid without pixels; otherwise it keeps the
      grid's shape. */
  lemma NormalizeOutcome(g: Grid, window: Option<Window>)
    ensures NormalizeImage(g, window).Err? <==>
      (window.Some? && window.value.width == 0.0) ||
      (window.None? && forall i :: 0 <= i < |g| ==> |g[i]| == 0)
    ensures NormalizeImage(g, window).Ok? ==>
      var r := NormalizeImage(g, window).value;
      |r| == |g| && forall i :: 0 <= i < |g| ==> |r[i]| == |g[i]|
  {
    match window
    case Some(w) =>
      if w.width != 0.0 {
        WindowGridPixels(g, w);
      }
    case None =>
      var flat := Flatten(g);
      if |flat| > 0 {
        AutoGridPixels(g, SeqMin(flat), SeqMax(flat));
      }
  }

  /** With a positive width, every output pixel lies in [0, 255], is the
      floor of its windowed level, and depends on its own input value and
      the window only, not on the rest of the grid. */
  lemma NormalizeWindowed(g: Grid, w: Window)
    requires w.width > 0.0
    ensures NormalizeImage(g, Some(w)).Ok?
    ensures var r := NormalizeImage(g, Some(w)).value;
      forall i, j :: 0 <= i < |g| && 0 <= j < |g[i]| ==>
        0 <= r[i][j] <= 255 && r[i][j] == WindowLevel(g[i][j], w).Floor
  {
    WindowGridPixels(g, w);
    forall i, j | 0 <= i < |g| && 0 <= j < |g[i]| {
      WindowLevelRange(g[i][j], w);
    }
  }

  /** Whatever the mode, a normalized image holds only values in [0, 255]:
      the cast never wraps and never goes negative. */
  lemma NormalizeRange(g: Grid, window: Option<Window>)
    requires NormalizeImage(g, window).Ok?
    ensures var r := NormalizeImage(g, window).value;
      forall i, j :: 0 <= i < |g| && 0 <= j < |g[i]| ==> 0 <= r[i][j] <= 255
  {
    match window
    case Some(w) =>
      WindowGridPixels(g, w);
      forall i, j | 0 <= i < |g| && 0 <= j < |g[i]|
        ensures 0 <= ToUInt8(WindowLevel(g[i][j], w)) <= 255
      {
        if w.width > 0.0 {
          WindowLevelRange(g[i][j], w);
        } else {
          NegativeWidthSaturates(g[i][j], w);
        }
      }
    case None =>
      NormalizeAuto(g);
  }

  /** In automatic mode every output pixel lies in [0, 255]; the pixels
      holding the grid's minimum give 0; if the grid is not constant the
      pixels holding its maximum give 255; a constant grid gives all 0. */
  lemma NormalizeAuto(g: Grid)
    requires NormalizeImage(g, None).Ok?
    ensures var r := NormalizeImage(g, None).value;
      forall i, j :: 0 <= i < |g| && 0 <= j < |g[i]| ==> 0 <= r[i][j] <= 255
    ensures var r := NormalizeImage(g, None).value;
      forall i, j :: 0 <= i < |g| && 0 <= j < |g[i]| && IsGridMin(g, g[i][j]) ==> r[i][j] == 0
    ensures var r := NormalizeImage(g, None).value;
      !IsConstant(g) ==>
        forall i, j :: 0 <= i < |g| && 0 <= j < |g[i]| && IsGridMax(g, g[i][j]) ==> r[i][j] == 255
    ensures var r := NormalizeImage(g, None).value;
      IsConstant(g) ==> forall i, j :: 0 <= i < |g| && 0 <= j < |g[i]| ==> r[i][j] == 0
  {
    var flat := Flatten(g);
    var mn, mx := SeqMin(flat), SeqMax(flat);
    AutoGridPixels(g, mn, mx);
    GridExtremes(g);
    forall i, j | 0 <= i < |g| && 0 <= j < |g[i]| {
      AutoLevelRange(g[i][j], mn, mx);
    }
    GridMinMax(g);
  }

  ghost predicate IsGridMin(g: Grid, x: real)
  {
    forall i, j :: 0 <= i < |g| && 0 <= j < |g[i]| ==> x <= g[i][j]
  }

  ghost predicate IsGridMax(g: Grid, x: real)
  {
    forall i, j :: 0 <= i < |g| && 0 <= j < |g[i]| ==> g[i][j] <= x
  }

  /** All pixels of `g` hold the same value. */
  ghost predicate IsConstant(g: Grid)
  {
    forall i, j, k, l :: 0 <= i < |g| && 0 <= j < |g[i]| && 0 <= k < |g| && 0 <= l < |g[k]| ==>
      g[i][j] == g[k][l]
  }

  /** The minimum and maximum of the flattened grid are pixels of the grid
      and bound every pixel. */
  lemma GridExtremes(g: Grid)
    requires |Flatten(g)| > 0
    ensures InGrid(SeqMin(Flatten(g)), g) && IsGridMin(g, SeqMin(Flatten(g)))
    ensures InGrid(SeqMax(Flatten(g)), g) && IsGridMax(g, SeqMax(Flatten(g)))
  {
    var flat := Flatten(g);
    FlattenPixels(g);
    forall i, j | 0 <= i < |g| && 0 <= j < |g[i]|
      ensures SeqMin(flat) <= g[i][j] <= SeqMax(flat)
    {
      assert g[i][j] in flat;
    }
  }

  /** The minimum and maximum used by the stretch are the grid's own, and
      they differ exactly when the grid is not constant. */
  lemma GridMinMax(g: Grid)
    requires |Flatten(g)| > 0
    ensures var flat := Flatten(g);
      forall i, j :: 0 <= i < |g| && 0 <= j < |g[i]| ==>
        (IsGridMin(g, g[i][j]) <==> g[i][j] == SeqMin(flat)) &&
        (IsGridMax(g, g[i][j]) <==> g[i][j] == SeqMax(flat))
    ensures IsConstant(g) <==> SeqMin(Flatten(g)) == SeqMax(Flatten(g))
  {
    var flat := Flatten(g);
    var mn, mx := SeqMin(flat), SeqMax(flat);
    GridExtremes(g);
    var a, b :| 0 <= a < |g| && 0 <= b < |g[a]| && g[a][b] == mn;
    var c, d :| 0 <= c < |g| && 0 <= d < |g[c]| && g[c][d] == mx;
    MinIff(g, a, b);
    MaxIff(g, c, d);
    ConstantIff(g, a, b, c, d);
  }

  /** A pixel is the grid's minimum exactly when it equals a minimal pixel. */
  lemma MinIff(g: Grid, a: nat, b: nat)
    requires a < |g| && b < |g[a]| && IsGridMin(g, g[a][b])
    ensures forall i, j :: 0 <= i < |g| && 0 <= j < |g[i]| ==>
      (IsGridMin(g, g[i][j]) <==> g[i][j] == g[a][b])
  {
    forall i, j | 0 <= i < |g| && 0 <= j < |g[i]| && IsGridMin(g, g[i][j])
      ensures g[i][j] == g[a][b]
    {
      assert g[i][j] <= g[a][b];
    }
  }

  /** A pixel is the grid's maximum exactly when it equals a maximal pixel. */
  lemma MaxIff(g: Grid, c: nat, d: nat)
    requires c < |g| && d < |g[c]| && IsGridMax(g, g[c][d])
    ensures forall i, j :: 0 <= i < |g| && 0 <= j < |g[i]| ==>
      (IsGridMax(g, g[i][j]) <==> g[i][j] == g[c][d])
  {
    forall i, j | 0 <= i < |g| && 0 <= j < |g[i]| && IsGridMax(g, g[i][j])
      ensures g[i][j] == g[c][d]
    {
      assert g[c][d] <= g[i][j];
    }
  }

  /** A grid is constant exactly when its least and greatest pixels agree. */
  lemma ConstantIff(g: Grid, a: nat, b: nat, c: nat, d: nat)
    requires a < |g| && b < |g[a]| && IsGridMin(g, g[a][b])
    requires c < |g| && d < |g[c]| && IsGridMax(g, g[c][d])
    ensures IsConstant(g) <==> g[a][b] == g[c][d]
  {
    if IsConstant(g) {
      assert g[a][b] == g[c][d];
    }
  }


  /** Every pixel of `g` plus `c`. */
  function Shift(g: Grid, c: real): Grid
  {
    seq(|g|, i requires 0 <= i < |g| => seq(|g[i]|, j requires 0 <= j < |g[i]| => g[i][j] + c))
  }

  /** `h` is `g` with `c` added to every pixel. */
  ghost predicate IsShift(h: Grid, g: Grid, c: real)
  {
    |h| == |g| && (forall i :: 0 <= i < |g| ==> |h[i]| == |g[i]|) &&
    forall i, j :: 0 <= i < |g| && 0 <= j < |g[i]| ==> h[i][j] == g[i][j] + c
  }

  lemma ShiftIsShift(g: Grid, c: real)
    ensures IsShift(Shift(g, c), g, c)
  {
  }

  /** Shifting every pixel shifts the grid's minimum and maximum alike. */
  lemma ShiftExtremes(g: Grid, h: Grid, c: real)
    requires IsShift(h, g, c) && |Flatten(g)| > 0
    ensures |Flatten(h)| > 0
    ensures SeqMin(Flatten(h)) == SeqMin(Flatten(g)) + c
    ensures SeqMax(Flatten(h)) == SeqMax(Flatten(g)) + c
  {
    var i0 :| 0 <= i0 < |g| && |g[i0]| != 0;
    assert |h[i0]| != 0;
    GridExtremes(g);
    GridExtremes(h);
    var mg, mh := SeqMin(Flatten(g)), SeqMin(Flatten(h));
    var a, b :| 0 <= a < |g| && 0 <= b < |g[a]| && g[a][b] == mg;
    var a', b' :| 0 <= a' < |h| && 0 <= b' < |h[a']| && h[a'][b'] == mh;
    assert mh <= h[a][b] && mg <= g[a'][b'];
    var xg, xh := SeqMax(Flatten(g)), SeqMax(Flatten(h));
    var e, f :| 0 <= e < |g| && 0 <= f < |g[e]| && g[e][f] == xg;
    var e', f' :| 0 <= e' < |h| && 0 <= f' < |h[e']| && h[e'][f'] == xh;
    assert xh >= h[e][f] && xg >= g[e'][f'];
  }

  /** The automatic stretch depends only on differences between pixels:
      adding the same offset to every pixel leaves the image unchanged. */
  lemma AutoShiftInvariant(g: Grid, c: real)
    ensures NormalizeImage(Shift(g, c), None) == NormalizeImage(g, None)
  {
    ShiftIsShift(g, c);
    AutoShifted(g, Shift(g, c), c);
  }

  lemma AutoShifted(g: Grid, h: Grid, c: real)
    requires IsShift(h, g, c)
    ensures NormalizeImage(h, None) == NormalizeImage(g, None)
  {
    if |Flatten(g)| > 0 {
      var mn, mx := SeqMin(Flatten(g)), SeqMax(Flatten(g));
      ShiftExtremes(g, h, c);
      AutoGridShift(g, h, c, mn, mx);
      AutoShiftedFrom(g, h, c, mn, mx);
    } else {
      ShiftEmpty(g, h, c);
    }
  }

  /** The shifted grid's extremes and stretched image, given as facts, fix
      both results; the proof sees no pixel. */
  lemma AutoShiftedFrom(g: Grid, h: Grid, c: real, mn: real, mx: real)
    requires |Flatten(g)| > 0 && |Flatten(h)| > 0
    requires SeqMin(Flatten(g)) == mn && SeqMax(Flatten(g)) == mx
    requires SeqMin(Flatten(h)) == mn + c && SeqMax(Flatten(h)) == mx + c
    requires AutoGrid(h, mn + c, mx + c) == AutoGrid(g, mn, mx)
    ensures NormalizeImage(h, None) == NormalizeImage(g, None)
  {
    ShiftedUnfold(g, h, c, mn, mx);
    AutoUnfold(g, mn, mx);
  }

  lemma ShiftedUnfold(g: Grid, h: Grid, c: real, mn: real, mx: real)
    requires |Flatten(h)| > 0 && SeqMin(Flatten(h)) == mn + c && SeqMax(Flatten(h)) == mx + c
    requires AutoGrid(h, mn + c, mx + c) == AutoGrid(g, mn, mx)
    ensures NormalizeImage(h, None) == Ok(AutoGrid(g, mn, mx))
  {
    AutoUnfold(h, mn + c, mx + c);
  }

  lemma ShiftEmpty(g: Grid, h: Grid, c: real)
    requires IsShift(h, g, c) && |Flatten(g)| == 0
    ensures NormalizeImage(h, None) == NormalizeImage(g, None) == Err(EmptyImage)
  {
    assert |Flatten(h)| == 0;
  }

  lemma AutoUnfold(g: Grid, mn: real, mx: real)
    requires |Flatten(g)| > 0 && SeqMin(Flatten(g)) == mn && SeqMax(Flatten(g)) == mx
    ensures NormalizeImage(g, None) == Ok(AutoGrid(g, mn, mx))
  {
  }

  lemma AutoGridShift(g: Grid, h: Grid, c: real, mn: real, mx: real)
    requires IsShift(h, g, c)
    ensures AutoGrid(h, mn + c, mx + c) == AutoGrid(g, mn, mx)
  {
    var a, b := AutoGrid(h, mn + c, mx + c), AutoGrid(g, mn, mx);
    AutoGridPixels(h, mn + c, mx + c);
    AutoGridPixels(g, mn, mx);
    forall i | 0 <= i < |g| ensures a[i] == b[i] {
      forall j | 0 <= j < |g[i]| ensures a[i][j] == b[i][j] {
        assert AutoLevel(h[i][j], mn + c, mx + c) == AutoLevel(g[i][j], mn, mx);
      }
    }
  }
}
