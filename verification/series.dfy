/** The load and render paths that connect the pipeline stages: loading a
    series orders the decoded slices, reads the display window from the
    first slice and assembles the volume (app.py:144-191, repeated at
    app.py:395-450); rendering picks a plane and normalizes it
    (app.py:225-234 and app.py:268-279). */
module Series {
  import opened Wrappers
  import opened Grids
  import opened Slices
  import opened Ordering
  import opened Calibration
  import opened Assembly
  import opened Planes
  import opened Windowing

  /** The first value of a tag that may hold several; an empty multi-valued
      tag has none (indexing it fails in the source). */
  function FirstValue(t: TagValue): Option<real>
  {
    match t
    case Single(v) => Some(v)
    case Multi(vs) => if |vs| == 0 then None else Some(vs[0])
  }

  datatype SeriesError =
    | NoSlices
    | OrderFailed(order: OrderError)
    | EmptyWindowTag
    | StackFailed(stack: StackError)

  /** The default display window: read only when the first slice has both
      WindowCenter and WindowWidth, each reduced to its first value. */
  function WindowHint(first: SliceRecord): Result<Option<Window>, SeriesError>
  {
    if first.windowCenter.Some? && first.windowWidth.Some? then
      match (FirstValue(first.windowCenter.value), FirstValue(first.windowWidth.value))
      case (Some(c), Some(w)) => Ok(Some(Window(c, w)))
      case _ => Err(EmptyWindowTag)
    else Ok(None)
  }

  /** The window hint is absent exactly when one of the two tags is absent,
      fails exactly on an empty multi-valued tag, and otherwise is the window
      of the first value of each tag: further values are ignored. */
  lemma WindowHintSpec(first: SliceRecord)
    ensures WindowHint(first) == Ok(None) <==> first.windowCenter.None? || first.windowWidth.None?
    ensures WindowHint(first).Err? <==>
      first.windowCenter.Some? && first.windowWidth.Some? &&
      (FirstValue(first.windowCenter.value).None? || FirstValue(first.windowWidth.value).None?)
    ensures first.windowCenter.Some? && first.windowWidth.Some? ==>
      forall c, w, cs, ws ::
        first.windowCenter.value == Multi([c] + cs) && first.windowWidth.value == Multi([w] + ws) ==>
        WindowHint(first) == WindowHint(first.(windowCenter := Some(Single(c)), windowWidth := Some(Single(w))))
    ensures first.windowCenter.Some? && first.windowWidth.Some? ==>
      var c, w := FirstValue(first.windowCenter.value), FirstValue(first.windowWidth.value);
      c.Some? && w.Some? ==> WindowHint(first) == Ok(Some(Window(c.value, w.value)))
  {
  }

  /** An assembled series: its volume and its default display window. */
  datatype Series = Series(volume: Volume, window: Option<Window>)

  /** Loading: order the slices, reject an empty series, read the window
      from the first ordered slice, then calibrate and stack. */
  function LoadSeries(decoded: seq<SliceRecord>): Result<Series, SeriesError>
  {
    match OrderSlices(decoded)
    case Err(e) => Err(OrderFailed(e))
    case Ok(slices) =>
      if |slices| == 0 then Err(NoSlices)
      else
        match WindowHint(slices[0])
        case Err(e) => Err(e)
        case Ok(window) =>
          match BuildVolume(slices)
          case Err(e) => Err(StackFailed(e))
          case Ok(v) => Ok(Series(v, window))
  }

  /** A series whose slices all have rows x cols pixels loads, once ordering
      and the window tags succeed, into a volume of shape (N, rows, cols)
      whose slice i is the calibrated slice i of the ordered series. */
  lemma LoadSeriesShape(decoded: seq<SliceRecord>, rows: nat, cols: nat)
    requires |decoded| > 0 && rows > 0
    requires forall i :: 0 <= i < |decoded| ==> IsGrid(decoded[i].pixels, rows, cols)
    requires OrderSlices(decoded).Ok?
    requires WindowHint(OrderSlices(decoded).value[0]).Ok?
    ensures LoadSeries(decoded).Ok?
    ensures var v := LoadSeries(decoded).value.volume;
      IsVolume(v, |decoded|, rows, cols) &&
      forall i :: 0 <= i < |decoded| ==> v[i] == Calibrate(OrderSlices(decoded).value[i])
  {
    OrderSlicesOutcome(decoded);
    var slices := OrderSlices(decoded).value;
    forall i | 0 <= i < |slices| ensures IsGrid(slices[i].pixels, rows, cols) {
      assert slices[i] in multiset(decoded);
    }
    BuildVolumeShape(slices, rows, cols);
  }

  /** When every decoded slice has a readable position, the volume holds the
      calibrated slices in ascending z order, equal positions keeping their
      discovery order. */
  lemma LoadSeriesByPosition(decoded: seq<SliceRecord>)
    requires |decoded| > 0 && decoded[0].position.Present? && AllHaveZ(decoded)
    requires LoadSeries(decoded).Ok?
    ensures var v := LoadSeries(decoded).value.volume;
      exists ordered :: StablySorted(ByPosition, ordered, decoded) &&
        |v| == |ordered| && forall i :: 0 <= i < |ordered| ==> v[i] == Calibrate(ordered[i])
  {
    OrderByPosition(decoded);
    var ordered := OrderSlices(decoded).value;
    assert StablySorted(ByPosition, ordered, decoded);
  }

  datatype RenderError = IndexOutOfRange | NormalizeFailed(normalize: NormalizeError)

  /** The slice view: bounds check, then normalize `volume[i]`. */
  function RenderSlice(s: Series, i: int): Result<seq<seq<int>>, RenderError>
  {
    match SliceAt(s.volume, i)
    case Err(_) => Err(IndexOutOfRange)
    case Ok(g) =>
      match NormalizeImage(g, s.window)
      case Err(e) => Err(NormalizeFailed(e))
      case Ok(img) => Ok(img)
  }

  /** On a volume of shape (N, rows, cols) with non-empty slices and a
      usable window, the slice view succeeds exactly for 0 <= i < N and
      gives a rows x cols image of values in [0, 255]. */
  lemma RenderSliceSpec(s: Series, i: int, n: nat, rows: nat, cols: nat)
    requires IsVolume(s.volume, n, rows, cols) && rows > 0 && cols > 0
    requires s.window.Some? ==> s.window.value.width != 0.0
    ensures RenderSlice(s, i).Ok? <==> 0 <= i < n
    ensures RenderSlice(s, i).Ok? ==>
      var img := RenderSlice(s, i).value;
      IsGrid(img, rows, cols) &&
      forall r, c :: 0 <= r < rows && 0 <= c < cols ==> 0 <= img[r][c] <= 255
  {
    if 0 <= i < n {
      NormalizePlane(s.volume[i], s.window, rows, cols);
    }
  }

  /** A non-empty rows x cols plane normalizes, with a usable window or
      none, to a rows x cols image of values in [0, 255]. */
  lemma NormalizePlane(g: Grid, window: Option<Window>, rows: nat, cols: nat)
    requires IsGrid(g, rows, cols) && rows > 0 && cols > 0
    requires window.Some? ==> window.value.width != 0.0
    ensures NormalizeImage(g, window).Ok?
    ensures var img := NormalizeImage(g, window).value;
      IsGrid(img, rows, cols) &&
      forall r, c :: 0 <= r < rows && 0 <= c < cols ==> 0 <= img[r][c] <= 255
  {
    assert |g[0]| > 0;
    NormalizeOutcome(g, window);
    NormalizeRange(g, window);
  }

  /** The three preview images, each normalized with the series window. */
  function RenderViews(s: Series): (r: Result<(seq<seq<int>>, seq<seq<int>>, seq<seq<int>>), NormalizeError>)
    requires ValidVolume(s.volume)
  {
    var p := MultiplanarViews(s.volume);
    match (NormalizeImage(p.axial, s.window), NormalizeImage(p.coronal, s.window), NormalizeImage(p.sagittal, s.window))
    case (Ok(a), Ok(c), Ok(g)) => Ok((a, c, g))
    case (Err(e), _, _) => Err(e)
    case (_, Err(e), _) => Err(e)
    case (_, _, Err(e)) => Err(e)
  }

  /** On a valid volume of shape (N, rows, cols) with a usable window, the
      previews always render, with shapes (rows, cols), (N, cols) and
      (N, rows) and every value in [0, 255]. */
  lemma RenderViewsSpec(s: Series, n: nat, rows: nat, cols: nat)
    requires ValidVolume(s.volume) && IsVolume(s.volume, n, rows, cols)
    requires s.window.Some? ==> s.window.value.width != 0.0
    ensures RenderViews(s).Ok?
    ensures var (a, c, g) := RenderViews(s).value;
      IsGrid(a, rows, cols) && IsGrid(c, n, cols) && IsGrid(g, n, rows)
    ensures var (a, c, g) := RenderViews(s).value;
      (forall i, j :: 0 <= i < rows && 0 <= j < cols ==> 0 <= a[i][j] <= 255) &&
      (forall i, j :: 0 <= i < n && 0 <= j < cols ==> 0 <= c[i][j] <= 255) &&
      (forall i, j :: 0 <= i < n && 0 <= j < rows ==> 0 <= g[i][j] <= 255)
  {
    var p := MultiplanarViews(s.volume);
    MultiplanarShapes(s.volume, n, rows, cols);
    NormalizePlane(p.axial, s.window, rows, cols);
    NormalizePlane(p.coronal, s.window, n, cols);
    NormalizePlane(p.sagittal, s.window, n, rows);
  }
}
