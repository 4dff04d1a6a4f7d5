# DICOM series pipeline: a verified model

This project models the processing core of a small web viewer for DICOM
series, written in Python (`app.py`). The viewer accepts a ZIP upload and
decodes the image slices inside it. It orders them into a series and
calibrates each slice with its modality rescale. It stacks them into a
3-D volume and serves axial, coronal and sagittal planes. Each plane is
normalized to 8-bit grey levels, with the DICOM display window when the
first slice carries one and with min/max scaling otherwise.

The modules, one file each:

- `Wrappers` (`wrappers.dfy`): `Option` and `Result`.
- `Upload` (`upload.dfy`): the `.zip` extension filter.
- `Slices` (`slices.dfy`): the decoded slice record. Each DICOM attribute
  that the core reads is modelled as an optional field. `ImagePositionPatient`
  is a tag that is either absent or present. When present, its z component
  may still be unreadable.
- `Grids` (`grids.dfy`): 2-D grids, volumes, and their shape predicates.
- `Ordering` (`ordering.dfy`): the series order chosen by `load_dicom_slices`.
  - `SortBy` is a stable sort, given as a specification function. It is
    proved sorted, a permutation and stable, and uniquely determined by
    those three properties.
  - `OrderSlices` covers the three branches of the loader.
  - `SortInPlace` is an in-place insertion sort on an array, proved equal
    to `SortBy`.
  - `LoadDicomSlices` is the loader as a method, proved equal to
    `OrderSlices`.
- `Calibration` (`calibration.dfy`): `apply_modality_lut`.
- `Assembly` (`assembly.dfy`): `np.stack` of the calibrated slices, as used
  at app.py:189 and app.py:450.
- `Planes` (`planes.dfy`): the slice-index check and the plane slicing.
- `Windowing` (`windowing.dfy`): `normalize_image`, in both its windowed
  and its automatic mode, including the `uint8` cast.
- `Series` (`series.dfy`): the load path and the render paths that connect
  the stages. The load path orders the slices, rejects an empty series,
  reads the window hint and builds the volume. The render paths check the
  index, slice the plane and normalize it.

Pixel values are mathematical reals. Stored pixel values are integers.
`float()` conversions of tag values are assumed to have succeeded already,
since the record holds numbers.

### Behaviour of the code worth knowing

The model follows the code in each of these cases:

- **Order when a position is missing.** The z sort is tried whenever the
  *first* slice has `ImagePositionPatient`. The other slices are not
  consulted when choosing the branch.
- **Unusable keys.** No ordering error is raised for them. A z key that
  cannot be read falls back to the InstanceNumber sort, where a missing
  number counts as 0. A first slice with neither tag leaves discovery order
  unchanged.
- **InstanceNumber branch.** When the first slice has no position but has
  an InstanceNumber, and a later slice lacks it, the sort key raises. This
  is modelled as `Err(MissingInstanceNumber)`.
- **Stacking.** A stacking shape mismatch carries no slice index.
- **Planes.** The views endpoint serves only axial plane 0 and the coronal
  and sagittal mid-planes (`rows // 2`, `cols // 2`). Only the slice
  endpoint checks an index.
- **Windowed normalization.**
  - It truncates rather than rounds, and applies no defensive clamp, so a
    value at the window centre maps to 127.
  - The model proves that the cast never wraps.
  - A negative width makes `np.clip` return the upper bound everywhere,
    so every pixel becomes 255.
  - A zero width divides 0 by 0. This is modelled as `Err(ZeroWidthWindow)`.

## Model

| member | source | states |
|---|---|---|
| Upload.AllowedFile | app.py:23-24 | `allowed_file`: the name contains a dot and the text after its last dot lower-cases to `zip`; characterised by `AllowedFileIff` |
| Upload.Lower | app.py:24 | the result has the input's length and lower-cases each ASCII letter, position by position |
| Upload.LastDot | app.py:24 | `None` exactly when the name has no dot; otherwise it is the index of a dot with no dot after it (the split point of `rsplit('.', 1)`) |
| Upload.AllowedFileIff | app.py:23-24 | a name is accepted iff it has at least four characters, its fourth-last is a dot, and its last three lower-case to `zip` |
| Upload.AllowedFileExamples | app.py:23-24 | `scan.ZIP` and `.zip` are accepted; `zip` and `a.zip.txt` are rejected |
| Ordering.Key | app.py:62-66 | the sort key of one slice: its z for the position sort, its InstanceNumber for the instance sort, 0 when the attribute is missing |
| Ordering.Insert | app.py:62 | one step of the stable sort: the slice goes after every slice whose key does not exceed its own; proved by `InsertSorted`, `InsertPermutes` and `InsertStable` |
| Ordering.SortBy | app.py:62-66 | `list.sort` with a key, as repeated stable insertion; proved a stable sorted permutation by `SortByIsStableSort` |
| Ordering.WithKeyAppend | app.py:62 | the subsequence of slices with a given key distributes over concatenation |
| Ordering.WithKeyNone | app.py:62 | a list whose keys all exceed `v` has no slice with key `v` |
| Ordering.InsertPermutes | app.py:62 | inserting one slice adds exactly that slice to the multiset |
| Ordering.InsertSorted | app.py:62 | inserting into a sorted list keeps it sorted, grows it by one, and puts either the new slice or the old head first |
| Ordering.InsertStable | app.py:62 | insertion puts the new slice after every slice with an equal key |
| Ordering.InsertLast | app.py:62 | a slice whose key is not below any other key is inserted at the end |
| Ordering.InsertAt | app.py:62 | insertion into a sorted list places the slice after the prefix whose keys do not exceed its own |
| Ordering.SortByLength | app.py:62 | sorting keeps the length |
| Ordering.SortByIsStableSort | app.py:62 | the sort result is sorted by key, a permutation of its input, and stable: for every key value, the slices with that key keep their discovery order |
| Ordering.SortBySorted | app.py:62 | sorting an already sorted list returns it unchanged |
| Ordering.StableSortUnique | app.py:62 | two sorted lists that agree on the subsequence of every key value are equal |
| Ordering.StablySortedIsSortBy | app.py:62 | any stable sorted permutation of the input is exactly the sort result, so the stable-sort property determines the order |
| Ordering.OrderSlices | app.py:59-68 | the three branches of the loader's sort: the z sort, its InstanceNumber fallback, the InstanceNumber sort, and discovery order; characterised by `OrderSlicesOutcome` and the `Order*` lemmas |
| Ordering.OrderSlicesOutcome | app.py:59-68 | loading fails iff the first slice has no position but has an InstanceNumber, and some slice lacks one; otherwise the result is a permutation of the same length; a first slice with neither tag leaves discovery order unchanged |
| Ordering.OrderByPosition | app.py:60-62 | when every slice has a readable z, the result is the stable ascending z sort, and every slice in it has a z |
| Ordering.OrderFallback | app.py:63-64 | when the first slice has a position but some z is unreadable, the result is the stable InstanceNumber sort, a missing number counting 0 |
| Ordering.OrderByInstance | app.py:65-66 | when the first slice has no position and every slice has an InstanceNumber, the result is the stable InstanceNumber sort |
| Ordering.OrderIdempotentByPosition | app.py:59-62 | a series already in z order is returned unchanged, and ordering twice equals ordering once |
| Ordering.OrderIdempotentByInstance | app.py:65-66 | whenever the first slice has no position and every slice has an InstanceNumber, ordering twice equals ordering once |
| Ordering.OrderNotIdempotentInFallback | app.py:59-68 | there is a series that orders successfully but whose ordered form fails to order again, because the fallback can move a slice without a position to the front |
| Ordering.OrderExample | app.py:59-62 | z = 2.5, 0.0, 1.25 in discovery order gives the order 1, 2, 0 |
| Ordering.ShiftLarger | app.py:62 | shifts one place right exactly the slices of the sorted prefix whose key exceeds that of the new slice, and returns the gap in front of them; nothing else changes |
| Ordering.InsertInPlace | app.py:62 | after one step the prefix `a[..i+1]` is the old prefix with `a[i]` inserted stably; the rest of the array is unchanged |
| Ordering.SortInPlace | app.py:62 | the array ends equal to the stable sort of its old contents |
| Ordering.LoadDicomSlices | app.py:48-68 | the loader's result, with its branches and its error, is `OrderSlices` of the decoded slices |
| Calibration.Rescale | app.py:73-75 | one stored value times the slope plus the intercept; proved invertible and monotone by `RescaleInvertible` and `RescaleMonotone` |
| Calibration.ApplyModalityLut | app.py:70-76 | keeps the shape; each pixel is `stored * slope + intercept` when both tags are present, and the stored value otherwise |
| Calibration.CalibrateKeepsShape | app.py:70-76 | a calibrated slice has shape rows x cols iff its stored pixels do |
| Calibration.Calibrate | app.py:189 | `apply_modality_lut(s.pixel_array, s)` for one slice, with that slice's own rescale tags |
| Calibration.IdentityRescale | app.py:72-75 | slope 1 and intercept 0 give the same grid as having no rescale tags |
| Calibration.RescaleInvertible | app.py:75 | with a non-zero slope, each stored value is recovered as `(hu - intercept) / slope` |
| Calibration.RescaleMonotone | app.py:75 | a positive slope preserves the order of stored values |
| Calibration.RescaleExample | app.py:70-76 | `[[500, 0]]` with slope 1 and intercept -1024 gives `[[-524, -1024]]` |
| Assembly.Stack | app.py:189 | fails with `EmptyStack` iff there are no grids; succeeds iff every grid has the first grid's shape; on success the volume has shape (N, rows, cols) and slice i is grid i |
| Assembly.BuildVolume | app.py:189 | on success the volume has one slice per input slice, slice i being the calibrated slice i |
| Assembly.BuildVolumeShape | app.py:450 | when the first slice is rows x cols, building succeeds iff every slice is rows x cols, giving shape (N, rows, cols); the only failure is a shape mismatch |
| Assembly.StackMismatchExample | app.py:189 | a 4x4 grid stacked with a 4x5 grid fails with a shape mismatch |
| Planes.SliceAt | app.py:225-233 | fails exactly for an index outside [0, N); otherwise it yields `volume[i]` |
| Planes.Coronal | app.py:273 | one row per slice; row k is row `row` of slice k |
| Planes.Sagittal | app.py:274 | one row per slice; entry (k, j) is pixel (j, `col`) of slice k |
| Planes.MultiplanarViews | app.py:272-274 | the three previews: axial slice 0, the coronal plane at `rows // 2`, the sagittal plane at `cols // 2`; shapes proved by `MultiplanarShapes` |
| Planes.MultiplanarShapes | app.py:272-274 | on an (N, rows, cols) volume the axial, coronal and sagittal previews have shapes (rows, cols), (N, cols) and (N, rows); they agree on the shared voxels |
| Planes.PlanesMeet | app.py:273-274 | the coronal and sagittal planes meet at voxel (k, row, col) of the volume |
| Planes.CoronalReconstructs | app.py:273 | taking row k of every coronal plane rebuilds slice k |
| Planes.SliceAtBuiltVolume | app.py:225-233 | on a built volume, index i yields the calibrated slice i when in range, and the range error otherwise |
| Planes.ViewsExample | app.py:272-274 | for a (10, 256, 256) volume the mid-planes are at index 128, and slice index 10 is out of range |
| Windowing.Clip | app.py:88 | `np.clip` of one value: raised to the low end, then lowered to the high end, so an inverted range gives the high end |
| Windowing.Trunc | app.py:96 | the integer part of a value, truncating toward zero |
| Windowing.ToUInt8 | app.py:96 | the `uint8` cast: the integer part, wrapped modulo 256; shown not to wrap on [0, 255] by `CastInRange` |
| Windowing.WindowLevel | app.py:84-89 | the windowed level of one value before the cast; bounded by `WindowLevelRange` |
| Windowing.AutoLevel | app.py:92-94 | the min/max level of one value before the cast, left unscaled when the peak is not positive; bounded by `AutoLevelRange` |
| Windowing.NormalizeImage | app.py:78-96 | `normalize_image` in both modes, with a zero width and an empty image as errors; characterised by `NormalizeOutcome`, `NormalizeRange` and `NormalizeAuto` |
| Windowing.Flatten | app.py:92 | the pixel list is empty iff every row is empty |
| Windowing.FlattenPixels | app.py:92-94 | the pixel list holds exactly the grid's pixels |
| Windowing.SeqMin | app.py:92 | the result is an element no larger than any other |
| Windowing.SeqMax | app.py:93-94 | the result is an element no smaller than any other |
| Windowing.WindowGrid | app.py:82-96 | the windowed image: every pixel cast from the window level of its own value; its range and order are proved by `NormalizeWindowed` and `WindowMonotone` |
| Windowing.AutoGrid | app.py:90-96 | the stretched image: every pixel cast from the min/max level of its own value; its range is proved by `NormalizeAuto` |
| Windowing.FractionBounds | app.py:89 | for 0 <= t <= u <= d, the fractions t/d <= u/d lie in [0, 1] |
| Windowing.CastInRange | app.py:96 | on [0, 255] the `uint8` cast is the floor and does not wrap |
| Windowing.WindowLevelRange | app.py:82-96 | with a positive width every level lies in [0, 255] and its cast is its floor |
| Windowing.WindowEnds | app.py:84-89 | values at or below the low end map to 0, values at or above the high end to 255, the centre to 127 |
| Windowing.CentreLevel | app.py:84-89 | with a positive width the window centre has level exactly 127.5 before the cast |
| Windowing.WindowMonotone | app.py:88-89 | windowing with a positive width preserves the order of pixel values |
| Windowing.NegativeWidthSaturates | app.py:84-89 | with a negative width every pixel maps to 255 |
| Windowing.WindowExample | app.py:78-96 | centre 1000 and width 2000 map `[[2500, 0]]` to `[[255, 0]]` |
| Windowing.AutoLevelRange | app.py:90-96 | in automatic mode every level lies in [0, 255]; the minimum maps to 0; the maximum maps to 255 unless the grid is constant, which maps to 0 |
| Windowing.AutoMonotone | app.py:90-96 | automatic scaling preserves the order of pixel values |
| Windowing.NormalizeOutcome | app.py:78-96 | normalization fails iff the window width is 0 or, without a window, the grid has no pixels; on success the shape is kept |
| Windowing.NormalizeWindowed | app.py:82-96 | with a positive width normalization succeeds, and each pixel lies in [0, 255] and is the floor of its own window level |
| Windowing.NormalizeRange | app.py:78-96 | every successful normalization, in either mode and for any width sign, yields values in [0, 255] |
| Windowing.NormalizeAuto | app.py:90-96 | in automatic mode values lie in [0, 255]; pixels at the grid minimum become 0; pixels at the maximum become 255 unless the grid is constant, when all become 0 |
| Windowing.GridExtremes | app.py:92-94 | the computed minimum and maximum are pixels of the grid and bound every pixel |
| Windowing.GridMinMax | app.py:92-94 | for every pixel: it is a least pixel iff it equals the computed minimum, and a greatest pixel iff it equals the computed maximum; the grid is constant iff the two are equal |
| Windowing.ShiftExtremes | app.py:92 | adding a constant to every pixel shifts both extremes by that constant |
| Windowing.AutoGridShift | app.py:92-94 | stretching a shifted grid with shifted extremes gives the same image as stretching the original |
| Windowing.AutoShiftInvariant | app.py:90-94 | automatic normalization ignores a constant offset added to every pixel |
| Series.FirstValue | app.py:167-170 | a single value is itself; a multi-valued tag gives its first value, and none when it is empty |
| Series.WindowHint | app.py:164-172 | the default window read from the first slice's WindowCenter and WindowWidth; characterised by `WindowHintSpec` |
| Series.WindowHintSpec | app.py:164-172 | the window hint is absent iff either tag is absent; it fails iff a multi-valued tag is empty; otherwise it is the window of the first centre value and the first width value, so later values are ignored |
| Series.LoadSeries | app.py:143-189 | the load path: order, reject an empty series, read the window hint, stack the calibrated slices; characterised by `LoadSeriesShape` and `LoadSeriesByPosition` |
| Series.LoadSeriesShape | app.py:143-189 | when every decoded slice is rows x cols and ordering and the window tags succeed, loading yields an (N, rows, cols) volume whose slice i is the calibrated ordered slice i |
| Series.LoadSeriesByPosition | app.py:143-189 | when every slice has a z, the volume holds the calibrated slices in stable ascending z order |
| Series.NormalizePlane | app.py:277-279 | a non-empty rows x cols plane with a usable window or none normalizes to a rows x cols image with values in [0, 255] |
| Series.RenderSlice | app.py:225-234 | the slice view: the index check, then `volume[i]` normalized with the stored window; characterised by `RenderSliceSpec` |
| Series.RenderSliceSpec | app.py:225-234 | the slice view succeeds iff 0 <= i < N; it yields a rows x cols image with values in [0, 255] |
| Series.RenderViews | app.py:271-279 | the three previews, each normalized with the stored window; characterised by `RenderViewsSpec` |
| Series.RenderViewsSpec | app.py:271-279 | on a valid volume with a usable window the three previews always render, with shapes (rows, cols), (N, cols) and (N, rows) and values in [0, 255] |

## Left out

- The HTTP layer (Flask routes, JSON responses, status codes) is not part of this model. Neither are file storage (upload folders, `session.json`, `volume.npy`, memory mapping) and ZIP extraction.
- DICOM decoding (`pydicom.dcmread`, `pixel_array`) and the directory scan in `find_dicom_files` are left out. The model starts from the list of decoded slices in discovery order.
- PNG encoding and base64 (`array_to_base64`), the dataset listing endpoints, and the patient metadata dictionary (name, ID, date, modality) are left out; they are I/O or formatting.
- Floating point: pixel and tag values are exact reals. IEEE rounding, NaN and infinities are not modelled.
  - A zero window width, which yields NaN in the code, becomes an explicit error.
- Multi-frame and colour pixel arrays are not modelled. Every slice is a 2-D grid of integers.
- Tag conversion: a tag value that `float()` or `int()` cannot convert is not modelled. An `ImagePositionPatient` whose z cannot be read is modelled as a present tag with no z.
- Upload.Lower: lower-cases ASCII letters only; Python's `str.lower` also folds other Unicode letters.
- Windowing.WindowEnds: states that the centre maps to 127. The truncating cast gives 127; a rounding cast would give 128.
- Series.RenderViewsSpec: stated only for a volume whose slices are all non-empty (`ValidVolume`). On an empty volume the code raises an index error, and that case is not modelled.
