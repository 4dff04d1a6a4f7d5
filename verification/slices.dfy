/** One decoded scan slice, as the series loader receives it from the
    decoder: the tags the pipeline reads, each of which may be absent. */
module Slices {
  import opened Wrappers

  /** The ImagePositionPatient tag (DICOM PS3.3 section C.7.6.2). When it is
      present, `z` is its third component if that converts to a number;
      `None` covers a short tag or a value that does not convert. */
  datatype PositionTag = Absent | Present(z: Option<real>)

  /** A tag that holds either one value or several (a multi-valued field). */
  datatype TagValue = Single(value: real) | Multi(values: seq<real>)

  datatype SliceRecord = SliceRecord(
    position: PositionTag,
    instanceNumber: Option<int>,
    pixels: seq<seq<int>>,
    rescaleSlope: Option<real>,
    rescaleIntercept: Option<real>,
    windowCenter: Option<TagValue>,
    windowWidth: Option<TagValue>)

  /** The slice's position along the scan axis, when it can be read. */
  function Z(s: SliceRecord): Option<real>
  {
    if s.position.Present? then s.position.z else None
  }

  predicate AllHaveZ(s: seq<SliceRecord>)
  {
    forall i :: 0 <= i < |s| ==> Z(s[i]).Some?
  }

  predicate AllHaveInstanceNumber(s: seq<SliceRecord>)
  {
    forall i :: 0 <= i < |s| ==> s[i].instanceNumber.Some?
  }
}
