/**
 * The viewer's extraction of placed boxes from the environment's space:
 * where it looks for the raw records, and the per-record loop.
 */
module TrimeshViewer {
  import opened Options
  import opened Geometry
  import opened BoxRecords

  /**
   * What the viewer can see of the environment's space: the `boxes`
   * attribute (None when it is absent or None) and, when `get_boxes` is
   * callable, what calling it returns.
   */
  datatype Space = Space(boxes: Option<seq<Record>>, getter: Option<Option<seq<Record>>>)

  /** The raw record list: the `boxes` attribute, else the getter's result. */
  function BoxSource(space: Space): (raw: Option<seq<Record>>)
    ensures space.boxes.Some? ==> raw == space.boxes
    ensures space.boxes.None? && space.getter.Some? ==> raw == space.getter.value
    ensures raw.None? <==> space.boxes.None? && (space.getter.None? || space.getter.value.None?)
  {
    if space.boxes.Some? then space.boxes
    else if space.getter.Some? then space.getter.value
    else None
  }

  /**
   * The placed boxes as (size, lower corner) pairs: with no record list the
   * extraction fails with NoBoxes; otherwise one pair per record, in order,
   * or the error of the first record that cannot be read.
   */
  method ExtractBoxes(space: Space, binMax: real) returns (r: Result<seq<Placement>, RecordError>)
    ensures BoxSource(space).None? ==> r == Err(NoBoxes)
    ensures BoxSource(space).Some? ==> r == ParseAll(BoxSource(space).value, binMax)
    ensures r.Ok? ==> BoxSource(space).Some? && |r.value| == |BoxSource(space).value|
    ensures r.Ok? ==> forall i :: 0 <= i < |r.value| ==>
                        ParseRecord(BoxSource(space).value[i], binMax) == Ok(r.value[i])
  {
    var raw := space.boxes;
    if raw.None? {
      if space.getter.Some? {
        raw := space.getter.value;
      }
    }
    if raw.None? {
      return Err(NoBoxes);
    }
    r := ParseRecords(raw.value, binMax);
  }
}
