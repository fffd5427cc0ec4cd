/** The frame editor of a video region in the details panel: three number
    fields (start frame, end frame, duration), the first two editable and
    bounded, the last read-only. Frame numbers are integers here. */
module TimelineRegionEditor {
  import opened Common

  // ---------------------------------------------------------------------------
  // The region's range

  /** The part of a video region the editor reads and writes: its first range
      and the length of the video it belongs to. */
  class VideoRegion {
    var start: int
    var end: int
    const length: int
    /** How many times `setRanges` has been called. */
    var rangeUpdates: nat

    constructor(start: int, end: int, length: int)
      ensures this.start == start && this.end == end && this.length == length && rangeUpdates == 0
    {
      this.start := start;
      this.end := end;
      this.length := length;
      rangeUpdates := 0;
    }

    /** `region.setRanges([start, end])` */
    method SetRanges(start: int, end: int)
      modifies this
      ensures this.start == start && this.end == end && rangeUpdates == old(rangeUpdates) + 1
    {
      this.start := start;
      this.end := end;
      rangeUpdates := rangeUpdates + 1;
    }

    /** `changeStartTimeHandler`: nothing when the value is the current start,
        else the range becomes `[value, end]`. */
    method ChangeStartTime(value: int)
      modifies this
      ensures value == old(start) ==> start == old(start) && end == old(end) && rangeUpdates == old(rangeUpdates)
      ensures value != old(start) ==> start == value && end == old(end) && rangeUpdates == old(rangeUpdates) + 1
    {
      if value == start {
        return;
      }
      SetRanges(value, end);
    }

    /** `changeEndTimeHandler`: nothing when the value is the current end,
        else the range becomes `[start, value]`. */
    method ChangeEndTime(value: int)
      modifies this
      ensures value == old(end) ==> start == old(start) && end == old(end) && rangeUpdates == old(rangeUpdates)
      ensures value != old(end) ==> start == old(start) && end == value && rangeUpdates == old(rangeUpdates) + 1
    {
      if value == end {
        return;
      }
      SetRanges(start, value);
    }
  }

  // ---------------------------------------------------------------------------
  // The fields

  /** A bound as the field receives it: a number, or `None` for undefined. */
  predicate IsSet(bound: Option<int>) {
    bound.Some? && bound.value != 0
  }

  /** What `Field.onChange` saves: the typed value raised to a truthy `min`,
      then lowered to a truthy `max`. A bound of 0 or undefined is ignored. */
  function Clamp(value: int, min: Option<int>, max: Option<int>): (r: int)
    ensures r == value || (min.Some? && r == min.value) || (max.Some? && r == max.value)
    ensures (!IsSet(min) || min.value <= value) && (!IsSet(max) || value <= max.value) ==> r == value
    ensures IsSet(max) ==> r <= max.value
    ensures IsSet(min) && (!IsSet(max) || min.value <= max.value) ==> min.value <= r
    ensures !IsSet(min) && !IsSet(max) ==> r == value
  {
    var raised := if IsSet(min) && value < min.value then min.value else value;
    if IsSet(max) && raised > max.value then max.value else raised
  }

  /** A zero bound is not enforced: a minimum of 0 lets a negative value
      through, and a maximum of 0 lets any value through. */
  lemma {:induction false} ZeroBoundsIgnored(value: int)
    ensures Clamp(value, Some(0), Some(0)) == value
  {
  }

  /** Which handler a field saves through. */
  datatype Handler = StartHandler | EndHandler

  datatype FieldProps = FieldProps(caption: string, value: int, onChange: Option<Handler>, min: Option<int>, max: Option<int>)

  /** A field is read-only exactly when it has no `onChange`. */
  predicate Readonly(field: FieldProps) {
    field.onChange.None?
  }

  /** The three fields the editor renders for a range and a video length. */
  function Fields(start: int, end: int, length: int): (fields: seq<FieldProps>)
    ensures |fields| == 3
    ensures fields[0] == FieldProps("Start frame", start, Some(StartHandler), Some(1), Some(end))
    ensures fields[1] == FieldProps("End frame", end, Some(EndHandler), Some(start), Some(length))
    ensures fields[2].caption == "Duration" && fields[2].value == end - start + 1 && Readonly(fields[2])
    ensures forall i :: 0 <= i < 3 ==> (Readonly(fields[i]) <==> i == 2)
  {
    [ FieldProps("Start frame", start, Some(StartHandler), Some(1), Some(end)),
      FieldProps("End frame", end, Some(EndHandler), Some(start), Some(length)),
      FieldProps("Duration", end - start + 1, None, None, None) ]
  }

  /** One rendered number input. */
  class Field {
    const props: FieldProps
    /** The input's current value (`e.target.value`); editable inputs start
        from the field's value and are not controlled afterwards. */
    var input: int

    constructor(props: FieldProps)
      ensures this.props == props && input == props.value
    {
      this.props := props;
      input := props.value;
    }

    /** `onChange` (blur or click): clamps the input, writes the clamped
        value back into the input, and saves it through the handler. */
    method OnChange(region: VideoRegion)
      modifies this, region
      ensures input == Clamp(old(input), props.min, props.max)
      ensures props.onChange == Some(StartHandler) && input != old(region.start) ==>
        region.start == input && region.end == old(region.end) && region.rangeUpdates == old(region.rangeUpdates) + 1
      ensures props.onChange == Some(EndHandler) && input != old(region.end) ==>
        region.start == old(region.start) && region.end == input && region.rangeUpdates == old(region.rangeUpdates) + 1
      ensures props.onChange.None?
              || (props.onChange == Some(StartHandler) && input == old(region.start))
              || (props.onChange == Some(EndHandler) && input == old(region.end)) ==>
        region.start == old(region.start) && region.end == old(region.end) && region.rangeUpdates == old(region.rangeUpdates)
    {
      var value := input;
      if IsSet(props.min) && value < props.min.value {
        input := props.min.value;
        value := props.min.value;
      }
      if IsSet(props.max) && value > props.max.value {
        input := props.max.value;
        value := props.max.value;
      }
      match props.onChange
      case None =>
      case Some(StartHandler) => region.ChangeStartTime(value);
      case Some(EndHandler) => region.ChangeEndTime(value);
    }
  }

  /** The range after the start field saves a typed value: with a non-zero end
      of at least 1, the new start lies in `[1, end]`, so the displayed
      duration is at least 1; an end of 0 lifts the upper bound. */
  function StartEdited(start: int, end: int, typed: int): (range: (int, int))
    ensures range.1 == end
    ensures end >= 1 ==> 1 <= range.0 <= end && Fields(range.0, range.1, 0)[2].value >= 1
    ensures end == 0 ==> range.0 == (if typed < 1 then 1 else typed)
  {
    var field := Fields(start, end, 0)[0];
    (Clamp(typed, field.min, field.max), end)
  }

  /** The range after the end field saves a typed value: with a start of at
      least 1 and a length at least the start, the new end lies in
      `[start, length]`. */
  function EndEdited(start: int, end: int, length: int, typed: int): (range: (int, int))
    ensures range.0 == start
    ensures 1 <= start <= length ==> start <= range.1 <= length && Fields(range.0, range.1, length)[2].value >= 1
    ensures start == 0 && length != 0 ==> range.1 == (if typed > length then length else typed)
  {
    var field := Fields(start, end, length)[1];
    (start, Clamp(typed, field.min, field.max))
  }
}
