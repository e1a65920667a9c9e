/** The two-thumb salary slider: which thumb is being dragged, and where a
    mouse move puts that thumb. The mouse position and the rounding to a
    step are floating-point display arithmetic; a move therefore receives the
    already stepped value. */
module Slider {
  import opened Wrappers

  datatype Thumb = MinThumb | MaxThumb

  /** A salary range `[low, high]`. */
  datatype Range = Range(low: int, high: int)

  function Max(a: int, b: int): int { if a >= b then a else b }

  function Min(a: int, b: int): int { if a <= b then a else b }

  /** The mouse's position along the track, in percent, kept within the
      track. */
  function ClampPercentage(raw: real): (p: real)
    ensures 0.0 <= p <= 100.0
    ensures 0.0 <= raw <= 100.0 ==> p == raw
    ensures raw < 0.0 ==> p == 0.0
    ensures raw > 100.0 ==> p == 100.0
  {
    var capped := if raw < 100.0 then raw else 100.0;
    if capped > 0.0 then capped else 0.0
  }

  /** Where dragging the low thumb to `stepped` puts it. */
  function NewMin(min: int, step: int, value: Range, stepped: int): int
  {
    Max(min, Min(stepped, value.high - step))
  }

  /** Where dragging the high thumb to `stepped` puts it. */
  function NewMax(max: int, step: int, value: Range, stepped: int): int
  {
    Min(max, Max(stepped, value.low + step))
  }

  /** The low thumb stays on the track and at least a step below the high
      one whenever the track leaves room for that; within those bounds it
      goes where the mouse is. */
  lemma NewMinBounds(min: int, step: int, value: Range, stepped: int)
    ensures NewMin(min, step, value, stepped) >= min
    ensures value.high - step >= min ==> NewMin(min, step, value, stepped) <= value.high - step
    ensures min <= stepped <= value.high - step ==> NewMin(min, step, value, stepped) == stepped
  {
  }

  /** The high thumb stays on the track and at least a step above the low
      one whenever the track leaves room for that; within those bounds it
      goes where the mouse is. */
  lemma NewMaxBounds(max: int, step: int, value: Range, stepped: int)
    ensures NewMax(max, step, value, stepped) <= max
    ensures value.low + step <= max ==> NewMax(max, step, value, stepped) >= value.low + step
    ensures value.low + step <= stepped <= max ==> NewMax(max, step, value, stepped) == stepped
  {
  }

  /** A range that lies on the track with at least a step between its ends. */
  predicate WellSpaced(min: int, max: int, step: int, value: Range)
  {
    min <= value.low && value.low + step <= value.high && value.high <= max
  }

  /** The move of one thumb, when one is being dragged. */
  function Move(min: int, max: int, step: int, value: Range, dragging: Option<Thumb>, stepped: int): Option<Range>
  {
    match dragging
    case None => None
    case Some(MinThumb) => Some(Range(NewMin(min, step, value, stepped), value.high))
    case Some(MaxThumb) => Some(Range(value.low, NewMax(max, step, value, stepped)))
  }

  /** Dragging either thumb keeps a well-spaced range well spaced, and
      changes only the dragged end. */
  lemma {:induction false} MoveKeepsWellSpaced(min: int, max: int, step: int, value: Range, thumb: Thumb, stepped: int)
    requires WellSpaced(min, max, step, value)
    ensures var moved := Move(min, max, step, value, Some(thumb), stepped);
      moved.Some? && WellSpaced(min, max, step, moved.value) &&
      (thumb == MinThumb ==> moved.value.high == value.high) &&
      (thumb == MaxThumb ==> moved.value.low == value.low)
  {
    NewMinBounds(min, step, value, stepped);
    NewMaxBounds(max, step, value, stepped);
  }

  /** The slider's own state. */
  class DoubleRangeSlider {
    const min: int
    const max: int
    const step: int
    var dragging: Option<Thumb>

    constructor (min: int, max: int, step: int)
      ensures this.min == min && this.max == max && this.step == step && dragging.None?
    {
      this.min := min;
      this.max := max;
      this.step := step;
      dragging := None;
    }

    /** `handleMouseDown`: starts dragging a thumb. */
    method MouseDown(thumb: Thumb)
      modifies this
      ensures dragging == Some(thumb)
    {
      dragging := Some(thumb);
    }

    /** `handleMouseUp`: ends dragging. */
    method MouseUp()
      modifies this
      ensures dragging.None?
    {
      dragging := None;
    }

    /** `handleMouseMove`: the range to report through `onChange`, if any.
        Nothing is reported unless a thumb is being dragged; dragging the
        low thumb keeps the high end and the other way round. */
    method MouseMove(value: Range, stepped: int) returns (change: Option<Range>)
      ensures dragging.None? <==> change.None?
      ensures dragging == Some(MinThumb) ==>
        change == Some(Range(NewMin(min, step, value, stepped), value.high))
      ensures dragging == Some(MaxThumb) ==>
        change == Some(Range(value.low, NewMax(max, step, value, stepped)))
      ensures WellSpaced(min, max, step, value) && change.Some? ==> WellSpaced(min, max, step, change.value)
    {
      if dragging.None? {
        return None;
      }
      if dragging == Some(MinThumb) {
        change := Some(Range(NewMin(min, step, value, stepped), value.high));
      } else {
        change := Some(Range(value.low, NewMax(max, step, value, stepped)));
      }
      if WellSpaced(min, max, step, value) {
        MoveKeepsWellSpaced(min, max, step, value, dragging.value, stepped);
      }
    }
  }
}
