/** `AxisRange`: two limits, a scale and a data relationship, used to place a
    raw measurement on an axis and to express it as a fraction of the axis. */
module AxisRanges {
  import opened Wrappers
  import opened MathUtils
  import opened AxisLimits
  import opened AxisScales
  import opened AxisDataRelationships

  datatype AxisRange = AxisRange(min: AxisLimit, max: AxisLimit, scale: AxisScale,
                                 dataRelationship: AxisDataRelationship)
  {
    /** The relationship can be applied: an inverse relationship divides by
        the difference of the calculation limits. */
    predicate Applicable() {
      dataRelationship.InverseAxisDataRelationship? ==> max.calcLimit != min.calcLimit
    }

    /** `range`: the span between the calculation limits, never negative. */
    function Range(): (r: real)
      ensures r >= 0.0
      ensures max.calcLimit >= min.calcLimit ==> r == max.calcLimit - min.calcLimit
      ensures max.calcLimit <= min.calcLimit ==> r == 0.0
    {
      Max(0.0, max.calcLimit - min.calcLimit)
    }

    /** `getValAlongRange(val, clamped)`: the value after the scale and the
        data relationship, clamped to the calculation limits on request. */
    function GetValAlongRange(val: real, clamped: bool := false): (r: real)
      requires Applicable()
      ensures var related := dataRelationship.ApplyDataRelationship(
                scale, scale.GetValAlongScale(min.calcLimit, max.calcLimit, val), min.calcLimit, max.calcLimit);
              r == if clamped then Clamp(related, min.calcLimit, max.calcLimit) else related
      ensures clamped && min.calcLimit <= max.calcLimit ==> min.calcLimit <= r <= max.calcLimit
    {
      var retVal := dataRelationship.ApplyDataRelationship(
        scale, scale.GetValAlongScale(min.calcLimit, max.calcLimit, val), min.calcLimit, max.calcLimit);
      if clamped then Clamp(retVal, min.calcLimit, max.calcLimit) else retVal
    }

    /** `getRatioAlongRange(val, clamped)`: the (possibly clamped) value along
        the range divided by the span, clamped to [0, 1] on request. The model
        asks for a positive span, where the source would divide by zero. */
    function GetRatioAlongRange(val: real, clamped: bool := false): (r: real)
      requires Range() > 0.0
      ensures clamped ==> 0.0 <= r <= 1.0
      ensures !clamped ==> r * Range() == GetValAlongRange(val, false)
      ensures clamped ==> r == Clamp(GetValAlongRange(val, true) / Range(), 0.0, 1.0)
    {
      var retVal := GetValAlongRange(val, clamped) / Range();
      if clamped then Clamp(retVal, 0.0, 1.0) else retVal
    }

    /** The fraction of the way from `min` to `max` that `val` lies
        (from `max` to `min` for an inverse relationship), clamped to [0, 1]
        on request. This is the ratio the axes are meant to show:
        `GetRatioAlongRange` divides the value by the span without first
        subtracting the lower limit. */
    function IntendedRatioAlongRange(val: real, clamped: bool := false): (r: real)
      requires Range() > 0.0
      ensures clamped ==> 0.0 <= r <= 1.0
      ensures !clamped && dataRelationship.DirectAxisDataRelationship? ==> r * Range() == val - min.calcLimit
      ensures !clamped && dataRelationship.InverseAxisDataRelationship? ==> r * Range() == max.calcLimit - val
    {
      var offset := match dataRelationship {
        case DirectAxisDataRelationship => val - min.calcLimit
        case InverseAxisDataRelationship => max.calcLimit - val
      };
      var ratio := offset / Range();
      if clamped then Clamp(ratio, 0.0, 1.0) else ratio
    }
  }

  /** `new AxisRange({min, max, scale, dataRelationship?})`: a missing
      relationship becomes a direct one. */
  function NewAxisRange(min: AxisLimit, max: AxisLimit, scale: AxisScale,
                        dataRelationship: Option<AxisDataRelationship> := None): (r: AxisRange)
    ensures r.min == min && r.max == max && r.scale == scale
    ensures dataRelationship.None? ==> r.dataRelationship == DirectAxisDataRelationship
    ensures dataRelationship.Some? ==> r.dataRelationship == dataRelationship.value
  {
    AxisRange(min, max, scale, dataRelationship.GetOr(DirectAxisDataRelationship))
  }

  /** A direct linear range passes values through, or clamps them to the
      calculation limits when clamping is asked for. */
  lemma DirectLinearValAlongRange(range: AxisRange, val: real)
    requires range.scale == LinearAxisScale && range.dataRelationship == DirectAxisDataRelationship
    ensures range.GetValAlongRange(val, false) == val
    ensures range.GetValAlongRange(val, true) == Clamp(val, range.min.calcLimit, range.max.calcLimit)
  {
  }

  /** An inverse linear range maps `val` to `1 - val / (max - min)`. */
  lemma InverseLinearValAlongRange(range: AxisRange, val: real)
    requires range.scale == LinearAxisScale && range.dataRelationship == InverseAxisDataRelationship
    requires range.max.calcLimit != range.min.calcLimit
    ensures (1.0 - range.GetValAlongRange(val, false)) * (range.max.calcLimit - range.min.calcLimit) == val
  {
  }

  /** The intended ratio puts `min` at 0 and `max` at 1 for a direct
      relationship, the other way round for an inverse one, with or without
      clamping. */
  lemma IntendedRatioEndpoints(range: AxisRange, clamped: bool)
    requires range.Range() > 0.0
    ensures range.dataRelationship.DirectAxisDataRelationship? ==>
              range.IntendedRatioAlongRange(range.min.calcLimit, clamped) == 0.0 &&
              range.IntendedRatioAlongRange(range.max.calcLimit, clamped) == 1.0
    ensures range.dataRelationship.InverseAxisDataRelationship? ==>
              range.IntendedRatioAlongRange(range.min.calcLimit, clamped) == 1.0 &&
              range.IntendedRatioAlongRange(range.max.calcLimit, clamped) == 0.0
  {
    var span := range.Range();
    assert span == range.max.calcLimit - range.min.calcLimit;
    CancelFactor(span / span, 1.0, span);
  }

  /** The intended ratio rises with the value for a direct relationship and
      falls for an inverse one. */
  lemma IntendedRatioMonotone(range: AxisRange, v: real, w: real, clamped: bool)
    requires range.Range() > 0.0 && v <= w
    ensures range.dataRelationship.DirectAxisDataRelationship? ==>
              range.IntendedRatioAlongRange(v, clamped) <= range.IntendedRatioAlongRange(w, clamped)
    ensures range.dataRelationship.InverseAxisDataRelationship? ==>
              range.IntendedRatioAlongRange(w, clamped) <= range.IntendedRatioAlongRange(v, clamped)
  {
    var span := range.Range();
    var lo := range.min.calcLimit;
    var hi := range.max.calcLimit;
    if range.dataRelationship.DirectAxisDataRelationship? {
      QuotientMonotone(v - lo, w - lo, span);
      ClampMonotone((v - lo) / span, (w - lo) / span, 0.0, 1.0);
    } else {
      QuotientMonotone(hi - w, hi - v, span);
      ClampMonotone((hi - w) / span, (hi - v) / span, 0.0, 1.0);
    }
  }
}
