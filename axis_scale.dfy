/** `AxisScale` and its one strategy, `LinearAxisScale`: how a raw value is
    placed within a range. */
module AxisScales {
  import opened MathUtils

  datatype AxisScale = LinearAxisScale {

    /** `getValAlongScale(min, max, val)`: the linear scale leaves the value
        as it is, whatever the bounds. */
    function GetValAlongScale(min: real, max: real, val: real): (r: real)
      ensures this == LinearAxisScale ==> r == val
    {
      match this
      case LinearAxisScale => val
    }

    /** `getRatioAlongScale(min, max, val)`: `val` as a fraction of the span
        `max - min`, which must not be zero. */
    function GetRatioAlongScale(min: real, max: real, val: real): (r: real)
      requires max != min
      ensures r * (max - min) == val
    {
      match this
      case LinearAxisScale => val / (max - min)
    }
  }

  /** A value of 0 is at ratio 0 and a value of the whole span at ratio 1. */
  lemma LinearRatioEndpoints(min: real, max: real)
    requires max != min
    ensures LinearAxisScale.GetRatioAlongScale(min, max, 0.0) == 0.0
    ensures LinearAxisScale.GetRatioAlongScale(min, max, max - min) == 1.0
  {
    var one := LinearAxisScale.GetRatioAlongScale(min, max, max - min);
    CancelFactor(one, 1.0, max - min);
  }

  /** With `max > min` a larger value has a strictly larger ratio. */
  lemma LinearRatioStrictlyIncreasing(min: real, max: real, v: real, w: real)
    requires max > min && v < w
    ensures LinearAxisScale.GetRatioAlongScale(min, max, v) < LinearAxisScale.GetRatioAlongScale(min, max, w)
  {
    var rv := LinearAxisScale.GetRatioAlongScale(min, max, v);
    var rw := LinearAxisScale.GetRatioAlongScale(min, max, w);
    assert (rw - rv) * (max - min) == w - v;
  }
}
