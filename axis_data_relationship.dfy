/** `AxisDataRelationship` and its two strategies: a direct relationship
    passes the scaled value through, an inverse one turns it into
    `1 - val / (max - min)` first. */
module AxisDataRelationships {
  import opened AxisScales

  datatype AxisDataRelationship = DirectAxisDataRelationship | InverseAxisDataRelationship {

    /** `applyDataRelationship(scale, val, min, max)`; the inverse relationship
        divides by `max - min`, which must not be zero. */
    function ApplyDataRelationship(scale: AxisScale, val: real, min: real, max: real): (r: real)
      requires InverseAxisDataRelationship? ==> max != min
      ensures DirectAxisDataRelationship? ==> r == scale.GetValAlongScale(min, max, val)
      ensures InverseAxisDataRelationship? ==> (1.0 - r) * (max - min) == val
    {
      match this
      case DirectAxisDataRelationship => scale.GetValAlongScale(min, max, val)
      case InverseAxisDataRelationship =>
        var ratio := val / (max - min);
        var inverseRatio := 1.0 - ratio;
        scale.GetValAlongScale(min, max, inverseRatio)
    }
  }

  /** Under the linear scale the direct relationship is the identity, so
      applying it twice is applying it once, and it is monotone. */
  lemma DirectLinearIdentity(min: real, max: real, v: real, w: real)
    ensures DirectAxisDataRelationship.ApplyDataRelationship(LinearAxisScale, v, min, max) == v
    ensures var once := DirectAxisDataRelationship.ApplyDataRelationship(LinearAxisScale, v, min, max);
            DirectAxisDataRelationship.ApplyDataRelationship(LinearAxisScale, once, min, max) == once
    ensures v <= w ==>
              DirectAxisDataRelationship.ApplyDataRelationship(LinearAxisScale, v, min, max)
              <= DirectAxisDataRelationship.ApplyDataRelationship(LinearAxisScale, w, min, max)
  {
  }

  /** Under the linear scale the inverse relationship maps 0 to 1 and the
      whole span `max - min` to 0. */
  lemma InverseLinearEndpoints(min: real, max: real)
    requires max != min
    ensures InverseAxisDataRelationship.ApplyDataRelationship(LinearAxisScale, 0.0, min, max) == 1.0
    ensures InverseAxisDataRelationship.ApplyDataRelationship(LinearAxisScale, max - min, min, max) == 0.0
  {
    var zero := InverseAxisDataRelationship.ApplyDataRelationship(LinearAxisScale, max - min, min, max);
    assert zero * (max - min) == 0.0;
  }

  /** With `max > min` the inverse relationship is strictly decreasing. */
  lemma InverseLinearStrictlyDecreasing(min: real, max: real, v: real, w: real)
    requires max > min && v < w
    ensures InverseAxisDataRelationship.ApplyDataRelationship(LinearAxisScale, w, min, max)
            < InverseAxisDataRelationship.ApplyDataRelationship(LinearAxisScale, v, min, max)
  {
    var rv := InverseAxisDataRelationship.ApplyDataRelationship(LinearAxisScale, v, min, max);
    var rw := InverseAxisDataRelationship.ApplyDataRelationship(LinearAxisScale, w, min, max);
    assert (rv - rw) * (max - min) == w - v;
  }
}
