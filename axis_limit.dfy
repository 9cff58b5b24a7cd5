/** `AxisLimit`: a bound used in range arithmetic, with an optional value to
    display in its place. */
module AxisLimits {
  import opened Wrappers

  datatype AxisLimit = AxisLimit(calcLimit: real, overrideDisplayedLabel: Option<real>) {

    /** `displayedVal`: the override when one is set (an `undefined` or
        `null` override is `None`), otherwise the calculation bound. */
    function DisplayedVal(): (v: real)
      ensures overrideDisplayedLabel.Some? ==> v == overrideDisplayedLabel.value
      ensures overrideDisplayedLabel.None? ==> v == calcLimit
    {
      if overrideDisplayedLabel.Some? then overrideDisplayedLabel.value else calcLimit
    }
  }

  /** `new AxisLimit(calcLimit, overrideDisplayedLabel?)`. */
  function NewAxisLimit(calcLimit: real, overrideDisplayedLabel: Option<real> := None): (limit: AxisLimit)
    ensures limit.calcLimit == calcLimit
    ensures limit.overrideDisplayedLabel == overrideDisplayedLabel
    ensures overrideDisplayedLabel.None? ==> limit.DisplayedVal() == calcLimit
  {
    AxisLimit(calcLimit, overrideDisplayedLabel)
  }

  /** Only absence is tested, so an override of 0 is shown rather than
      replaced by the bound. */
  lemma ZeroOverrideHonoured(calcLimit: real)
    ensures NewAxisLimit(calcLimit, Some(0.0)).DisplayedVal() == 0.0
  {
  }
}
