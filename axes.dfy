/** `AxisProps` and its two configurations, the pitch axis and the resonance
    axis: what the compass reads from an analysis and where it puts it. */
module Axes {
  import opened Wrappers
  import opened MathUtils
  import opened AxisLimits
  import opened AxisScales
  import opened AxisDataRelationships
  import opened AxisRanges
  import opened AnalysisOutput

  datatype AxisDimensionDirection = Horizontal | Vertical

  /** The options of `getFormattedValueFromAnalysis`; absent fields are `None`. */
  datatype FormatOptions = FormatOptions(clamped: Option<bool>, precision: Option<int>)

  datatype AxisProps = PitchAxis | ResonanceAxis {

    function Label(): (s: string)
      ensures PitchAxis? ==> s == "Pitch"
      ensures ResonanceAxis? ==> s == "Resonance"
    {
      match this
      case PitchAxis => "Pitch"
      case ResonanceAxis => "Resonance"
    }

    function Unit(): (s: string)
      ensures PitchAxis? ==> s == "Hz"
      ensures ResonanceAxis? ==> s == "%"
    {
      match this
      case PitchAxis => "Hz"
      case ResonanceAxis => "%"
    }

    function Dimension(): (d: AxisDimensionDirection)
      ensures PitchAxis? ==> d == Vertical
      ensures ResonanceAxis? ==> d == Horizontal
    {
      match this
      case PitchAxis => Vertical
      case ResonanceAxis => Horizontal
    }

    /** The configured range: pitch runs directly over 50..400 with its
        bounds displayed as they are; resonance runs inversely over 11..18
        and is displayed as 0..100. Both are linear with a positive span. */
    function Range(): (r: AxisRange)
      ensures r.scale == LinearAxisScale
      ensures r.Range() > 0.0 && r.Applicable()
      ensures PitchAxis? ==>
                r.min.calcLimit == 50.0 && r.max.calcLimit == 400.0 &&
                r.min.DisplayedVal() == 50.0 && r.max.DisplayedVal() == 400.0 &&
                r.dataRelationship == DirectAxisDataRelationship
      ensures ResonanceAxis? ==>
                r.min.calcLimit == 11.0 && r.max.calcLimit == 18.0 &&
                r.min.DisplayedVal() == 0.0 && r.max.DisplayedVal() == 100.0 &&
                r.dataRelationship == InverseAxisDataRelationship
    {
      match this
      case PitchAxis =>
        NewAxisRange(NewAxisLimit(50.0), NewAxisLimit(400.0), LinearAxisScale, Some(DirectAxisDataRelationship))
      case ResonanceAxis =>
        NewAxisRange(NewAxisLimit(11.0, Some(0.0)), NewAxisLimit(18.0, Some(100.0)), LinearAxisScale,
                     Some(InverseAxisDataRelationship))
    }

    /** `getRawValueFromAnalysis`: the axis' measurement, or 0 when absent. */
    function GetRawValueFromAnalysis(analysis: AudioRecorderAnalysisOutput): (v: real)
      ensures PitchAxis? ==> v == (if analysis.pitchHz.Some? then analysis.pitchHz.value else 0.0)
      ensures ResonanceAxis? ==>
                v == (if analysis.vocalTractLengthCm.Some? then analysis.vocalTractLengthCm.value else 0.0)
    {
      match this
      case PitchAxis => analysis.pitchHz.GetOr(0.0)
      case ResonanceAxis => analysis.vocalTractLengthCm.GetOr(0.0)
    }

    /** `getRawValAlongAxisFromRawVal`: the value after the range's scale,
        which for both (linear) axes is the value itself. */
    function GetRawValAlongAxisFromRawVal(val: real): (r: real)
      ensures r == val
    {
      Range().scale.GetValAlongScale(Range().min.calcLimit, Range().max.calcLimit, val)
    }

    function GetRawValAlongAxisFromAnalysis(analysis: AudioRecorderAnalysisOutput): (r: real)
      ensures r == GetRawValueFromAnalysis(analysis)
    {
      GetRawValAlongAxisFromRawVal(GetRawValueFromAnalysis(analysis))
    }

    /** `getValALongRangeFromRawVal`: the range's value for `val`. On the
        pitch axis that is the value, clamped to 50..400 on request; on the
        resonance axis it is `1 - val / 7`, clamped to 11..18 on request. */
    function GetValAlongRangeFromRawVal(val: real, clamped: bool := false): (r: real)
      ensures r == Range().GetValAlongRange(val, clamped)
      ensures PitchAxis? ==> r == if clamped then Clamp(val, 50.0, 400.0) else val
      ensures ResonanceAxis? && !clamped ==> (1.0 - r) * 7.0 == val
      ensures ResonanceAxis? && clamped ==> r == Clamp(1.0 - val / 7.0, 11.0, 18.0)
    {
      Range().GetValAlongRange(val, clamped)
    }

    function GetValAlongRangeFromAnalysis(analysis: AudioRecorderAnalysisOutput, clamped: bool := false): (r: real)
      ensures r == GetValAlongRangeFromRawVal(GetRawValueFromAnalysis(analysis), clamped)
      ensures clamped ==> Range().min.calcLimit <= r <= Range().max.calcLimit
    {
      GetValAlongRangeFromRawVal(GetRawValueFromAnalysis(analysis), clamped)
    }

    /** `getRatioAlongRangeFromRawVal`: the range's ratio for `val`; on the
        pitch axis `val / 350`, clamped as `clamp(clamp(val, 50, 400) / 350,
        0, 1)` on request. */
    function GetRatioAlongRangeFromRawVal(val: real, clamped: bool := false): (r: real)
      ensures r == Range().GetRatioAlongRange(val, clamped)
      ensures clamped ==> 0.0 <= r <= 1.0
      ensures PitchAxis? && !clamped ==> r * 350.0 == val
      ensures PitchAxis? && clamped ==> r == Clamp(Clamp(val, 50.0, 400.0) / 350.0, 0.0, 1.0)
    {
      Range().GetRatioAlongRange(val, clamped)
    }

    function GetRatioAlongRangeFromAnalysis(analysis: AudioRecorderAnalysisOutput, clamped: bool := false): (r: real)
      ensures r == GetRatioAlongRangeFromRawVal(GetRawValueFromAnalysis(analysis), clamped)
      ensures clamped ==> 0.0 <= r <= 1.0
    {
      GetRatioAlongRangeFromRawVal(GetRawValueFromAnalysis(analysis), clamped)
    }

    /** The number `getFormattedValueFromAnalysis` renders as text: the value
        along the range, clamped only when `opts.clamped` is `true`. */
    function FormattedNumberFromAnalysis(analysis: AudioRecorderAnalysisOutput, opts: Option<FormatOptions>): (r: real)
      ensures opts.Some? && opts.value.clamped == Some(true) ==> r == GetValAlongRangeFromAnalysis(analysis, true)
      ensures !(opts.Some? && opts.value.clamped == Some(true)) ==> r == GetValAlongRangeFromAnalysis(analysis, false)
    {
      GetValAlongRangeFromAnalysis(analysis, opts.Some? && opts.value.clamped.GetOr(false))
    }

    /** The ratio the axis is meant to show: 0 at one limit, 1 at the other,
        clamped to [0, 1] on request. */
    function IntendedRatioAlongRangeFromRawVal(val: real, clamped: bool := false): (r: real)
      ensures r == Range().IntendedRatioAlongRange(val, clamped)
      ensures clamped ==> 0.0 <= r <= 1.0
      ensures PitchAxis? && !clamped ==> r * 350.0 == val - 50.0
      ensures ResonanceAxis? && !clamped ==> r * 7.0 == 18.0 - val
    {
      Range().IntendedRatioAlongRange(val, clamped)
    }
  }

  /** The two axes the compass shows. */
  const CompassAxes: seq<AxisProps> := [PitchAxis, ResonanceAxis]

  /** With no pitch, the clamped pitch value is the lower limit 50 and the
      clamped ratio is 1/7. */
  lemma AbsentPitch(analysis: AudioRecorderAnalysisOutput)
    requires analysis.pitchHz.None?
    ensures PitchAxis.GetValAlongRangeFromAnalysis(analysis, true) == 50.0
    ensures PitchAxis.GetRatioAlongRangeFromAnalysis(analysis, true) == 1.0 / 7.0
  {
    assert PitchAxis.GetRawValueFromAnalysis(analysis) == 0.0;
  }

  /** A pitch of 350 Hz or more is at the top of the clamped ratio. */
  lemma HighPitchFullRatio(val: real)
    requires val >= 350.0
    ensures PitchAxis.GetRatioAlongRangeFromRawVal(val, true) == 1.0
  {
    assert Clamp(val, 50.0, 400.0) >= 350.0;
  }

  /** The resonance range spans 7, and any non-negative vocal-tract length
      clamps to the lower limit 11, since `1 - val / 7` is at most 1. */
  lemma ResonanceClampsToMinimum(val: real)
    requires val >= 0.0
    ensures ResonanceAxis.Range().Range() == 7.0
    ensures ResonanceAxis.GetValAlongRangeFromRawVal(val, true) == 11.0
  {
    assert val / 7.0 >= 0.0;
  }

  /** The clamped resonance ratio is 1 for every input: the clamped value
      lies in 11..18, and 11 / 7 already exceeds 1. */
  lemma ResonanceClampedRatioAlwaysOne(val: real)
    ensures ResonanceAxis.GetRatioAlongRangeFromRawVal(val, true) == 1.0
  {
    var v := ResonanceAxis.GetValAlongRangeFromRawVal(val, true);
    assert 11.0 <= v;
    assert v / 7.0 >= 11.0 / 7.0;
  }

  /** The pitch axis' lower limit gets ratio 1/7 where 0 is meant. */
  lemma PitchRatioAtLowerLimit()
    ensures PitchAxis.GetRatioAlongRangeFromRawVal(50.0, true) == 1.0 / 7.0
    ensures PitchAxis.IntendedRatioAlongRangeFromRawVal(50.0, true) == 0.0
  {
    IntendedRatioEndpoints(PitchAxis.Range(), true);
  }

  /** The intended ratios place both axes' limits at the ends of [0, 1]
      (the resonance axis inverted), and a resonance value half way between
      the limits at one half. */
  lemma IntendedRatioOnAxes(clamped: bool)
    ensures PitchAxis.IntendedRatioAlongRangeFromRawVal(50.0, clamped) == 0.0
    ensures PitchAxis.IntendedRatioAlongRangeFromRawVal(400.0, clamped) == 1.0
    ensures ResonanceAxis.IntendedRatioAlongRangeFromRawVal(11.0, clamped) == 1.0
    ensures ResonanceAxis.IntendedRatioAlongRangeFromRawVal(18.0, clamped) == 0.0
    ensures ResonanceAxis.IntendedRatioAlongRangeFromRawVal(14.5, clamped) == 0.5
  {
    IntendedRatioEndpoints(PitchAxis.Range(), clamped);
    IntendedRatioEndpoints(ResonanceAxis.Range(), clamped);
  }
}
