# vocal-compass core in Dafny

vocal-compass is a browser voice-training aid. It takes a frequency-domain
magnitude buffer from the microphone and estimates two quantities. One is the
fundamental pitch, from the strongest bin above a threshold with parabolic
refinement. The other is a vocal-tract length, from the first formant of a
smoothed envelope. Each estimate is then placed on a compass axis through a
small mapping framework: a limit pair, a scale, a direct or inverse data
relationship, clamping and a ratio.

The project models that engine:

- the spectral analysis of `src/App/util/audio-utils.ts`;
- the axis framework of `src/App/models/Axis/`;
- three small utilities: the `mm:ss` timer text, hex-colour interpolation
  and zero-padding a byte buffer to a multiple of four.

The source's loops are Dafny methods with loop invariants, each proved against
a specification function:

- `findPeakIndex`, `getPeaks` and `getFormants`;
- the two sample/byte conversions;
- the buffer padding.

The expression code is Dafny functions. Lemmas state what the source promises
about them.

Files, one module each:

| file | module | models |
|---|---|---|
| `wrappers.dfy` | `Wrappers` | `Option`, with `GetOr` for `??` |
| `math_utils.dfy` | `MathUtils` | `Max`, `Min`, `clamp`, integer powers, `Math.round`, arithmetic lemmas |
| `analysis_output.dfy` | `AnalysisOutput` | `AudioRecorderAnalysisOutput` |
| `pitch.dfy` | `Pitch` | `findPeakIndex`, `calculatePitchFromFloat32` |
| `segment_peaks.dfy` | `SegmentPeaks` | `getPeaks` |
| `formants.dfy` | `Formants` | `getFormants` |
| `sample_conversion.dfy` | `SampleConversion` | `float32ToUint8`, `uint8ToFloat32` |
| `audio_analysis.dfy` | `AudioAnalysis` | `calculateFormants`, `calculateFirstFormantFrequency`, `calculateVocalTractLength`, `analyzeAudio` |
| `axis_limit.dfy` | `AxisLimits` | `AxisLimit` |
| `axis_scale.dfy` | `AxisScales` | `AxisScale` / `LinearAxisScale` |
| `axis_data_relationship.dfy` | `AxisDataRelationships` | direct and inverse relationships |
| `axis_range.dfy` | `AxisRanges` | `AxisRange` |
| `axes.dfy` | `Axes` | `AxisProps`, `PitchAxis`, `ResonanceAxis`, the axis list |
| `time_utils.dfy` | `TimeUtils` | `formatTime` |
| `style_utils.dfy` | `StyleUtils` | `interpolateHexColors` with `hexToRgb` and `rgbToHex` |
| `array_utils.dfy` | `ArrayUtils` | `ensureArrayBufferMultipleOf4` |

Some modelling choices follow.

Samples are `real` and bytes are the subset type `uint8`. The abstract scale
and relationship classes become datatypes with one constructor per subclass.
`AxisProps` is a datatype with the constructors `PitchAxis` and
`ResonanceAxis`. JavaScript semantics are written out where they matter:

- the `Uint8Array` store truncates;
- `Math.round` rounds half up;
- `%` truncates toward zero;
- `parseInt(s, 16)` takes a sign and a `0x` prefix and reads `NaN` as 0 in
  bitwise operators;
- `>>` and `& 255` keep the bits of the two's-complement form.

The clamp helper comes from a `math-utils` file that is not part of this
model. It is defined as `min(max(v, lo), hi)`.

The documented behaviour and the code differ in three places, and the model
follows the code each time:

- `calculateFirstFormantFrequency` is never absent. `calculateFormants(signal, 1)`
  always returns two slots, so the `!formants.length` test never fires. It
  reads slot 0, the older slot, and that is filled only after two formants
  have been pushed. The result is 0 for an envelope with a single hump, where
  the documentation expects that hump's position. That case is the first row
  under "## Findings".
- The vocal-tract length is `343 / (2 * f)` with no `* 100`. The unit
  conversion exists only in the unused `getVocalTractLength`.
- The formant "frequency" is the peak-sequence position, an index into the
  envelope of bins. It is never converted to Hz.

## Model

| member | source | states |
|---|---|---|
| Pitch.ScanPeak | src/App/util/audio-utils.ts:76-86 | The peak index after scanning a prefix is -1 or a scanned index |
| Pitch.ScanPeakIsFirstMaximum | src/App/util/audio-utils.ts:79-86 | The scan gives -1 exactly when no sample exceeds the threshold. Otherwise its sample exceeds the threshold and is at least every sample. It is strictly above all earlier samples, so ties keep the earliest index |
| Pitch.FindPeakIndex | src/App/util/audio-utils.ts:72-101 | The loop computes the refined peak index, and it returns -1 exactly when no sample exceeds the threshold |
| Pitch.PeakRefinementBounds | src/App/util/audio-utils.ts:89-98 | An interior peak has a strictly smaller left neighbour and a right neighbour no larger. The denominator is negative and the refined index lies in (k - 1/2, k + 1/2]. A peak at either end is returned unrefined |
| Pitch.HalfQuotientBounds | src/App/util/audio-utils.ts:93-97 | The interpolation offset lies in (-1/2, 1/2] under those neighbour conditions |
| Pitch.PeakAbsentIff | src/App/util/audio-utils.ts:76-100 | `findPeakIndex` is -1 iff no sample exceeds the threshold. Any other result is non-negative on a non-empty signal |
| Pitch.PeakIgnoresSubThresholdSamples | src/App/util/audio-utils.ts:82 | Changing samples at or below the threshold never moves the peak |
| Pitch.CalculatePitchFromFloat32 | src/App/util/audio-utils.ts:12-24 | The result is absent iff no bin exceeds 0.25, and always for an empty buffer. Otherwise it equals the refined index times `sampleRate / 2 / length` |
| Pitch.SingleSpikePitch | src/App/util/audio-utils.ts:12-24 | A single interior spike above 0.25 at bin k, all other bins silent, gives exactly k bin widths |
| SegmentPeaks.SegmentWindows | src/App/util/audio-utils.ts:139-155 | Every segment window lies inside the data, from the current start on |
| SegmentPeaks.Segments | src/App/util/audio-utils.ts:130-155 | Every segment `getPeaks` closes lies inside the data |
| SegmentPeaks.WindowPeakIsLastMaximum | src/App/util/audio-utils.ts:141-144 | Over a segment the running peak value is the larger of 0 and the segment's maximum. Its index is the last position of that maximum, or the previous index if nothing reached it |
| SegmentPeaks.PeaksOver | src/App/util/audio-utils.ts:146-154 | There is one recorded peak per closed segment |
| SegmentPeaks.GetPeaks | src/App/util/audio-utils.ts:125-158 | The loop produces the sentinel followed by one peak per closed segment, as the segment specification defines |
| SegmentPeaks.FirstSegment | src/App/util/audio-utils.ts:130-146 | The first segment covers samples 0 to max(0, base) |
| SegmentPeaks.SegmentsContiguous | src/App/util/audio-utils.ts:146-152 | Each segment starts right after the previous one closed. Its length is at least `cur ** logPeaksScale * base` |
| SegmentPeaks.SegmentsEnd | src/App/util/audio-utils.ts:146-155 | The segment after the last closed one reaches past the end of the data, so later samples are never emitted |
| SegmentPeaks.PeaksOverValues | src/App/util/audio-utils.ts:141-148 | Each pushed value is the clamped maximum of its segment |
| SegmentPeaks.WindowPeakIndex | src/App/util/audio-utils.ts:141-144 | The index of a segment scan is one of its samples or the index carried in |
| SegmentPeaks.PeaksOverIndices | src/App/util/audio-utils.ts:139-154 | Over contiguous segments each index lies between the index carried in and the segment's last sample. Indices never decrease |
| SegmentPeaks.PeaksOverProperties | src/App/util/audio-utils.ts:139-154 | Over contiguous segments each entry is the clamped maximum of its segment. Its index lies at or before the segment's end, and indices never decrease |
| SegmentPeaks.GetPeaksLength | src/App/util/audio-utils.ts:134-155 | The output is the sentinel [1, 10] plus one entry per closed segment |
| SegmentPeaks.GetPeaksSegments | src/App/util/audio-utils.ts:130-155 | This states segment geometry: the first segment, contiguity with growing sizes, and that no segment is left open at the end |
| SegmentPeaks.GetPeaksEntries | src/App/util/audio-utils.ts:138-154 | Each entry after the sentinel holds max(0, segment maximum) and an index within or before its segment. Indices never decrease |
| SegmentPeaks.NegativeEnvelopePeaks | src/App/util/audio-utils.ts:136-153 | On an all-negative envelope every entry after the sentinel is [0, 0] |
| SegmentPeaks.AllNegativePeaksOver | src/App/util/audio-utils.ts:141-153 | The per-segment form of the previous row |
| Formants.PositiveTotalWeight | src/App/util/audio-utils.ts:175-178 | At a positive entry the value^40 weights of it and its neighbours sum to a positive total |
| Formants.WeightedAverageBounds | src/App/util/audio-utils.ts:176-179 | A weighted average with non-negative weights and a positive total lies between the smallest and largest position |
| Formants.CentroidBounds | src/App/util/audio-utils.ts:173-179 | A pushed position lies between the smallest and largest index of entries i-1, i and i+1 |
| Formants.FormantScan | src/App/util/audio-utils.ts:161-186 | The formant window always has formantCount+1 slots with non-negative magnitudes |
| Formants.NeighbourhoodSums | src/App/util/audio-utils.ts:173-178 | The inner loop computes the sum of index * value^40 over entries i-1, i and i+1, and the sum of their weights |
| Formants.GetFormants | src/App/util/audio-utils.ts:161-186 | The loop with its shift/push equals the formant-window specification |
| Formants.ScanStep | src/App/util/audio-utils.ts:167-183 | One scan step pushes entry i, dropping the oldest slot, exactly when it beats slot 0 and is a strict local maximum |
| Formants.FormantScanWellFormed | src/App/util/audio-utils.ts:162-181 | Every slot is [0,0,0] or was pushed for a positive strict interior local maximum. Untouched slots come first |
| Formants.LastSlotFilledIff | src/App/util/audio-utils.ts:167-181 | The newest slot is filled iff some scanned interior entry is a positive strict local maximum |
| Formants.GetFormantsProperties | src/App/util/audio-utils.ts:161-186 | This gives the length formantCount+1. Unfilled slots are [0,0,0] and filled ones come from positive strict local maxima. The last slot is filled iff such a maximum exists |
| Formants.FormantPositionsNonNegative | src/App/util/audio-utils.ts:173-179 | With non-negative peak indices every slot's position is non-negative |
| Formants.Slot0NeedsTwo | src/App/util/audio-utils.ts:162-181 | In the two-slot window, slot 0 is filled only if two positive strict local maxima i < j were scanned |
| Formants.SingleMaximumScan | src/App/util/audio-utils.ts:162-181 | With a single positive strict local maximum k, the two-slot window is [0,0,0] twice before k, and [0,0,0] then k's formant from k on |
| Formants.SingleMaximumGivesZeroFirstFormant | src/App/util/audio-utils.ts:161-186 | With a single positive strict local maximum k, `getFormants(signal, 1)` is [[0,0,0], k's formant] |
| SampleConversion.SampleToByte | src/App/util/audio-utils.ts:44-45 | Samples at or below -1 give 0 and samples at or above 127/128 give 255. Otherwise the byte is the floor of (f+1)*128 |
| SampleConversion.SampleToByteMonotone | src/App/util/audio-utils.ts:44-45 | A larger sample never gives a smaller byte |
| SampleConversion.ByteToSample | src/App/util/audio-utils.ts:55 | A byte maps into [-1, 127/128], and (f+1)*128 gives the byte back |
| SampleConversion.ByteSampleRoundTrip | src/App/util/audio-utils.ts:40-59 | A byte converted to a sample and back is unchanged |
| SampleConversion.ConversionBounds | src/App/util/audio-utils.ts:40-59 | Both conversions keep the length. Every sample at or below -1 gives byte 0, and samples from bytes lie in [-1, 127/128] |
| SampleConversion.BufferRoundTrip | src/App/util/audio-utils.ts:40-59 | float32ToUint8(uint8ToFloat32(b)) == b for every byte sequence |
| SampleConversion.Float32ToUint8 | src/App/util/audio-utils.ts:40-49 | The loop fills a fresh byte array with the converted samples |
| SampleConversion.Uint8ToFloat32 | src/App/util/audio-utils.ts:51-59 | The loop fills a fresh sample array with the converted bytes |
| AudioAnalysis.CalculateFormants | src/App/util/audio-utils.ts:189-199 | For any smoothing function the result has formantCount+1 slots with non-negative positions |
| AudioAnalysis.CalculateFirstFormantFrequency | src/App/util/audio-utils.ts:62-70 | The result is always present and non-negative. It is the position in slot 0 when that slot is filled and 0 otherwise. A non-zero result needs two positive strict local maxima in the envelope's peaks |
| AudioAnalysis.SingleHumpGivesNoVocalTract | src/App/util/audio-utils.ts:26-38 | A single positive strict local maximum in the envelope's peaks gives first formant 0, so `analyzeAudio` has no vocal-tract length (lines 62-70 and 180-181) |
| AudioAnalysis.IntendedFirstFormantFrequency | src/App/util/audio-utils.ts:62-70 | Corrected reading of the newest slot. It is 0 when the envelope has no positive strict local maximum, and otherwise the centroid of one |
| AudioAnalysis.IntendedSingleHump | src/App/util/audio-utils.ts:62-70 | With the newest slot read, a single hump gives that hump's centroid |
| AudioAnalysis.CalculateVocalTractLength | src/App/util/audio-utils.ts:111-113 | The result is absent iff the formant is 0. Otherwise 2*f*length == 343, and the length is positive for a positive formant |
| AudioAnalysis.AnalyzeAudio | src/App/util/audio-utils.ts:26-38 | Pitch is absent iff no bin exceeds 0.25. Vocal-tract length is absent iff the first formant is 0, and otherwise it is 343/(2f) with f > 0 |
| AudioAnalysis.QuietBufferGivesNoEstimates | src/App/util/audio-utils.ts:26-38 | No bin above 0.25 and a nowhere-positive envelope give neither estimate |
| AxisLimits.AxisLimit.DisplayedVal | src/App/models/Axis/AxisLimit.ts:2-5 | The displayed value is the override when one is set and otherwise calcLimit |
| AxisLimits.NewAxisLimit | src/App/models/Axis/AxisLimit.ts:7 | The constructor stores both arguments. Without an override the displayed value is calcLimit |
| AxisLimits.ZeroOverrideHonoured | src/App/models/Axis/AxisLimit.ts:3 | An override of 0 is displayed, not replaced by calcLimit |
| MathUtils.Clamp | src/App/models/Axis/AxisRange.ts:32 | For lo <= hi the result lies in [lo, hi]. A value inside is unchanged, one below lo gives lo and one at or above hi gives hi. It is also used at AxisRange.ts:40 and style-utils.ts:4 |
| MathUtils.Round | src/App/util/time-utils.ts:6 | `Math.round` is the integer r with x - 1/2 < r <= x + 1/2, so halves round up. It is also used at style-utils.ts:22 |
| AxisScales.AxisScale.GetValAlongScale | src/App/models/Axis/AxisScale/LinearAxisScale.ts:4-6 | The linear scale returns the value whatever the bounds |
| AxisScales.AxisScale.GetRatioAlongScale | src/App/models/Axis/AxisScale/LinearAxisScale.ts:8-10 | For max != min, the ratio times (max - min) is the value |
| AxisScales.LinearRatioEndpoints | src/App/models/Axis/AxisScale/LinearAxisScale.ts:8-10 | Value 0 has ratio 0 and value max-min has ratio 1 |
| AxisScales.LinearRatioStrictlyIncreasing | src/App/models/Axis/AxisScale/LinearAxisScale.ts:8-10 | With max > min the ratio is strictly increasing |
| AxisDataRelationships.AxisDataRelationship.ApplyDataRelationship | src/App/models/Axis/AxisDataRelationship/AxisDirectDataRelationship.ts:5-7 | Direct gives the scale's value. Inverse, with max != min, gives r where (1 - r)(max - min) = val, the inverse file's lines 5-9 |
| AxisDataRelationships.DirectLinearIdentity | src/App/models/Axis/AxisDataRelationship/AxisDirectDataRelationship.ts:5-7 | Direct with linear is the identity. It is idempotent and monotone |
| AxisDataRelationships.InverseLinearEndpoints | src/App/models/Axis/AxisDataRelationship/AxisInverseDataRelationship.ts:5-9 | Inverse with linear maps 0 to 1 and max-min to 0 |
| AxisDataRelationships.InverseLinearStrictlyDecreasing | src/App/models/Axis/AxisDataRelationship/AxisInverseDataRelationship.ts:5-9 | With max > min, inverse with linear is strictly decreasing |
| AxisRanges.AxisRange.Range | src/App/models/Axis/AxisRange.ts:20-22 | The span is never negative. It is max - min when that is non-negative and 0 otherwise |
| AxisRanges.AxisRange.GetValAlongRange | src/App/models/Axis/AxisRange.ts:24-35 | The value is the relationship applied to the scaled value, clamped to the calc limits on request. When clamped it lies in [min, max] |
| AxisRanges.AxisRange.GetRatioAlongRange | src/App/models/Axis/AxisRange.ts:37-43 | Unclamped, ratio times span is the value along the range. Clamped, it is clamp(clamped value / span, 0, 1), which lies in [0, 1] |
| AxisRanges.AxisRange.IntendedRatioAlongRange | src/App/models/Axis/AxisRange.ts:37-43 | Corrected ratio: ratio times span is val - min for direct and max - val for inverse. Clamped, it lies in [0, 1] |
| AxisRanges.NewAxisRange | src/App/models/Axis/AxisRange.ts:45-48 | The constructor installs the direct relationship when none is given and otherwise keeps the given one. It stores the limits and the scale |
| AxisRanges.DirectLinearValAlongRange | src/App/models/Axis/AxisRange.ts:24-34 | Direct with linear gives the value unclamped and clamp(val, min, max) clamped |
| AxisRanges.InverseLinearValAlongRange | src/App/models/Axis/AxisRange.ts:24-30 | Inverse with linear gives 1 - val/(max - min), unclamped |
| AxisRanges.IntendedRatioEndpoints | src/App/models/Axis/AxisRange.ts:37-43 | The corrected ratio puts min at 0 and max at 1, in reverse for inverse, clamped or not |
| AxisRanges.IntendedRatioMonotone | src/App/models/Axis/AxisRange.ts:37-43 | The corrected ratio rises with the value for direct and falls for inverse |
| Axes.AxisProps.Label | src/App/models/Axis/Pitch.ts:9 | The labels are 'Pitch' and 'Resonance' (Resonance.ts:9) |
| Axes.AxisProps.Unit | src/App/models/Axis/Pitch.ts:10 | The units are 'Hz' and '%' (Resonance.ts:10) |
| Axes.AxisProps.Dimension | src/App/models/Axis/Pitch.ts:11 | Pitch is vertical and resonance horizontal (Resonance.ts:11) |
| Axes.AxisProps.Range | src/App/models/Axis/Pitch.ts:12-17 | Both ranges are linear with a positive span. Pitch is direct over 50..400 and displays 50 and 400. Resonance is inverse over 11..18 and displays 0 and 100 (Resonance.ts:12-17) |
| Axes.AxisProps.GetRawValueFromAnalysis | src/App/models/Axis/Pitch.ts:19-21 | The raw value is pitchHz, or vocalTractLengthCm for resonance (Resonance.ts:19-21). It is 0 when absent |
| Axes.AxisProps.GetRawValAlongAxisFromRawVal | src/App/models/Axis/Axis.ts:39-45 | The range's linear scale returns the raw value |
| Axes.AxisProps.GetRawValAlongAxisFromAnalysis | src/App/models/Axis/Axis.ts:35-37 | The result is the raw value read from the analysis |
| Axes.AxisProps.GetValAlongRangeFromRawVal | src/App/models/Axis/Axis.ts:51-53 | This delegates to the range. Pitch gives val, or clamp(val, 50, 400) when clamped. Resonance gives 1 - val/7, or clamp(1 - val/7, 11, 18) when clamped |
| Axes.AxisProps.GetValAlongRangeFromAnalysis | src/App/models/Axis/Axis.ts:47-49 | This feeds the raw analysis value into the previous row. Clamped, it lies within the calc limits |
| Axes.AxisProps.GetRatioAlongRangeFromRawVal | src/App/models/Axis/Axis.ts:59-61 | This delegates to the range and lies in [0, 1] when clamped. Pitch gives val/350, or clamp(clamp(val, 50, 400)/350, 0, 1) when clamped |
| Axes.AxisProps.GetRatioAlongRangeFromAnalysis | src/App/models/Axis/Axis.ts:55-57 | This feeds the raw analysis value into the previous row and lies in [0, 1] when clamped |
| Axes.AxisProps.FormattedNumberFromAnalysis | src/App/models/Axis/Axis.ts:28-33 | The number rendered takes the clamped path only when opts.clamped is true |
| Axes.AxisProps.IntendedRatioAlongRangeFromRawVal | src/App/models/Axis/Axis.ts:59-61 | Corrected ratio per axis: (val - 50)/350 for pitch and (18 - val)/7 for resonance. It lies in [0, 1] when clamped |
| Axes.AbsentPitch | src/App/models/Axis/Pitch.ts:12-21 | With no pitch the clamped value is 50 and the clamped ratio is 1/7 |
| Axes.HighPitchFullRatio | src/App/models/Axis/Pitch.ts:12-21 | A raw pitch of 350 or more gives clamped ratio 1 |
| Axes.ResonanceClampsToMinimum | src/App/models/Axis/Resonance.ts:12-21 | The resonance span is 7, and any non-negative raw value clamps to 11 |
| Axes.ResonanceClampedRatioAlwaysOne | src/App/models/Axis/Resonance.ts:12-21 | The clamped resonance ratio is 1 for every input |
| Axes.PitchRatioAtLowerLimit | src/App/models/Axis/Pitch.ts:12-21 | Raw pitch 50 gives clamped ratio 1/7, where the corrected ratio is 0 |
| Axes.IntendedRatioOnAxes | src/App/models/Axis/Resonance.ts:12-17 | The corrected ratio maps pitch 50 to 0 and 400 to 1. It maps resonance 11 to 1, 18 to 0 and 14.5 to 1/2 |
| TimeUtils.TruncMod | src/App/util/time-utils.ts:3-4 | JavaScript `%` lies in [0, b) for a non-negative dividend and in (-b, 0] for a non-positive one |
| TimeUtils.DecimalRoundTrip | src/App/util/time-utils.ts:8-10 | The digits `toString` writes read back as the number |
| TimeUtils.IntToString | src/App/util/time-utils.ts:8-10 | The text starts with '-' iff the integer is negative, and its digits read back as the magnitude |
| TimeUtils.PadStart | src/App/util/time-utils.ts:8-10 | The text is padded to max(length, width), with the original as suffix and the pad character before it |
| TimeUtils.FirstNonzeroIndex | src/App/util/time-utils.ts:12 | The result is -1 iff all entries are 0. Otherwise it is the first non-zero position |
| TimeUtils.FormatTime | src/App/util/time-utils.ts:1-16 | The text is always two fields, floor((s % 3600)/60) and round(s % 60), each padded to 2 and joined by ':'. Hours are never shown |
| TimeUtils.FieldRanges | src/App/util/time-utils.ts:3-6 | For non-negative input the minutes lie in 0..59 and the rounded seconds in 0..60 |
| TimeUtils.TimerTextReadsBack | src/App/util/time-utils.ts:8-13 | Fields below 100 give 5 characters `mm:ss` that read back as the two numbers |
| TimeUtils.WholeSecondsFormat | src/App/util/time-utils.ts:1-16 | Whole non-negative n gives length 5. The fields read back as (n % 3600) / 60 and n % 60 |
| TimeUtils.FormatZero | src/App/util/time-utils.ts:1-16 | Any time below half a second formats as "00:00" |
| TimeUtils.SixtySecondsShown | src/App/util/time-utils.ts:4-6 | Every time from 59.5 s up to, not including, 60 s formats as "00:60" |
| TimeUtils.FormatTimeWholeSeconds | src/App/util/time-utils.ts:1-16 | Corrected timer, rounding the total first. It gives 5 characters for non-negative input |
| TimeUtils.WholeSecondsFieldsInRange | src/App/util/time-utils.ts:1-16 | In the corrected timer both fields are below 60 and minutes*60 + seconds == round(s) % 3600 |
| TimeUtils.WholeSecondsCarry | src/App/util/time-utils.ts:1-16 | The corrected timer shows every time from 59.5 s up to, not including, 60.5 s as "01:00" |
| TimeUtils.WholeSecondsRecombine | src/App/util/time-utils.ts:1-16 | Whole non-negative seconds show two fields below 60. Minutes*60 + seconds gives back the seconds modulo an hour |
| TimeUtils.FormatTimeDigits | src/App/util/time-utils.ts:3-13 | Shown fields below 100 are written as two digits each around the colon |
| StyleUtils.HexValue | src/App/util/style-utils.ts:6 | The value of a string of hex digits is below 16^length. ParseIntHex and the round-trip rows read digits through it |
| StyleUtils.ToHexString | src/App/util/style-utils.ts:14 | `toString(16)` writes lowercase hex digits with no leading zero (except for 0) that read back as the number |
| StyleUtils.ParseIntHex | src/App/util/style-utils.ts:6 | A string of hex digits parses to its value. A string with no leading digit, sign or prefix is NaN (`None`) |
| StyleUtils.HexToRgb | src/App/util/style-utils.ts:5-11 | This gives three channels in 0..255 that together are the low 24 bits of the parsed value |
| StyleUtils.ToHexStringLeadingOne | src/App/util/style-utils.ts:14 | `(16^w + x).toString(16)` is '1' followed by x in exactly w digits |
| StyleUtils.HexFixedOfValue | src/App/util/style-utils.ts:13-15 | Writing a digit string's value back at its width gives the string in lowercase |
| StyleUtils.RgbToHex | src/App/util/style-utils.ts:13-15 | This gives '#' and 6 lowercase hex digits that read back as r*65536 + g*256 + b |
| StyleUtils.RgbToHexDigits | src/App/util/style-utils.ts:13-15 | The text is '#' followed by the packed channels written in exactly six digits |
| StyleUtils.ChannelSplit | src/App/util/style-utils.ts:7-9 | The three extracted bytes recombine to the low 24 bits of the value, for negative values too |
| StyleUtils.InterpolateChannel | src/App/util/style-utils.ts:21-23 | The rounded channel lies between the two inputs. Ratio 0 gives the first and ratio 1 the second |
| StyleUtils.InterpolatedRgb | src/App/util/style-utils.ts:17-24 | Every interpolated channel lies in 0..255 and between the inputs' channels |
| StyleUtils.InterpolateHexColors | src/App/util/style-utils.ts:3-27 | The result is '#' and 6 lowercase hex digits encoding the channels at the clamped ratio |
| StyleUtils.NoDigitsIsBlack | src/App/util/style-utils.ts:5-11 | A colour with no digit after its first character reads as black |
| StyleUtils.HexRoundTrip | src/App/util/style-utils.ts:5-15 | rgbToHex(hexToRgb(c)) is c in lowercase for every '#rrggbb' |
| StyleUtils.RgbRoundTrip | src/App/util/style-utils.ts:5-15 | hexToRgb(rgbToHex(rgb)) == rgb for channels in 0..255 |
| StyleUtils.RatioClamped | src/App/util/style-utils.ts:4 | Ratios below 0 act as 0 and ratios above 1 act as 1 |
| StyleUtils.InterpolationEndpoints | src/App/util/style-utils.ts:20-26 | Ratio 0 gives color1 and ratio 1 gives color2, in lowercase |
| StyleUtils.ChannelsBetweenInputs | src/App/util/style-utils.ts:20-24 | Every channel of the result lies between the two inputs' channels |
| ArrayUtils.PaddedLength | src/App/util/array-utils.ts:2-11 | A multiple of 4 in [n, n+4), equal to n when n is a multiple of 4 |
| ArrayUtils.PaddedLengthIsLeast | src/App/util/array-utils.ts:11 | No multiple of 4 at or above n is smaller |
| ArrayUtils.PaddedLengthIdempotent | src/App/util/array-utils.ts:1-20 | Padding twice gives the length of padding once |
| ArrayUtils.Padded | src/App/util/array-utils.ts:14-17 | The padded length, with the original bytes first and zeros after |
| ArrayUtils.PaddedIdempotent | src/App/util/array-utils.ts:1-20 | Padding padded bytes changes nothing |
| ArrayUtils.EnsureArrayBufferMultipleOf4 | src/App/util/array-utils.ts:1-20 | The very same buffer when its length is a multiple of 4. Otherwise a fresh one, and in both cases the contents are the padded bytes |

## Left out

- `nodesAreConnected` (src/App/util/audio-utils.ts:8-10) compares Web Audio node contexts, which have no counterpart here.
- `getVocalTractLength` (src/App/util/audio-utils.ts:103-109) is never called.
- `movingAverage` and `typedArrayToNumberArray` are not part of this model. The smoothing is a function parameter of `AudioAnalysis`, and the results hold for every such function. The `Float32Array` to `number[]` copy is the identity on `seq<real>`.
- IEEE-754 behaviour is not modelled: Float32 rounding, `NaN`, ±Infinity and the precision of `parseInt` beyond 2^53. Samples and values are `real`.
- Pitch.FindPeakIndex: the `-Infinity` start of `maxAmplitude` is modelled by the "no peak yet" state `peakIndex == -1`, which decides the comparison the same way.
- AudioAnalysis.CalculateVocalTractLength: a zero formant gives `None`, where the source divides by zero and gets `Infinity`. `analyzeAudio` would then report an infinite length, and after the resonance clamp that maps to the same position.
- AxisDataRelationships.AxisDataRelationship.ApplyDataRelationship: the inverse relationship requires `max != min`, where the source would divide by zero.
- AxisScales.AxisScale.GetRatioAlongScale: this requires `max != min`, where the source divides by a zero span and gets ±Infinity or NaN.
- AxisRanges.AxisRange.GetRatioAlongRange: this requires a positive span, where the source divides by a zero span. Both configured axes have a positive span.
- StyleUtils.RgbToHex: this requires channels in 0..255, so no `<<` overflows 32 bits. Those are the only channels `interpolateHexColors` passes.
- SegmentPeaks.GetPeaks: `curSegment ** logPeaksScale` is restricted to a natural-number exponent. The source passes 1.
- `parseInt` skips leading white space. That step is not modelled, and colours are read from their second character on.
- `AxisProps.Equals` (src/App/models/Axis/Axis.ts:21-26) calls `AxisRange.Equals`, which src/App/models/Axis/AxisRange.ts does not define.
- The `toString`/`toFixed` text of `getFormattedValueFromAnalysis` (src/App/models/Axis/Axis.ts:30-32) is left out. Axes.AxisProps.FormattedNumberFromAnalysis models the number it renders.
- Audio capture and playback, recording UI, theme and rendering, local storage and browser timers lie outside the analysis and mapping core. They are React components or thin browser wrappers.

## Findings

| source | as written | input that shows it | evidently intended | confidence | as-written member | corrected member |
|---|---|---|---|---|---|---|
| src/App/util/time-utils.ts:4-6 | The seconds field is `Math.round(seconds % 60)`, rounded after the remainder, so it can round up to 60 without carrying into the minutes | `formatTime(59.6)` gives "00:60", as does every input in [59.5, 60). The recorder passes fractional seconds (milliseconds / 1000) | Round the total first: "01:00", with the seconds field always in 0..59 | high; not executed | TimeUtils.SixtySecondsShown | TimeUtils.FormatTimeWholeSeconds |
| src/App/util/audio-utils.ts:62-70 | `const [[firstFormantHz]] = formants` reads slot 0 of the two-slot window. `shift`/`push` (lines 180-181) put each new formant in the last slot, so slot 0 holds the older of the last two formants pushed | An envelope whose peak sequence has a single positive strict local maximum gives first formant 0. `calculateVocalTractLength` then divides by zero, so there is no usable vocal-tract length | Read the newest slot, `formants[formants.length - 1]`, so that a single hump gives its own centroid | high; not executed | AudioAnalysis.SingleHumpGivesNoVocalTract | AudioAnalysis.IntendedFirstFormantFrequency |
| src/App/models/Axis/AxisRange.ts:37-43 | The ratio is the value along the range divided by the span, without subtracting the lower limit. For resonance the clamped value lies in 11..18, so the clamped ratio is always 1 | Resonance raw 18 (the maximum) gives clamped ratio 1, intended 0. Pitch raw 50 (the minimum) gives 1/7, intended 0 | (val - min) / span for a direct relationship, (max - val) / span for an inverse one, clamped to [0, 1] | high; not executed | Axes.ResonanceClampedRatioAlwaysOne | AxisRanges.AxisRange.IntendedRatioAlongRange |
