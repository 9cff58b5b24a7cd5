/** The composed analysis of the audio utilities: formants from a smoothed
    envelope, the first formant, the vocal-tract length and `analyzeAudio`. */
module AudioAnalysis {
  import opened Wrappers
  import opened Pitch
  import opened SegmentPeaks
  import opened Formants
  import opened AnalysisOutput

  /** `SPEED_OF_SOUND`, in metres per second. */
  const SpeedOfSound: real := 343.0

  /** The moving-average helper `movingAverage(values, window)`, which is not
      part of this model; the analysis is verified for every such function. */
  type MovingAverage = (seq<real>, int) -> seq<real>

  /** The envelope the formant search scans: two passes of the moving
      average, with windows 20 and 10. */
  function SmoothedEnvelope(signal: seq<real>, movingAverage: MovingAverage): seq<real>
  {
    movingAverage(movingAverage(signal, 20), 10)
  }

  /** The peak sequence the formant search scans: `getPeaks(movAvg, 6, 1)`. */
  function EnvelopePeaks(signal: seq<real>, movingAverage: MovingAverage): seq<Peak>
  {
    PeaksSpec(SmoothedEnvelope(signal, movingAverage), 6, 1)
  }

  /** `calculateFormants(signal, formantCount)`: peaks of the smoothed
      envelope in segments of base size 6 growing linearly, then the formant
      window over them. */
  function CalculateFormants(signal: seq<real>, movingAverage: MovingAverage, formantCount: nat := 10)
    : (formants: seq<Formant>)
    ensures |formants| == formantCount + 1
    ensures forall j :: 0 <= j < |formants| ==> formants[j].position >= 0.0
  {
    var movAvg := SmoothedEnvelope(signal, movingAverage);
    var movAvgPeaks := PeaksSpec(movAvg, 6, 1);
    GetPeaksLength(movAvg, 6, 1);
    GetPeaksEntries(movAvg, 6, 1);
    assert forall k :: 0 <= k < |movAvgPeaks| ==> movAvgPeaks[k].index >= 0;
    FormantPositionsNonNegative(movAvgPeaks, formantCount);
    FormantsSpec(movAvgPeaks, formantCount)
  }

  /** `calculateFirstFormantFrequency`: the position held in slot 0 of a
      one-formant search. The search always returns two slots, so the result
      is never absent. Each push goes to the last slot, so slot 0 holds the
      older of the last two formants pushed: the result is non-zero only
      when the envelope has at least two positive strict local maxima. */
  function CalculateFirstFormantFrequency(signal: seq<real>, movingAverage: MovingAverage)
    : (firstFormantHz: Option<real>)
    ensures firstFormantHz.Some?
    ensures firstFormantHz.value >= 0.0
    ensures CalculateFormants(signal, movingAverage, 1)[0].filled ==>
              firstFormantHz.value == CalculateFormants(signal, movingAverage, 1)[0].position
    ensures !CalculateFormants(signal, movingAverage, 1)[0].filled ==> firstFormantHz.value == 0.0
    ensures firstFormantHz.value != 0.0 ==>
              var peaks := EnvelopePeaks(signal, movingAverage);
              exists i, j :: 1 <= i < j < |peaks| && IsPositiveLocalMax(peaks, i) && IsPositiveLocalMax(peaks, j)
  {
    var formants := CalculateFormants(signal, movingAverage, 1);
    var peaks := EnvelopePeaks(signal, movingAverage);
    GetFormantsProperties(peaks, 1);
    Slot0NeedsTwo(peaks, |peaks|);
    if |formants| == 0 then None
    else Some(formants[0].position)
  }

  /** `calculateVocalTractLength`: `SPEED_OF_SOUND / (2 * firstFormantHz)`.
      A zero formant divides by zero; the model reports that as absent. */
  function CalculateVocalTractLength(firstFormantHz: real): (length: Option<real>)
    ensures length.None? <==> firstFormantHz == 0.0
    ensures length.Some? ==> 2.0 * firstFormantHz * length.value == SpeedOfSound
    ensures length.Some? && firstFormantHz > 0.0 ==> length.value > 0.0
  {
    if firstFormantHz == 0.0 then None
    else Some(SpeedOfSound / (2.0 * firstFormantHz))
  }

  /** `analyzeAudio`: the pitch of the raw buffer and the vocal-tract length
      from the first formant of its smoothed envelope. */
  function AnalyzeAudio(signal: seq<real>, sampleRate: real, movingAverage: MovingAverage)
    : (analysis: AudioRecorderAnalysisOutput)
    ensures analysis.pitchHz.None? <==>
              forall i :: 0 <= i < |signal| ==> signal[i] <= PitchDetectionThreshold
    ensures analysis.vocalTractLengthCm.None? <==>
              CalculateFormants(signal, movingAverage, 1)[0].position == 0.0
    ensures analysis.vocalTractLengthCm.Some? ==>
              var f := CalculateFormants(signal, movingAverage, 1)[0].position;
              f > 0.0 && 2.0 * f * analysis.vocalTractLengthCm.value == SpeedOfSound
  {
    var pitchHz := CalculatePitchFromFloat32(signal, sampleRate);
    var firstFormantHz := CalculateFirstFormantFrequency(signal, movingAverage);
    var vocalTractLengthCm :=
      if firstFormantHz.Some? then CalculateVocalTractLength(firstFormantHz.value) else None;
    AudioRecorderAnalysisOutput(pitchHz, vocalTractLengthCm)
  }

  /** A buffer with no bin above the pitch threshold, whose smoothed envelope
      is nowhere positive, yields neither a pitch nor a vocal-tract length. */
  lemma QuietBufferGivesNoEstimates(signal: seq<real>, sampleRate: real, movingAverage: MovingAverage)
    requires forall i :: 0 <= i < |signal| ==> signal[i] <= PitchDetectionThreshold
    requires var env := SmoothedEnvelope(signal, movingAverage);
             forall k :: 0 <= k < |env| ==> env[k] <= 0.0
    ensures AnalyzeAudio(signal, sampleRate, movingAverage) == AudioRecorderAnalysisOutput(None, None)
  {
    var env := SmoothedEnvelope(signal, movingAverage);
    var peaks := PeaksSpec(env, 6, 1);
    GetPeaksEntries(env, 6, 1);
    forall j | 1 <= j < |peaks|
      ensures peaks[j].value == 0.0
    {
      var ws := Segments(|env|, 6, 1);
      assert IsClampedMax(env, ws[j - 1].first, ws[j - 1].last + 1, peaks[j].value);
    }
    assert forall i :: !IsPositiveLocalMax(peaks, i);
    GetFormantsProperties(peaks, 1);
  }

  /** An envelope with a single hump, that is a single positive strict local
      maximum in its peak sequence, gives a first formant of 0 and so no
      vocal-tract length: the hump's formant sits in the last slot, which
      `calculateFirstFormantFrequency` does not read. */
  lemma SingleHumpGivesNoVocalTract(signal: seq<real>, sampleRate: real, movingAverage: MovingAverage, k: int)
    requires IsPositiveLocalMax(EnvelopePeaks(signal, movingAverage), k)
    requires forall i :: IsPositiveLocalMax(EnvelopePeaks(signal, movingAverage), i) ==> i == k
    ensures CalculateFirstFormantFrequency(signal, movingAverage) == Some(0.0)
    ensures AnalyzeAudio(signal, sampleRate, movingAverage).vocalTractLengthCm.None?
  {
    SingleMaximumGivesZeroFirstFormant(EnvelopePeaks(signal, movingAverage), k);
  }

  /** The first formant read from the newest slot, `formants[formants.length - 1]`,
      where each push puts the most recent formant. It is 0 when the envelope
      has no positive strict local maximum, and otherwise the centroid of one. */
  function IntendedFirstFormantFrequency(signal: seq<real>, movingAverage: MovingAverage)
    : (firstFormantHz: Option<real>)
    ensures firstFormantHz.Some? && firstFormantHz.value >= 0.0
    ensures var peaks := EnvelopePeaks(signal, movingAverage);
            (forall i :: !IsPositiveLocalMax(peaks, i)) ==> firstFormantHz.value == 0.0
    ensures var peaks := EnvelopePeaks(signal, movingAverage);
            (exists i :: IsPositiveLocalMax(peaks, i)) ==>
              exists i :: IsPositiveLocalMax(peaks, i) && firstFormantHz.value == Centroid(peaks, i)
  {
    var formants := CalculateFormants(signal, movingAverage, 1);
    GetFormantsProperties(EnvelopePeaks(signal, movingAverage), 1);
    Some(formants[|formants| - 1].position)
  }

  /** Reading the newest slot, a single hump gives that hump's centroid. */
  lemma IntendedSingleHump(signal: seq<real>, movingAverage: MovingAverage, k: int)
    requires IsPositiveLocalMax(EnvelopePeaks(signal, movingAverage), k)
    requires forall i :: IsPositiveLocalMax(EnvelopePeaks(signal, movingAverage), i) ==> i == k
    ensures IntendedFirstFormantFrequency(signal, movingAverage)
         == Some(Centroid(EnvelopePeaks(signal, movingAverage), k))
  {
    SingleMaximumGivesZeroFirstFormant(EnvelopePeaks(signal, movingAverage), k);
  }
}
