/** Peak picking and pitch estimation over one frequency-domain buffer
    (`findPeakIndex` and `calculatePitchFromFloat32` of the audio utilities). */
module Pitch {
  import opened Wrappers

  /** Threshold a bin must exceed to count as a pitch peak. */
  const PitchDetectionThreshold: real := 0.25

  /** The peak index held by the scan after looking at `signal[..n]`: -1 while
      no sample has exceeded `threshold`, otherwise the first index holding the
      largest such sample seen so far. */
  function ScanPeak(signal: seq<real>, threshold: real, n: nat): (k: int)
    requires n <= |signal|
    ensures -1 <= k < n
    decreases n
  {
    if n == 0 then -1
    else
      var k := ScanPeak(signal, threshold, n - 1);
      var amplitude := signal[n - 1];
      if amplitude > threshold && (k == -1 || amplitude > signal[k]) then n - 1 else k
  }

  /** What the scan holds after a prefix: -1 exactly when nothing in the prefix
      exceeds the threshold; otherwise an index above the threshold holding the
      prefix's maximum, strictly above every earlier sample. */
  lemma {:induction false} ScanPeakIsFirstMaximum(signal: seq<real>, threshold: real, n: nat)
    requires n <= |signal|
    ensures -1 <= ScanPeak(signal, threshold, n) < n
    ensures ScanPeak(signal, threshold, n) == -1 <==>
              forall i :: 0 <= i < n ==> signal[i] <= threshold
    ensures var k := ScanPeak(signal, threshold, n);
            k >= 0 ==>
              && signal[k] > threshold
              && (forall i :: 0 <= i < n ==> signal[i] <= signal[k])
              && (forall i :: 0 <= i < k ==> signal[i] < signal[k])
  {
    if n > 0 {
      ScanPeakIsFirstMaximum(signal, threshold, n - 1);
    }
  }

  /** The refinement step of `findPeakIndex`: the scan's peak, moved by
      parabolic interpolation through its two neighbours when it is interior. */
  function RefinedPeakIndex(signal: seq<real>, threshold: real): real
  {
    var k := ScanPeak(signal, threshold, |signal|);
    ScanPeakIsFirstMaximum(signal, threshold, |signal|);
    if k > 0 && k < |signal| - 1 then
      var prev := signal[k - 1];
      var next := signal[k + 1];
      k as real + (0.5 * (prev - next)) / (prev - 2.0 * signal[k] + next)
    else
      k as real
  }

  /** `findPeakIndex`: -1 when no sample exceeds the threshold, otherwise the
      first maximal bin refined by parabolic interpolation. */
  method FindPeakIndex(floatSignal: seq<real>, threshold: real := 0.0) returns (peak: real)
    ensures peak == RefinedPeakIndex(floatSignal, threshold)
    ensures peak == -1.0 <==> forall i :: 0 <= i < |floatSignal| ==> floatSignal[i] <= threshold
  {
    // The source starts `maxAmplitude` at -Infinity; here `peakIndex == -1`
    // marks that state, and `maxAmplitude` is only read once an index is held.
    var maxAmplitude: real := 0.0;
    var peakIndex := -1;
    for i := 0 to |floatSignal|
      invariant peakIndex == ScanPeak(floatSignal, threshold, i)
      invariant peakIndex != -1 ==> 0 <= peakIndex < i && maxAmplitude == floatSignal[peakIndex]
    {
      var amplitude := floatSignal[i];
      if amplitude > threshold && (peakIndex == -1 || amplitude > maxAmplitude) {
        maxAmplitude := amplitude;
        peakIndex := i;
      }
    }
    ScanPeakIsFirstMaximum(floatSignal, threshold, |floatSignal|);
    if peakIndex > 0 && peakIndex < |floatSignal| - 1 {
      var prevAmplitude := floatSignal[peakIndex - 1];
      var nextAmplitude := floatSignal[peakIndex + 1];
      peak := peakIndex as real +
        (0.5 * (prevAmplitude - nextAmplitude)) / (prevAmplitude - 2.0 * maxAmplitude + nextAmplitude);
      PeakRefinementBounds(floatSignal, threshold);
    } else {
      peak := peakIndex as real;
    }
  }

  /** An interior peak is strictly above its left neighbour and at least its
      right neighbour, so the interpolation moves it by more than -1/2 and at
      most +1/2; a peak at either end is returned unrefined. */
  lemma PeakRefinementBounds(signal: seq<real>, threshold: real)
    ensures var k := ScanPeak(signal, threshold, |signal|);
            var r := RefinedPeakIndex(signal, threshold);
            && (0 < k < |signal| - 1 ==>
                  && signal[k - 1] < signal[k]
                  && signal[k + 1] <= signal[k]
                  && signal[k - 1] - 2.0 * signal[k] + signal[k + 1] < 0.0
                  && k as real - 0.5 < r <= k as real + 0.5)
            && (!(0 < k < |signal| - 1) ==> r == k as real)
  {
    var k := ScanPeak(signal, threshold, |signal|);
    ScanPeakIsFirstMaximum(signal, threshold, |signal|);
    if 0 < k < |signal| - 1 {
      HalfQuotientBounds(signal[k - 1] - signal[k + 1], signal[k - 1] - 2.0 * signal[k] + signal[k + 1]);
    }
  }

  /** With a negative denominator `y` and `y <= x < -y`, the interpolation
      offset `(0.5 * x) / y` lies in (-1/2, 1/2]. */
  lemma HalfQuotientBounds(x: real, y: real)
    requires y < 0.0 && y <= x < -y
    ensures -0.5 < (0.5 * x) / y <= 0.5
  {
  }

  /** `findPeakIndex` is -1 exactly when no sample exceeds the threshold;
      otherwise the refined index is at least 1/2, so it is never confused
      with -1. */
  lemma PeakAbsentIff(signal: seq<real>, threshold: real)
    ensures RefinedPeakIndex(signal, threshold) == -1.0 <==>
              forall i :: 0 <= i < |signal| ==> signal[i] <= threshold
    ensures RefinedPeakIndex(signal, threshold) != -1.0 ==>
              |signal| > 0 && RefinedPeakIndex(signal, threshold) >= 0.0
  {
    ScanPeakIsFirstMaximum(signal, threshold, |signal|);
    PeakRefinementBounds(signal, threshold);
  }

  /** Samples at or below the threshold do not influence which bin is picked:
      changing only such samples (keeping them at or below the threshold)
      leaves the unrefined peak where it was. */
  lemma {:induction false} PeakIgnoresSubThresholdSamples(s: seq<real>, t: seq<real>, threshold: real, n: nat)
    requires |s| == |t| && n <= |s|
    requires forall i :: 0 <= i < |s| && (s[i] > threshold || t[i] > threshold) ==> s[i] == t[i]
    ensures ScanPeak(s, threshold, n) == ScanPeak(t, threshold, n)
  {
    if n > 0 {
      PeakIgnoresSubThresholdSamples(s, t, threshold, n - 1);
      ScanPeakIsFirstMaximum(s, threshold, n - 1);
    }
  }

  /** `calculatePitchFromFloat32`: the refined peak bin times the width of one
      bin, `sampleRate / 2 / length`; absent when `findPeakIndex` gives -1. */
  function CalculatePitchFromFloat32(floatSignal: seq<real>, sampleRate: real): (pitch: Option<real>)
    ensures pitch.None? <==> forall i :: 0 <= i < |floatSignal| ==> floatSignal[i] <= PitchDetectionThreshold
    ensures |floatSignal| == 0 ==> pitch.None?
    ensures pitch.Some? ==>
              |floatSignal| > 0 &&
              pitch.value == RefinedPeakIndex(floatSignal, PitchDetectionThreshold) * (sampleRate / 2.0 / |floatSignal| as real)
  {
    var peakIndex := RefinedPeakIndex(floatSignal, PitchDetectionThreshold);
    PeakAbsentIff(floatSignal, PitchDetectionThreshold);
    if peakIndex == -1.0 then None
    else
      var hertzPerBin := sampleRate / 2.0 / |floatSignal| as real;
      Some(peakIndex * hertzPerBin)
  }

  /** A single isolated spike above the threshold at interior bin `k`, every
      other bin silent: the interpolation is exact and the pitch is `k` bin
      widths. */
  lemma SingleSpikePitch(signal: seq<real>, k: nat, sampleRate: real)
    requires 0 < k < |signal| - 1
    requires signal[k] > PitchDetectionThreshold
    requires forall i :: 0 <= i < |signal| && i != k ==> signal[i] == 0.0
    ensures CalculatePitchFromFloat32(signal, sampleRate) ==
              Some(k as real * (sampleRate / 2.0 / |signal| as real))
  {
    ScanPeakIsFirstMaximum(signal, PitchDetectionThreshold, |signal|);
    var p := ScanPeak(signal, PitchDetectionThreshold, |signal|);
    assert p == k;
    assert signal[k - 1] == 0.0 && signal[k + 1] == 0.0;
    assert RefinedPeakIndex(signal, PitchDetectionThreshold) == k as real;
    PeakAbsentIff(signal, PitchDetectionThreshold);
    var pitch := CalculatePitchFromFloat32(signal, sampleRate);
    assert pitch.Some?;
    assert pitch.value == (k as real) * (sampleRate / 2.0 / |signal| as real);
  }
}
