/** The record produced by one analysis pass: a pitch in Hz and a vocal-tract
    length, each absent when no estimate could be made. */
module AnalysisOutput {
  import opened Wrappers

  datatype AudioRecorderAnalysisOutput = AudioRecorderAnalysisOutput(
    pitchHz: Option<real>,
    vocalTractLengthCm: Option<real>
  )
}
