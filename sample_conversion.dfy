/** `float32ToUint8` and `uint8ToFloat32` of the audio utilities: conversion
    between samples in [-1, 1) and unsigned bytes centred on 128. */
module SampleConversion {
  import opened MathUtils

  /** A `Uint8Array` element. */
  type uint8 = x: int | 0 <= x < 256

  /** One sample to one byte: `(f + 1) * 128`, clamped to [0, 255], then
      truncated by the store into the `Uint8Array` (the value is
      non-negative there, so truncation is the floor). */
  function SampleToByte(f: real): (b: uint8)
    ensures f <= -1.0 ==> b == 0
    ensures f >= 127.0 / 128.0 ==> b == 255
    ensures -1.0 <= f < 127.0 / 128.0 ==> b as real <= (f + 1.0) * 128.0 < b as real + 1.0
  {
    var value := (f + 1.0) * 128.0;
    Min(255.0, Max(0.0, value)).Floor
  }

  /** A larger sample never gives a smaller byte. */
  lemma SampleToByteMonotone(f: real, g: real)
    requires f <= g
    ensures SampleToByte(f) <= SampleToByte(g)
  {
    assert (f + 1.0) * 128.0 <= (g + 1.0) * 128.0;
  }

  /** One byte to one sample: `(b - 128) / 128`. */
  function ByteToSample(b: uint8): (f: real)
    ensures -1.0 <= f <= 127.0 / 128.0
    ensures (f + 1.0) * 128.0 == b as real
  {
    (b as real - 128.0) / 128.0
  }

  /** A byte survives the trip to a sample and back. */
  lemma ByteSampleRoundTrip(b: uint8)
    ensures SampleToByte(ByteToSample(b)) == b
  {
    var f := ByteToSample(b);
    assert (f + 1.0) * 128.0 == b as real;
    assert Min(255.0, Max(0.0, b as real)) == b as real;
  }

  /** The byte buffer `float32ToUint8` fills. */
  function Float32ToUint8Values(floatSignal: seq<real>): seq<uint8>
  {
    seq(|floatSignal|, i requires 0 <= i < |floatSignal| => SampleToByte(floatSignal[i]))
  }

  /** The sample buffer `uint8ToFloat32` fills. */
  function Uint8ToFloat32Values(byteSignal: seq<uint8>): seq<real>
  {
    seq(|byteSignal|, i requires 0 <= i < |byteSignal| => ByteToSample(byteSignal[i]))
  }

  /** Both conversions keep the length; bytes land in [0, 255] with every
      sample at or below -1 giving 0; samples land in [-1, 127/128]. */
  lemma ConversionBounds(floatSignal: seq<real>, byteSignal: seq<uint8>)
    ensures |Float32ToUint8Values(floatSignal)| == |floatSignal|
    ensures |Uint8ToFloat32Values(byteSignal)| == |byteSignal|
    ensures forall i :: 0 <= i < |floatSignal| && floatSignal[i] <= -1.0 ==>
              Float32ToUint8Values(floatSignal)[i] == 0
    ensures forall i :: 0 <= i < |byteSignal| ==>
              -1.0 <= Uint8ToFloat32Values(byteSignal)[i] <= 127.0 / 128.0
  {
  }

  /** `float32ToUint8(uint8ToFloat32(b)) == b` for every byte buffer. */
  lemma BufferRoundTrip(byteSignal: seq<uint8>)
    ensures Float32ToUint8Values(Uint8ToFloat32Values(byteSignal)) == byteSignal
  {
    var back := Float32ToUint8Values(Uint8ToFloat32Values(byteSignal));
    forall i | 0 <= i < |byteSignal|
      ensures back[i] == byteSignal[i]
    {
      ByteSampleRoundTrip(byteSignal[i]);
    }
  }

  /** `float32ToUint8`: a new byte buffer holding each converted sample. */
  method Float32ToUint8(floatSignal: seq<real>) returns (uint8Array: array<uint8>)
    ensures fresh(uint8Array)
    ensures uint8Array[..] == Float32ToUint8Values(floatSignal)
  {
    uint8Array := new uint8[|floatSignal|](_ => 0);
    for i := 0 to |floatSignal|
      invariant forall j :: 0 <= j < i ==> uint8Array[j] == SampleToByte(floatSignal[j])
    {
      var value := (floatSignal[i] + 1.0) * 128.0;
      uint8Array[i] := Min(255.0, Max(0.0, value)).Floor;
    }
  }

  /** `uint8ToFloat32`: a new sample buffer holding each converted byte. */
  method Uint8ToFloat32(byteSignal: seq<uint8>) returns (floatArray: array<real>)
    ensures fresh(floatArray)
    ensures floatArray[..] == Uint8ToFloat32Values(byteSignal)
  {
    floatArray := new real[|byteSignal|](_ => 0.0);
    for i := 0 to |byteSignal|
      invariant forall j :: 0 <= j < i ==> floatArray[j] == ByteToSample(byteSignal[j])
    {
      floatArray[i] := (byteSignal[i] as real - 128.0) / 128.0;
    }
  }
}
