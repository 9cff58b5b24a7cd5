/** `ensureArrayBufferMultipleOf4`: a byte buffer zero-padded up to a length
    that is a multiple of four. */
module ArrayUtils {
  import opened SampleConversion

  /** The adjusted length: the original when it is already a multiple of 4,
      otherwise `length + (4 - length % 4)`. */
  function PaddedLength(n: nat): (p: nat)
    ensures p % 4 == 0
    ensures n <= p < n + 4
    ensures n % 4 == 0 ==> p == n
  {
    var remainder := n % 4;
    if remainder == 0 then n else n + (4 - remainder)
  }

  /** It is the least multiple of 4 that is not below `n`. */
  lemma PaddedLengthIsLeast(n: nat, m: nat)
    requires m % 4 == 0 && n <= m
    ensures PaddedLength(n) <= m
  {
  }

  /** Padding a padded length changes nothing. */
  lemma PaddedLengthIdempotent(n: nat)
    ensures PaddedLength(PaddedLength(n)) == PaddedLength(n)
  {
  }

  /** The bytes of the adjusted buffer: the original bytes followed by
      zeros up to the padded length. */
  function Padded(bytes: seq<uint8>): (r: seq<uint8>)
    ensures |r| == PaddedLength(|bytes|) && |r| % 4 == 0
    ensures r[..|bytes|] == bytes
    ensures forall i :: |bytes| <= i < |r| ==> r[i] == 0
  {
    bytes + seq(PaddedLength(|bytes|) - |bytes|, _ => 0)
  }

  /** Padding padded bytes gives them back. */
  lemma PaddedIdempotent(bytes: seq<uint8>)
    ensures Padded(Padded(bytes)) == Padded(bytes)
  {
    var p := Padded(bytes);
    assert Padded(p) == p + [];
  }

  /** `ensureArrayBufferMultipleOf4(originalBuffer)`: the very same buffer
      when its length is a multiple of 4; otherwise a fresh zeroed buffer of
      the padded length with the original bytes copied to its front. */
  method EnsureArrayBufferMultipleOf4(originalBuffer: array<uint8>) returns (adjusted: array<uint8>)
    ensures originalBuffer.Length % 4 == 0 ==> adjusted == originalBuffer
    ensures originalBuffer.Length % 4 != 0 ==> fresh(adjusted)
    ensures adjusted.Length % 4 == 0
    ensures adjusted[..] == Padded(originalBuffer[..])
  {
    var originalLength := originalBuffer.Length;
    var remainder := originalLength % 4;
    if remainder == 0 {
      return originalBuffer;
    }
    var adjustedLength := originalLength + (4 - remainder);
    adjusted := new uint8[adjustedLength](_ => 0);
    for i := 0 to originalLength
      invariant adjusted[..i] == originalBuffer[..i]
      invariant forall k :: i <= k < adjustedLength ==> adjusted[k] == 0
    {
      adjusted[i] := originalBuffer[i];
    }
    assert adjusted[..originalLength] == originalBuffer[..];
  }
}
