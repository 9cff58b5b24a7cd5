/** `interpolateHexColors`: a colour part way between two `#rrggbb` colours,
    channel by channel with rounding, written back as lowercase hex. */
module StyleUtils {
  import opened Wrappers
  import opened MathUtils

  // ---------------------------------------------------------------------
  // Hexadecimal digits

  predicate IsHexDigit(c: char) {
    '0' <= c <= '9' || 'a' <= c <= 'f' || 'A' <= c <= 'F'
  }

  predicate IsLowerHexDigit(c: char) {
    '0' <= c <= '9' || 'a' <= c <= 'f'
  }

  predicate AllHexDigits(s: string) {
    forall i :: 0 <= i < |s| ==> IsHexDigit(s[i])
  }

  predicate AllLowerHexDigits(s: string) {
    forall i :: 0 <= i < |s| ==> IsLowerHexDigit(s[i])
  }

  function HexDigitValue(c: char): (d: int)
    requires IsHexDigit(c)
    ensures 0 <= d < 16
  {
    if '0' <= c <= '9' then c as int - '0' as int
    else if 'a' <= c <= 'f' then c as int - 'a' as int + 10
    else c as int - 'A' as int + 10
  }

  /** The lowercase digit `Number.prototype.toString(16)` writes for `d`. */
  function HexDigitChar(d: int): (c: char)
    requires 0 <= d < 16
    ensures IsLowerHexDigit(c) && IsHexDigit(c) && HexDigitValue(c) == d
  {
    if d < 10 then ('0' as int + d) as char else ('a' as int + d - 10) as char
  }

  function ToLowerHex(c: char): (l: char)
    requires IsHexDigit(c)
    ensures IsLowerHexDigit(l)
  {
    if 'A' <= c <= 'F' then (c as int - 'A' as int + 'a' as int) as char else c
  }

  function LowerHex(s: string): (r: string)
    requires AllHexDigits(s)
    ensures |r| == |s|
    ensures forall i :: 0 <= i < |s| ==> r[i] == ToLowerHex(s[i])
  {
    seq(|s|, i requires 0 <= i < |s| => ToLowerHex(s[i]))
  }

  /** The number a string of hex digits denotes, most significant first. */
  function HexValue(s: string): (v: nat)
    requires AllHexDigits(s)
    ensures v < PowInt(16, |s|)
  {
    if s == [] then 0 else HexValue(s[..|s| - 1]) * 16 + HexDigitValue(s[|s| - 1])
  }

  /** The length of the longest prefix of `s` made of hex digits. */
  function HexPrefixLength(s: string): (n: nat)
    ensures n <= |s| && AllHexDigits(s[..n])
    ensures n < |s| ==> !IsHexDigit(s[n])
  {
    if s == [] || !IsHexDigit(s[0]) then 0
    else
      var n := 1 + HexPrefixLength(s[1..]);
      assert s[..n] == [s[0]] + s[1..][..n - 1];
      n
  }

  // ---------------------------------------------------------------------
  // parseInt(s, 16)

  /** `parseInt(s, 16)`: an optional sign, an optional `0x`/`0X`, then the
      longest run of hex digits; no digits at all is `NaN`, here `None`. */
  function ParseIntHex(s: string): (v: Option<int>)
    ensures AllHexDigits(s) && s != [] ==> v == Some(HexValue(s))
    ensures s == [] || (!IsHexDigit(s[0]) && s[0] != '-' && s[0] != '+') ==> v.None?
  {
    var negative := |s| > 0 && s[0] == '-';
    var unsigned := if |s| > 0 && (s[0] == '-' || s[0] == '+') then s[1..] else s;
    var body := if |unsigned| >= 2 && unsigned[0] == '0' && (unsigned[1] == 'x' || unsigned[1] == 'X')
                then unsigned[2..] else unsigned;
    var n := HexPrefixLength(body);
    if n == 0 then None
    else if negative then Some(-(HexValue(body[..n]) as int))
    else
      assert AllHexDigits(s) ==> n == |s| && body[..n] == s;
      Some(HexValue(body[..n]))
  }

  // ---------------------------------------------------------------------
  // Number.prototype.toString(16)

  /** `n.toString(16)` for a non-negative integer: lowercase digits with no
      leading zero, which read back as `n`. */
  function ToHexString(n: nat): (s: string)
    ensures |s| >= 1 && AllLowerHexDigits(s) && AllHexDigits(s)
    ensures HexValue(s) == n
    ensures s[0] == '0' ==> n == 0
    decreases n
  {
    if n < 16 then
      var s := [HexDigitChar(n)];
      assert s[..0] == [];
      s
    else
      var init := ToHexString(n / 16);
      var s := init + [HexDigitChar(n % 16)];
      assert s[..|s| - 1] == init;
      s
  }

  /** The `w` low hex digits of `x`, with leading zeros. */
  function HexFixed(x: nat, w: nat): (s: string)
    ensures |s| == w && AllLowerHexDigits(s) && AllHexDigits(s)
  {
    if w == 0 then [] else HexFixed(x / 16, w - 1) + [HexDigitChar(x % 16)]
  }

  lemma PowIntPositive(w: nat)
    ensures PowInt(16, w) >= 1
  {
  }

  /** Writing `16^w + x` with `x < 16^w` gives a '1' followed by `x` in
      exactly `w` digits: this is why `rgbToHex` adds `1 << 24` and drops the
      first character. */
  lemma {:induction false} ToHexStringLeadingOne(x: nat, w: nat)
    requires x < PowInt(16, w)
    ensures ToHexString(PowInt(16, w) + x) == "1" + HexFixed(x, w)
  {
    if w > 0 {
      var p := PowInt(16, w - 1);
      PowIntPositive(w - 1);
      assert PowInt(16, w) == 16 * p;
      assert (16 * p + x) / 16 == p + x / 16;
      assert (16 * p + x) % 16 == x % 16;
      ToHexStringLeadingOne(x / 16, w - 1);
    }
  }

  /** Fixed-width digits read back as the number. */
  lemma {:induction false} HexFixedValue(x: nat, w: nat)
    requires x < PowInt(16, w)
    ensures HexValue(HexFixed(x, w)) == x
  {
    if w > 0 {
      assert PowInt(16, w) == 16 * PowInt(16, w - 1);
      HexFixedValue(x / 16, w - 1);
      var s := HexFixed(x, w);
      assert s[..|s| - 1] == HexFixed(x / 16, w - 1);
    }
  }

  /** Writing a digit string's value back at its width gives the string in
      lowercase. */
  lemma {:induction false} HexFixedOfValue(s: string)
    requires AllHexDigits(s)
    ensures HexFixed(HexValue(s), |s|) == LowerHex(s)
  {
    if s != [] {
      var init := s[..|s| - 1];
      var c := s[|s| - 1];
      HexFixedOfValue(init);
      var v := HexValue(s);
      assert v / 16 == HexValue(init) && v % 16 == HexDigitValue(c);
      assert HexDigitChar(HexDigitValue(c)) == ToLowerHex(c);
      assert LowerHex(s) == LowerHex(init) + [ToLowerHex(c)];
    }
  }

  // ---------------------------------------------------------------------
  // The colour helpers

  /** `hex.slice(1)`. */
  function DropFirst(hex: string): (r: string)
    ensures |hex| > 0 ==> r == hex[1..]
    ensures |hex| == 0 ==> r == []
  {
    if |hex| == 0 then [] else hex[1..]
  }

  /** The integer `hexToRgb` splits: `parseInt(hex.slice(1), 16)`, with
      `NaN` read as 0 by the bitwise operators. */
  function ParsedColor(hex: string): int {
    ParseIntHex(DropFirst(hex)).GetOr(0)
  }

  const TwoTo24: int := 16777216

  /** Six hex digits hold exactly 24 bits. */
  lemma SixHexDigits()
    ensures PowInt(16, 6) == TwoTo24
  {
    assert PowInt(16, 2) == 256;
    assert PowInt(16, 4) == 65536 by {
      assert PowInt(16, 3) == 4096;
    }
    assert PowInt(16, 5) == 1048576;
  }

  /** `hexToRgb`: bits 16..23, 8..15 and 0..7 of the parsed value. As
      `(v >> k) & 255` keeps bits of the two's complement form, it is
      `floor(v / 2^k) mod 256` also for a negative value. The three channels
      together are the low 24 bits of the value. */
  function HexToRgb(hex: string): (rgb: seq<int>)
    ensures |rgb| == 3
    ensures forall i :: 0 <= i < 3 ==> 0 <= rgb[i] <= 255
    ensures rgb[0] * 65536 + rgb[1] * 256 + rgb[2] == ParsedColor(hex) % TwoTo24
  {
    var bigint := ParsedColor(hex);
    ChannelSplit(bigint);
    [(bigint / 65536) % 256, (bigint / 256) % 256, bigint % 256]
  }

  /** The low 24 bits of `v` in three bytes. */
  lemma ChannelSplit(v: int)
    ensures ((v / 65536) % 256) * 65536 + ((v / 256) % 256) * 256 + v % 256 == v % TwoTo24
  {
    var r := v % TwoTo24;
    var q := v / TwoTo24;
    assert v == r + (q * 256) * 65536;
    DivAddMultiple(r, q * 256, 65536);
    DivAddMultiple(r / 65536, q, 256);
    assert v == r + (q * 65536) * 256;
    DivAddMultiple(r, q * 65536, 256);
    DivAddMultiple(r / 256, q * 256, 256);
    DivDiv(r, 256, 256);
    assert r / 65536 < 256;
    assert r == (r / 256) * 256 + r % 256;
    assert r / 256 == (r / 65536) * 256 + (r / 256) % 256;
  }

  /** The value `rgbToHex` writes: `(1 << 24) + (r << 16) + (g << 8) + b`
      without the 24th bit, for channels in 0..255 (no shift overflows). */
  function PackedRgb(rgb: seq<int>): (v: int)
    requires |rgb| == 3 && forall i :: 0 <= i < 3 ==> 0 <= rgb[i] <= 255
    ensures 0 <= v < TwoTo24
  {
    rgb[0] * 65536 + rgb[1] * 256 + rgb[2]
  }

  /** `rgbToHex`: '#' and six lowercase hex digits that read back as the
      packed channels. */
  function RgbToHex(rgb: seq<int>): (hex: string)
    requires |rgb| == 3 && forall i :: 0 <= i < 3 ==> 0 <= rgb[i] <= 255
    ensures |hex| == 7 && hex[0] == '#'
    ensures AllLowerHexDigits(hex[1..]) && AllHexDigits(hex[1..])
    ensures HexValue(hex[1..]) == PackedRgb(rgb)
  {
    var v := PackedRgb(rgb);
    SixHexDigits();
    ToHexStringLeadingOne(v, 6);
    HexFixedValue(v, 6);
    var hex := "#" + ToHexString(TwoTo24 + v)[1..];
    assert hex[1..] == HexFixed(v, 6);
    hex
  }

  /** A rounded channel part way from `a` to `b`: `Math.round(a + (b - a) * ratio)`. */
  function InterpolateChannel(a: int, b: int, ratio: real): (c: int)
    requires 0.0 <= ratio <= 1.0
    ensures (if a <= b then a else b) <= c <= (if a <= b then b else a)
    ensures ratio == 0.0 ==> c == a
    ensures ratio == 1.0 ==> c == b
  {
    var channelDiff := b - a;
    var x := a as real + channelDiff as real * ratio;
    BetweenEnds(a, b, ratio);
    RoundMonotone(x, if a <= b then b as real else a as real);
    RoundMonotone(if a <= b then a as real else b as real, x);
    RoundInt(a);
    RoundInt(b);
    Round(x)
  }

  /** `a + (b - a) * ratio` lies between `a` and `b` for a ratio in [0, 1]. */
  lemma BetweenEnds(a: int, b: int, ratio: real)
    requires 0.0 <= ratio <= 1.0
    ensures var x := a as real + (b - a) as real * ratio;
            (if a <= b then a as real else b as real) <= x <= (if a <= b then b as real else a as real)
  {
    if a <= b {
      MulMonotone(0.0, ratio, (b - a) as real);
      MulMonotone(ratio, 1.0, (b - a) as real);
    } else {
      MulMonotone(0.0, ratio, (a - b) as real);
      MulMonotone(ratio, 1.0, (a - b) as real);
    }
  }

  /** `interpolateHexColors(color1, color2, ratio)`: the ratio is clamped to
      [0, 1] first; the result is '#' and six lowercase hex digits whose
      channels each lie between the two inputs' channels. */
  function InterpolateHexColors(color1: string, color2: string, ratio: real := 0.5): (hex: string)
    ensures |hex| == 7 && hex[0] == '#' && AllLowerHexDigits(hex[1..]) && AllHexDigits(hex[1..])
    ensures HexValue(hex[1..]) == PackedRgb(InterpolatedRgb(color1, color2, Clamp(ratio, 0.0, 1.0)))
  {
    var t := Clamp(ratio, 0.0, 1.0);
    RgbToHex(InterpolatedRgb(color1, color2, t))
  }

  /** The channels before they are written out: `color1Rgb.map(...)`. */
  function InterpolatedRgb(color1: string, color2: string, ratio: real): (rgb: seq<int>)
    requires 0.0 <= ratio <= 1.0
    ensures |rgb| == 3 && forall i :: 0 <= i < 3 ==> 0 <= rgb[i] <= 255
    ensures forall i :: 0 <= i < 3 ==>
              var a := HexToRgb(color1)[i];
              var b := HexToRgb(color2)[i];
              (if a <= b then a else b) <= rgb[i] <= (if a <= b then b else a)
  {
    var c1 := HexToRgb(color1);
    var c2 := HexToRgb(color2);
    seq(3, i requires 0 <= i < 3 => InterpolateChannel(c1[i], c2[i], ratio))
  }

  // ---------------------------------------------------------------------
  // Properties

  /** A well-formed `#rrggbb` colour: '#' and six hex digits. */
  predicate IsHexColor(hex: string) {
    |hex| == 7 && hex[0] == '#' && AllHexDigits(hex[1..])
  }

  /** The digits of a `#rrggbb` colour are parsed as they stand. */
  lemma ParsedHexColor(hex: string)
    requires IsHexColor(hex)
    ensures ParsedColor(hex) == HexValue(hex[1..])
    ensures 0 <= ParsedColor(hex) < TwoTo24
  {
    SixHexDigits();
  }

  /** A colour with no hex digit after its first character is read as
      `NaN`, which the bitwise operators turn into black. */
  lemma NoDigitsIsBlack(hex: string)
    requires |hex| <= 1 || (!IsHexDigit(hex[1]) && hex[1] != '-' && hex[1] != '+')
    ensures HexToRgb(hex) == [0, 0, 0]
  {
    assert ParseIntHex(DropFirst(hex)).None?;
  }

  /** Splitting a `#rrggbb` colour and joining it again gives the colour in
      lowercase. */
  lemma HexRoundTrip(hex: string)
    requires IsHexColor(hex)
    ensures RgbToHex(HexToRgb(hex)) == "#" + LowerHex(hex[1..])
  {
    ParsedHexColor(hex);
    assert PackedRgb(HexToRgb(hex)) == HexValue(hex[1..]);
    RgbToHexDigits(HexToRgb(hex));
    HexFixedOfValue(hex[1..]);
  }

  /** `rgbToHex` writes the packed channels as exactly six digits. */
  lemma RgbToHexDigits(rgb: seq<int>)
    requires |rgb| == 3 && forall i :: 0 <= i < 3 ==> 0 <= rgb[i] <= 255
    ensures RgbToHex(rgb) == "#" + HexFixed(PackedRgb(rgb), 6)
  {
    var v := PackedRgb(rgb);
    SixHexDigits();
    ToHexStringLeadingOne(v, 6);
    var out := RgbToHex(rgb);
    assert out[1..] == HexFixed(v, 6);
    assert out == [out[0]] + out[1..];
  }

  /** Three bytes packed as `r * 65536 + g * 256 + b` unpack again. */
  lemma PackUnpack(r: int, g: int, b: int)
    requires 0 <= r <= 255 && 0 <= g <= 255 && 0 <= b <= 255
    ensures var v := r * 65536 + g * 256 + b;
            (v / 65536) % 256 == r && (v / 256) % 256 == g && v % 256 == b
  {
    var v := r * 65536 + g * 256 + b;
    assert v / 65536 == r;
    assert v / 256 == r * 256 + g;
  }

  /** Reading back what `rgbToHex` writes gives the channels. */
  lemma RgbRoundTrip(rgb: seq<int>)
    requires |rgb| == 3 && forall i :: 0 <= i < 3 ==> 0 <= rgb[i] <= 255
    ensures HexToRgb(RgbToHex(rgb)) == rgb
  {
    var hex := RgbToHex(rgb);
    ParsedHexColor(hex);
    var v := PackedRgb(rgb);
    assert ParsedColor(hex) == v;
    PackUnpack(rgb[0], rgb[1], rgb[2]);
    var back := HexToRgb(hex);
    assert back == [(v / 65536) % 256, (v / 256) % 256, v % 256];
  }

  /** Ratios below 0 act as 0 and ratios above 1 act as 1. */
  lemma RatioClamped(color1: string, color2: string, ratio: real)
    ensures ratio <= 0.0 ==> InterpolateHexColors(color1, color2, ratio) == InterpolateHexColors(color1, color2, 0.0)
    ensures ratio >= 1.0 ==> InterpolateHexColors(color1, color2, ratio) == InterpolateHexColors(color1, color2, 1.0)
  {
  }

  /** Ratio 0 gives the first colour and ratio 1 the second, each in
      lowercase. */
  lemma InterpolationEndpoints(color1: string, color2: string)
    requires IsHexColor(color1) && IsHexColor(color2)
    ensures InterpolateHexColors(color1, color2, 0.0) == "#" + LowerHex(color1[1..])
    ensures InterpolateHexColors(color1, color2, 1.0) == "#" + LowerHex(color2[1..])
  {
    assert InterpolatedRgb(color1, color2, 0.0) == HexToRgb(color1);
    assert InterpolatedRgb(color1, color2, 1.0) == HexToRgb(color2);
    HexRoundTrip(color1);
    HexRoundTrip(color2);
  }

  /** Every channel of the result lies between the two inputs' channels. */
  lemma ChannelsBetweenInputs(color1: string, color2: string, ratio: real)
    ensures var out := HexToRgb(InterpolateHexColors(color1, color2, ratio));
            forall i :: 0 <= i < 3 ==>
              var a := HexToRgb(color1)[i];
              var b := HexToRgb(color2)[i];
              (if a <= b then a else b) <= out[i] <= (if a <= b then b else a)
  {
    var rgb := InterpolatedRgb(color1, color2, Clamp(ratio, 0.0, 1.0));
    RgbRoundTrip(rgb);
  }
}
