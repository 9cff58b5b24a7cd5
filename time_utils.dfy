/** `formatTime`: a number of seconds rendered as the recorder's and the
    player's `mm:ss` timer text. */
module TimeUtils {
  import opened MathUtils

  /** `a - b * floor(a / b)`, the remainder of the floored quotient. */
  function FloorMod(a: real, b: real): (r: real)
    requires b > 0.0
    ensures 0.0 <= r < b
  {
    FloorQuotientBounds(a, b);
    a - (a / b).Floor as real * b
  }

  /** JavaScript's `a % b` for `b > 0`: the remainder of the quotient
      truncated toward zero, which carries the sign of `a`. */
  function TruncMod(a: real, b: real): (r: real)
    requires b > 0.0
    ensures a >= 0.0 ==> 0.0 <= r < b
    ensures a <= 0.0 ==> -b < r <= 0.0
  {
    if a >= 0.0 then FloorMod(a, b) else -FloorMod(-a, b)
  }

  /** On a whole non-negative number the remainder is integer `%`. */
  lemma TruncModNat(n: nat, d: nat)
    requires d > 0
    ensures TruncMod(n as real, d as real) == (n % d) as real
  {
    IntFloorDiv(n, d);
    assert n == (n / d) * d + n % d;
  }

  function DigitChar(d: int): (c: char)
    requires 0 <= d < 10
    ensures '0' <= c <= '9' && c as int - '0' as int == d
  {
    ('0' as int + d) as char
  }

  function DigitValue(c: char): int
    requires '0' <= c <= '9'
  {
    c as int - '0' as int
  }

  predicate IsDigits(s: string) {
    forall i :: 0 <= i < |s| ==> '0' <= s[i] <= '9'
  }

  /** The decimal digits of `n`, most significant first, with no leading
      zero except for `n == 0` itself. */
  function DecimalDigits(n: nat): (s: string)
    ensures |s| >= 1 && IsDigits(s)
    ensures |s| == 1 <==> n < 10
    ensures s[0] == '0' ==> n == 0
    decreases n
  {
    if n < 10 then [DigitChar(n)] else DecimalDigits(n / 10) + [DigitChar(n % 10)]
  }

  /** The number a string of decimal digits denotes. */
  function DecimalValue(s: string): nat
    requires IsDigits(s)
  {
    if s == [] then 0 else DecimalValue(s[..|s| - 1]) * 10 + DigitValue(s[|s| - 1])
  }

  /** Reading the digits back gives the number. */
  lemma {:induction false} DecimalRoundTrip(n: nat)
    ensures DecimalValue(DecimalDigits(n)) == n
    decreases n
  {
    if n >= 10 {
      DecimalRoundTrip(n / 10);
      var s := DecimalDigits(n);
      assert s[..|s| - 1] == DecimalDigits(n / 10);
    }
  }

  /** `Number.prototype.toString()` on an integer: a minus sign for a
      negative number, then the decimal digits of its magnitude. */
  function IntToString(n: int): (s: string)
    ensures |s| >= 1
    ensures s[0] == '-' <==> n < 0
    ensures n >= 0 ==> IsDigits(s) && DecimalValue(s) == n
    ensures n < 0 ==> IsDigits(s[1..]) && DecimalValue(s[1..]) == -n
  {
    if n < 0 then
      DecimalRoundTrip(-n);
      var s := "-" + DecimalDigits(-n);
      assert s[1..] == DecimalDigits(-n);
      s
    else
      DecimalRoundTrip(n);
      DecimalDigits(n)
  }

  /** `s.padStart(width, pad)` for a one-character pad. */
  function PadStart(s: string, width: nat, pad: char): (r: string)
    ensures |r| == if |s| >= width then |s| else width
    ensures r[|r| - |s|..] == s
    ensures forall i :: 0 <= i < |r| - |s| ==> r[i] == pad
  {
    if |s| >= width then s else seq(width - |s|, _ => pad) + s
  }

  /** `xs.findIndex(val => val)` on integers: the first non-zero position,
      or -1 when every entry is zero. */
  function FirstNonzeroIndex(xs: seq<int>): (i: int)
    ensures -1 <= i < |xs|
    ensures i == -1 <==> forall k :: 0 <= k < |xs| ==> xs[k] == 0
    ensures i >= 0 ==> xs[i] != 0 && forall k :: 0 <= k < i ==> xs[k] == 0
  {
    if xs == [] then -1
    else if xs[0] != 0 then 0
    else
      var j := FirstNonzeroIndex(xs[1..]);
      if j == -1 then -1 else j + 1
  }

  /** `parts.join(sep)`. */
  function Join(parts: seq<string>, sep: string): (r: string)
    ensures |parts| == 1 ==> r == parts[0]
    ensures |parts| >= 2 ==> r == parts[0] + sep + Join(parts[1..], sep)
  {
    if |parts| == 0 then ""
    else if |parts| == 1 then parts[0]
    else parts[0] + sep + Join(parts[1..], sep)
  }

  /** One timer field: the integer's text padded to two characters with '0'. */
  function TimerField(n: int): string {
    PadStart(IntToString(n), 2, '0')
  }

  /** The timer text for given minutes and seconds. */
  function TimerText(minutes: int, seconds: int): string {
    TimerField(minutes) + ":" + TimerField(seconds)
  }

  /** The minutes the timer shows: `floor((seconds % 3600) / 60)`. */
  function Minutes(seconds: real): int {
    (TruncMod(seconds, 3600.0) / 60.0).Floor
  }

  /** The seconds the timer shows: `round(seconds % 60)`. */
  function RoundedSeconds(seconds: real): int {
    Round(TruncMod(seconds, 60.0))
  }

  /** `formatTime(seconds)`. The hours are computed but never shown: the
      slice starts at `max(1, firstNonzeroIndex - 1)`, which is 1 for every
      index `findIndex` can return on three entries, so the text is always
      minutes and seconds joined by ':'. */
  function FormatTime(seconds: real): (s: string)
    ensures s == TimerText(Minutes(seconds), RoundedSeconds(seconds))
  {
    var hours := (seconds / 3600.0).Floor;
    var minutes := (TruncMod(seconds, 3600.0) / 60.0).Floor;
    var remainingSeconds := TruncMod(seconds, 60.0);
    var roundedHours := Round(hours as real);
    var roundedMinutes := Round(minutes as real);
    var roundedSeconds := Round(remainingSeconds);
    RoundInt(hours);
    RoundInt(minutes);
    var formattedHours := PadStart(IntToString(roundedHours), 2, '0');
    var formattedMinutes := PadStart(IntToString(roundedMinutes), 2, '0');
    var formattedSeconds := PadStart(IntToString(roundedSeconds), 2, '0');
    var firstNonzeroIndex := FirstNonzeroIndex([roundedHours, roundedMinutes, roundedSeconds]);
    var fields := [formattedHours, formattedMinutes, formattedSeconds];
    var start := MaxInt(1, firstNonzeroIndex - 1);
    assert start == 1;
    assert fields[start..] == [formattedMinutes, formattedSeconds];
    Join(fields[start..], ":")
  }

  /** A number below 100 fills its field with exactly two digits. */
  lemma TimerFieldTwoDigits(n: int)
    requires 0 <= n < 100
    ensures TimerField(n) == [DigitChar(n / 10), DigitChar(n % 10)]
  {
    if n >= 10 {
      assert DecimalDigits(n / 10) == [DigitChar(n / 10)];
    }
  }

  /** Two digits read back as the number they spell. */
  lemma TwoDigitValue(n: int)
    requires 0 <= n < 100
    ensures IsDigits([DigitChar(n / 10), DigitChar(n % 10)])
    ensures DecimalValue([DigitChar(n / 10), DigitChar(n % 10)]) == n
  {
    var s := [DigitChar(n / 10), DigitChar(n % 10)];
    assert s[..|s| - 1] == [DigitChar(n / 10)];
    var t := [DigitChar(n / 10)];
    assert t[..|t| - 1] == [];
    assert DecimalValue(t) == n / 10;
  }

  lemma SplitAtColon(mm: string, ss: string)
    requires |mm| == 2 && |ss| == 2
    ensures var s := mm + ":" + ss; |s| == 5 && s[2] == ':' && s[..2] == mm && s[3..] == ss
  {
    var s := mm + ":" + ss;
    assert s[..2] == mm;
  }

  /** Fields below 100 give five characters `mm:ss` that read back as the
      two numbers. */
  lemma TimerTextReadsBack(minutes: int, seconds: int)
    requires 0 <= minutes < 100 && 0 <= seconds < 100
    ensures var s := TimerText(minutes, seconds);
            |s| == 5 && s[2] == ':' && IsDigits(s[..2]) && IsDigits(s[3..]) &&
            DecimalValue(s[..2]) == minutes && DecimalValue(s[3..]) == seconds
  {
    TimerFieldTwoDigits(minutes);
    TimerFieldTwoDigits(seconds);
    TwoDigitValue(minutes);
    TwoDigitValue(seconds);
    var mm := [DigitChar(minutes / 10), DigitChar(minutes % 10)];
    var ss := [DigitChar(seconds / 10), DigitChar(seconds % 10)];
    var s := TimerText(minutes, seconds);
    assert s == mm + ":" + ss;
    SplitAtColon(mm, ss);
  }

  /** On whole non-negative seconds the shown fields are `(n % 3600) / 60`
      and `n % 60`. */
  lemma WholeSecondsFields(n: nat)
    ensures Minutes(n as real) == (n % 3600) / 60
    ensures RoundedSeconds(n as real) == n % 60
  {
    TruncModNat(n, 3600);
    TruncModNat(n, 60);
    IntFloorDiv(n % 3600, 60);
    RoundInt(n % 60);
  }

  /** For non-negative input the minutes field stays below 60 but the
      seconds field reaches 60 when `seconds % 60` rounds up. */
  lemma FieldRanges(seconds: real)
    requires seconds >= 0.0
    ensures 0 <= Minutes(seconds) < 60
    ensures 0 <= RoundedSeconds(seconds) <= 60
  {
    var m := TruncMod(seconds, 3600.0);
    assert m / 60.0 < 60.0;
  }

  /** Whole non-negative seconds give five characters `mm:ss` that read back
      as `(n % 3600) / 60` minutes and `n % 60` seconds. */
  lemma WholeSecondsFormat(n: nat)
    ensures var s := FormatTime(n as real);
            |s| == 5 && s[2] == ':' && IsDigits(s[..2]) && IsDigits(s[3..]) &&
            DecimalValue(s[..2]) == (n % 3600) / 60 && DecimalValue(s[3..]) == n % 60
  {
    WholeSecondsFields(n);
    TimerTextReadsBack((n % 3600) / 60, n % 60);
  }

  /** Fields below 100 are written out digit by digit. */
  lemma TimerTextDigits(minutes: int, seconds: int)
    requires 0 <= minutes < 100 && 0 <= seconds < 100
    ensures TimerText(minutes, seconds)
         == [DigitChar(minutes / 10), DigitChar(minutes % 10), ':', DigitChar(seconds / 10), DigitChar(seconds % 10)]
  {
    TimerFieldTwoDigits(minutes);
    TimerFieldTwoDigits(seconds);
    var mm := [DigitChar(minutes / 10), DigitChar(minutes % 10)];
    var ss := [DigitChar(seconds / 10), DigitChar(seconds % 10)];
    assert TimerText(minutes, seconds) == mm + ":" + ss;
    JoinPairs(mm[0], mm[1], ss[0], ss[1]);
  }

  /** Fields below 100 are written out digit by digit, whatever the input. */
  lemma FormatTimeDigits(seconds: real, minutes: int, secs: int)
    requires Minutes(seconds) == minutes && RoundedSeconds(seconds) == secs
    requires 0 <= minutes < 100 && 0 <= secs < 100
    ensures FormatTime(seconds)
         == [DigitChar(minutes / 10), DigitChar(minutes % 10), ':', DigitChar(secs / 10), DigitChar(secs % 10)]
  {
    TimerTextDigits(minutes, secs);
  }

  lemma JoinPairs(a: char, b: char, c: char, d: char)
    ensures [a, b] + ":" + [c, d] == [a, b, ':', c, d]
  {
  }

  /** Within an hour, the minutes and seconds recombine:
      `n % 3600 == ((n % 3600) / 60) * 60 + n % 60`. */
  lemma HourRemainderSplit(n: nat)
    ensures (n % 3600) / 60 < 60
    ensures n % 3600 == ((n % 3600) / 60) * 60 + n % 60
  {
    var h := n / 3600;
    var r := n % 3600;
    assert n == h * 3600 + r;
    assert r == (r / 60) * 60 + r % 60;
    assert n == (h * 60 + r / 60) * 60 + r % 60;
    assert n % 60 == r % 60;
  }

  /** Below an hour, `% 3600` leaves a non-negative number unchanged. */
  lemma WithinAnHour(seconds: real)
    requires 0.0 <= seconds < 60.0
    ensures TruncMod(seconds, 3600.0) == seconds && TruncMod(seconds, 60.0) == seconds
    ensures Minutes(seconds) == 0
  {
    assert (seconds / 3600.0).Floor == 0;
    assert (seconds / 60.0).Floor == 0;
  }

  /** Less than half a second shows as "00:00". */
  lemma FormatZero(seconds: real)
    requires 0.0 <= seconds < 0.5
    ensures FormatTime(seconds) == "00:00"
  {
    WithinAnHour(seconds);
    assert Round(seconds) == 0;
    FormatTimeDigits(seconds, 0, 0);
    assert DigitChar(0) == '0';
  }

  /** The seconds are rounded after `% 60`, so anything from 59.5 s up to a
      minute shows as "00:60" rather than "01:00". */
  lemma SixtySecondsShown(seconds: real)
    requires 59.5 <= seconds < 60.0
    ensures FormatTime(seconds) == "00:60"
  {
    WithinAnHour(seconds);
    assert Round(seconds) == 60;
    FormatTimeDigits(seconds, 0, 60);
    assert DigitChar(0) == '0' && DigitChar(6) == '6';
  }

  /** The timer with the total rounded to whole seconds first, so that a
      rounded-up second carries into the minutes. */
  function FormatTimeWholeSeconds(seconds: real): (s: string)
    ensures seconds >= 0.0 ==> |s| == 5 && s[2] == ':'
  {
    if seconds >= 0.0 then
      var total := Round(seconds);
      WholeSecondsFormat(total);
      FormatTime(total as real)
    else
      FormatTime(Round(seconds) as real)
  }

  /** Rounding first keeps the seconds field below 60, and the two fields
      read back as the rounded total modulo an hour. */
  lemma WholeSecondsFieldsInRange(seconds: real)
    requires seconds >= 0.0
    ensures var s := FormatTimeWholeSeconds(seconds);
            IsDigits(s[..2]) && IsDigits(s[3..]) &&
            DecimalValue(s[3..]) < 60 && DecimalValue(s[..2]) < 60 &&
            DecimalValue(s[..2]) * 60 + DecimalValue(s[3..]) == Round(seconds) % 3600
  {
    var total: nat := Round(seconds);
    assert FormatTimeWholeSeconds(seconds) == FormatTime(total as real);
    WholeSecondsRecombine(total);
  }

  /** Whole non-negative seconds show two fields below 60 that recombine to
      the seconds modulo an hour. */
  lemma WholeSecondsRecombine(n: nat)
    ensures var s := FormatTime(n as real);
            IsDigits(s[..2]) && IsDigits(s[3..]) &&
            DecimalValue(s[3..]) < 60 && DecimalValue(s[..2]) < 60 &&
            DecimalValue(s[..2]) * 60 + DecimalValue(s[3..]) == n % 3600
  {
    WholeSecondsFormat(n);
    HourRemainderSplit(n);
  }

  /** Rounding first carries 59.5 s up to 60.5 s into the minutes: "01:00". */
  lemma WholeSecondsCarry(seconds: real)
    requires 59.5 <= seconds < 60.5
    ensures FormatTimeWholeSeconds(seconds) == "01:00"
  {
    assert Round(seconds) == 60;
    WholeSecondsFields(60);
    FormatTimeDigits(60.0, 1, 0);
    assert DigitChar(0) == '0' && DigitChar(1) == '1';
  }
}
