/** Real-number helpers shared by the audio and axis models. The clamp helper
    comes from a math-utils file that is not part of this model; it is
    defined here as `min(max(v, lo), hi)`. */
module MathUtils {

  /** `Math.max` on the real values the audio and axis code compares:
      samples, limits and ratios. */
  function Max(a: real, b: real): (r: real)
    ensures r >= a && r >= b && (r == a || r == b)
  {
    if a >= b then a else b
  }

  /** `Math.min` on real values. */
  function Min(a: real, b: real): (r: real)
    ensures r <= a && r <= b && (r == a || r == b)
  {
    if a <= b then a else b
  }

  /** `Math.max` on integer indices, such as the `slice` start of the timer
      and the sample at which a segment closes. Dafny keeps `int` and `real`
      apart, so the integer uses get their own copy rather than a conversion
      to `real` and a floor back. */
  function MaxInt(a: int, b: int): (r: int)
    ensures r >= a && r >= b && (r == a || r == b)
  {
    if a >= b then a else b
  }

  /** `clamp(v, lo, hi)`, written `Math.min(Math.max(v, lo), hi)`. */
  function Clamp(v: real, lo: real, hi: real): (r: real)
    ensures lo <= hi ==> lo <= r <= hi
    ensures lo <= v <= hi ==> r == v
    ensures lo <= hi && v <= lo ==> r == lo
    ensures v >= hi ==> r == hi
  {
    Min(Max(v, lo), hi)
  }

  /** Clamping is monotone in the clamped value. */
  lemma ClampMonotone(v: real, w: real, lo: real, hi: real)
    requires v <= w
    ensures Clamp(v, lo, hi) <= Clamp(w, lo, hi)
  {
  }

  /** `x ** n` for a natural exponent. */
  function Pow(x: real, n: nat): real
  {
    if n == 0 then 1.0 else x * Pow(x, n - 1)
  }

  /** `x ** n` on integers, as used for segment sizes. */
  function PowInt(x: int, n: nat): int
  {
    if n == 0 then 1 else x * PowInt(x, n - 1)
  }

  /** An even power is never negative, and it is positive for a non-zero base. */
  lemma {:induction false} PowEvenPositive(x: real, n: nat)
    requires n % 2 == 0
    ensures Pow(x, n) >= 0.0
    ensures x != 0.0 ==> Pow(x, n) > 0.0
  {
    if n > 0 {
      PowEvenPositive(x, n - 2);
      assert Pow(x, n) == x * x * Pow(x, n - 2);
      assert x * x >= 0.0;
      assert x != 0.0 ==> x * x > 0.0;
    }
  }

  /** `Math.round`: the nearest integer, halves rounded up. */
  function Round(x: real): (r: int)
    ensures x - 0.5 < r as real <= x + 0.5
  {
    (x + 0.5).Floor
  }

  /** Rounding an integer gives it back. */
  lemma RoundInt(n: int)
    ensures Round(n as real) == n
  {
  }

  /** Rounding is monotone. */
  lemma RoundMonotone(x: real, y: real)
    requires x <= y
    ensures Round(x) <= Round(y)
  {
  }

  /** A non-zero factor cancels: `a * d == b * d` forces `a == b`. */
  lemma CancelFactor(a: real, b: real, d: real)
    requires d != 0.0 && a * d == b * d
    ensures a == b
  {
  }

  /** Dividing by a positive number keeps the order. */
  lemma QuotientMonotone(a: real, b: real, d: real)
    requires d > 0.0 && a <= b
    ensures a / d <= b / d
  {
  }

  /** Multiplying by a non-negative number keeps the order. */
  lemma MulMonotone(a: real, b: real, c: real)
    requires a <= b && c >= 0.0
    ensures a * c <= b * c
  {
  }

  /** Multiplying by a positive number keeps a strict order. */
  lemma MulStrictMonotone(a: real, b: real, c: real)
    requires a < b && c > 0.0
    ensures a * c < b * c
  {
  }

  /** The floored quotient leaves a remainder in `[0, b)`. */
  lemma FloorQuotientBounds(a: real, b: real)
    requires b > 0.0
    ensures 0.0 <= a - (a / b).Floor as real * b < b
  {
    FloorQuotientLower(a, b);
    FloorQuotientUpper(a, b);
  }

  lemma FloorQuotientLower(a: real, b: real)
    requires b > 0.0
    ensures 0.0 <= a - (a / b).Floor as real * b
  {
    var q := a / b;
    var f: real := q.Floor as real;
    assert f <= q;
    MulMonotone(f, q, b);
    assert q * b == a;
  }

  lemma FloorQuotientUpper(a: real, b: real)
    requires b > 0.0
    ensures a - (a / b).Floor as real * b < b
  {
    var q := a / b;
    var f: real := q.Floor as real;
    var g := f + 1.0;
    assert q < g;
    MulStrictMonotone(q, g, b);
    assert q * b < g * b;
    assert q * b == a;
    assert g * b == f * b + b;
    assert a < f * b + b;
  }

  /** On integers, the floor of the real quotient is integer division. */
  lemma IntFloorDiv(n: int, d: int)
    requires d > 0
    ensures (n as real / d as real).Floor == n / d
  {
    var q := n / d;
    var r := n % d;
    assert n == q * d + r;
    assert n as real == q as real * d as real + r as real;
    assert n as real / d as real == q as real + r as real / d as real;
    assert 0.0 <= r as real / d as real < 1.0;
  }

  /** Adding a multiple of the divisor shifts the quotient and keeps the
      remainder. */
  lemma DivAddMultiple(a: int, m: int, d: int)
    requires d > 0
    ensures (a + m * d) / d == a / d + m
    ensures (a + m * d) % d == a % d
  {
    var x := a + m * d;
    assert x == (a / d + m) * d + a % d;
    DivModUnique(x, d, a / d + m, a % d);
  }

  /** The quotient and remainder are the only pair that rebuilds the value. */
  lemma DivModUnique(x: int, d: int, q: int, r: int)
    requires d > 0 && 0 <= r < d && x == q * d + r
    ensures x / d == q && x % d == r
  {
    var q' := x / d;
    var r' := x % d;
    assert (q - q') * d == r' - r;
    if q > q' {
      MulLeast(q - q', d);
    } else if q < q' {
      MulLeast(q' - q, d);
    }
  }

  lemma MulLeast(k: int, d: int)
    requires k >= 1 && d > 0
    ensures k * d >= d
  {
  }

  /** Dividing twice is dividing by the product. */
  lemma DivDiv(x: int, a: int, b: int)
    requires x >= 0 && a > 0 && b > 0
    ensures (x / a) / b == x / (a * b)
  {
    var q := (x / a) / b;
    var r := (x / a) % b;
    assert x / a == q * b + r;
    assert x == (q * b + r) * a + x % a;
    assert x == q * (a * b) + (r * a + x % a);
    assert r * a + x % a <= (b - 1) * a + (a - 1);
    DivModUnique(x, a * b, q, r * a + x % a);
  }
}
