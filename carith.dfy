/** C and Arduino arithmetic that the firmware relies on, written out for
    Dafny's unbounded integers and exact reals: the `(int)` cast of a float
    (truncation toward zero), `/` and `%` on signed integers (truncation
    toward zero), and the Arduino `constrain`, `min`, `max` and `map` macros. */
module CArith {

  /** The C cast `(int)r` of a floating-point value: truncation toward zero. */
  function Trunc(r: real): (n: int)
    ensures 0.0 <= r ==> 0 <= n && n as real <= r < n as real + 1.0
    ensures r <= 0.0 ==> n <= 0 && n as real - 1.0 < r <= n as real
  {
    if r >= 0.0 then r.Floor else -((-r).Floor)
  }

  lemma TruncMonotone(a: real, b: real)
    requires a <= b
    ensures Trunc(a) <= Trunc(b)
  {
    if a >= 0.0 {
    } else if b <= 0.0 {
      assert (-b).Floor <= (-a).Floor;
    }
  }

  lemma TruncOfInt(n: int)
    ensures Trunc(n as real) == n
  {
  }

  /** C integer division `a / b` for a positive divisor: the quotient is
      truncated toward zero, unlike Dafny's Euclidean `/`. */
  function CDiv(a: int, b: int): (q: int)
    requires b > 0
    ensures 0 <= a ==> 0 <= q * b <= a < (q + 1) * b
    ensures a < 0 ==> (q - 1) * b < a <= q * b <= 0
  {
    if a >= 0 then
      DivBounds(a, b);
      a / b
    else
      DivBounds(-a, b);
      -((-a) / b)
  }

  lemma DivBounds(n: int, b: int)
    requires n >= 0 && b > 0
    ensures 0 <= (n / b) * b <= n < (n / b + 1) * b
  {
    var q, r := n / b, n % b;
    assert n == q * b + r;
    assert q >= 0;
    assert (q + 1) * b == q * b + b;
  }

  /** C remainder `a % b` for a positive divisor: it takes the sign of `a`. */
  function CRem(a: int, b: int): (r: int)
    requires b > 0
    ensures a == CDiv(a, b) * b + r
    ensures 0 <= a ==> 0 <= r < b
    ensures a < 0 ==> -b < r <= 0
  {
    a - CDiv(a, b) * b
  }

  /** Arduino's `constrain(amt, low, high)` macro, branch for branch. */
  function Constrain(amt: int, low: int, high: int): (r: int)
    ensures low <= high ==> low <= r <= high
    ensures low <= amt <= high ==> r == amt
    ensures amt < low ==> r == low
    ensures low <= high < amt ==> r == high
  {
    if amt < low then low else if amt > high then high else amt
  }

  function Min(a: int, b: int): (r: int)
    ensures r <= a && r <= b && (r == a || r == b)
  {
    if a < b then a else b
  }

  function Max(a: int, b: int): (r: int)
    ensures r >= a && r >= b && (r == a || r == b)
  {
    if a > b then a else b
  }

  /** Arduino's `map(x, in_min, in_max, out_min, out_max)` on `long`:
      `(x - in_min) * (out_max - out_min) / (in_max - in_min) + out_min`,
      with C's truncating division. */
  function ArduinoMap(x: int, inMin: int, inMax: int, outMin: int, outMax: int): int
    requires inMin < inMax
  {
    CDiv((x - inMin) * (outMax - outMin), inMax - inMin) + outMin
  }

  /** `map` sends the ends of the input range to the ends of the output
      range, and a point between them to a value between them. */
  lemma MapEndpoints(x: int, inMin: int, inMax: int, outMin: int, outMax: int)
    requires inMin < inMax
    ensures var r := ArduinoMap(x, inMin, inMax, outMin, outMax);
      (x == inMin ==> r == outMin) && (x == inMax ==> r == outMax) &&
      (inMin <= x <= inMax ==> Min(outMin, outMax) <= r <= Max(outMin, outMax))
  {
    if x == inMax {
      CDivExact(outMax - outMin, inMax - inMin);
    } else if inMin <= x < inMax {
      MapBetween(x - inMin, inMax - inMin, outMax - outMin);
    }
  }

  /** Scaling a span by a fraction `k / den` of at most one, with C division,
      stays inside the span. */
  lemma MapBetween(k: int, den: int, span: int)
    requires 0 <= k <= den && den > 0
    ensures span >= 0 ==> 0 <= CDiv(k * span, den) <= span
    ensures span < 0 ==> span <= CDiv(k * span, den) <= 0
  {
    var a := k * span;
    var q := CDiv(a, den);
    if span >= 0 {
      MulLe(0, k, span);
      MulLe(k, den, span);
      assert den * span == span * den;
      if q > span {
        assert (span + 1) * den == span * den + den;
        MulLe(span + 1, q, den);
      }
    } else {
      MulLe(k, den, -span);
      assert a == -(k * (-span));
      assert den * (-span) == -(span * den);
      if q < span {
        assert (span - 1) * den == span * den - den;
        MulLe(q, span - 1, den);
      }
    }
  }

  lemma CDivExact(k: int, b: int)
    requires b > 0
    ensures CDiv(b * k, b) == k
  {
    var q := CDiv(b * k, b);
    if q < k {
      MulLe(q + 1, k, b);
    } else if q > k {
      MulLe(k + 1, q, b);
    }
  }

  lemma MulLe(a: int, b: int, c: int)
    requires a <= b && c >= 0
    ensures a * c <= b * c
  {
    assert b * c - a * c == (b - a) * c;
  }

  /** Products of reals that Z3's linear reasoning does not see on its own. */
  lemma MulPos(a: real, b: real)
    requires a > 0.0 && b > 0.0
    ensures a * b > 0.0
  {
  }

  lemma MulNonNeg(a: real, b: real)
    requires a >= 0.0 && b >= 0.0
    ensures a * b >= 0.0
  {
  }

  lemma MulLeReal(a: real, b: real, c: real)
    requires a <= b && c >= 0.0
    ensures a * c <= b * c
  {
    MulNonNeg(b - a, c);
    assert (b - a) * c == b * c - a * c;
  }
}
