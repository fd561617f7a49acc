/** Python's `round(x, d)` for a float `x` and `d >= 0` digits: the multiple of
    10^-d nearest to the exact value of `x`, ties going to the even multiple. */
module Rounding {

  function Pow10(d: nat): (p: nat)
    ensures p >= 1
  {
    if d == 0 then 1 else 10 * Pow10(d - 1)
  }

  /** The integer nearest to `s`, ties going to the even one. */
  function HalfEven(s: real): (n: int)
    ensures -0.5 <= n as real - s <= 0.5
  {
    var f := s.Floor;
    var frac := s - f as real;
    if frac < 0.5 then f
    else if frac > 0.5 then f + 1
    else if f % 2 == 0 then f
    else f + 1
  }

  function Round(x: real, d: nat): real
  {
    HalfEven(Scaled(x, d)) as real / Pow10(d) as real
  }

  /** `x` in units of 10^-d. */
  function Scaled(x: real, d: nat): real
  {
    x * Pow10(d) as real
  }

  lemma HalfEvenOfInteger(n: int)
    ensures HalfEven(n as real) == n
  {
    assert (n as real).Floor == n;
  }

  lemma {:induction false} HalfEvenMonotone(s: real, t: real)
    requires s <= t
    ensures HalfEven(s) <= HalfEven(t)
  {
    assert s.Floor <= t.Floor;
  }

  lemma DivOfScaled(x: real, p: real)
    requires p > 0.0
    ensures (x * p) / p == x
  {
  }

  lemma ScaleMonotone(x: real, y: real, p: real)
    requires x <= y && p > 0.0
    ensures x * p <= y * p
  {
  }

  lemma DivMonotone(x: real, y: real, p: real)
    requires x <= y && p > 0.0
    ensures x / p <= y / p
  {
  }

  /** A value that already has at most `d` decimals is left as it is. */
  lemma RoundExact(x: real, d: nat, n: int)
    requires Scaled(x, d) == n as real
    ensures Round(x, d) == x
  {
    var p := Pow10(d) as real;
    HalfEvenOfInteger(n);
    assert Round(x, d) == n as real / p;
    DivOfScaled(x, p);
  }

  /** Rounding never reverses the order of two values. */
  lemma {:induction false} RoundMonotone(x: real, y: real, d: nat)
    requires x <= y
    ensures Round(x, d) <= Round(y, d)
  {
    var p := Pow10(d) as real;
    ScaleMonotone(x, y, p);
    HalfEvenMonotone(Scaled(x, d), Scaled(y, d));
    DivMonotone(HalfEven(Scaled(x, d)) as real, HalfEven(Scaled(y, d)) as real, p);
  }

  /** Rounding a non-negative value gives a non-negative value. */
  lemma {:induction false} RoundNonNegative(x: real, d: nat)
    requires x >= 0.0
    ensures Round(x, d) >= 0.0
  {
    RoundMonotone(0.0, x, d);
    RoundExact(0.0, d, 0);
  }

  lemma DivDifference(a: real, b: real, p: real)
    requires p > 0.0
    ensures a / p - (b * p) / p == (a - b * p) / p
  {
  }

  /** The rounded value is within half a unit of the last kept digit. */
  lemma {:induction false} RoundError(x: real, d: nat)
    ensures -0.5 / Pow10(d) as real <= Round(x, d) - x <= 0.5 / Pow10(d) as real
  {
    var p := Pow10(d) as real;
    var n := HalfEven(Scaled(x, d)) as real;
    DivOfScaled(x, p);
    DivDifference(n, x, p);
    assert Round(x, d) - x == (n - x * p) / p;
    DivMonotone(-0.5, n - x * p, p);
    DivMonotone(n - x * p, 0.5, p);
  }
}
