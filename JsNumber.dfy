/**
 * JavaScript's `Math` functions on numbers, over exact reals: `Math.min`,
 * `Math.max`, `Math.round` (nearest integer, halves upwards), `Math.ceil`,
 * and rounding to cents with `Math.round(x * 100) / 100`.
 */
module JsNumber {

  function Min(a: real, b: real): real { if a <= b then a else b }
  function Max(a: real, b: real): real { if a >= b then a else b }
  function MinInt(a: int, b: int): int { if a <= b then a else b }

  /** `Math.round(x)`. */
  function Round(x: real): (r: int)
    ensures x - 0.5 < r as real <= x + 0.5
  {
    (x + 0.5).Floor
  }

  /** `Math.ceil(x)`. */
  function Ceil(x: real): (r: int)
    ensures x <= r as real < x + 1.0
  {
    -((-x).Floor)
  }

  /** `Math.round` keeps the order of its arguments. */
  lemma RoundMonotone(x: real, y: real)
    requires x <= y
    ensures Round(x) <= Round(y)
  {
  }

  /** `Math.round` leaves whole numbers alone. */
  lemma RoundOfInt(n: int)
    ensures Round(n as real) == n
  {
    assert (n as real + 0.5).Floor == n;
  }

  /** `Math.round(x * 100) / 100`. */
  function RoundCents(x: real): real
  {
    Round(x * 100.0) as real / 100.0
  }

  /** Rounding to cents moves a number by at most half a cent. */
  lemma RoundCentsClose(x: real)
    ensures -0.005 < RoundCents(x) - x <= 0.005
  {
    var y := x * 100.0 + 0.5;
    assert y.Floor as real <= y < y.Floor as real + 1.0;
  }

  /** An amount that is already a whole number of cents is left as it is. */
  lemma RoundCentsOfCents(n: int)
    ensures RoundCents(n as real / 100.0) == n as real / 100.0
  {
    assert (n as real / 100.0) * 100.0 == n as real;
    RoundOfInt(n);
  }
}
