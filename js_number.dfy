// The few JavaScript number operations the model needs, on mathematical
// integers and reals (no NaN, no infinities, no floating-point rounding).
module JsNumber {

  function Min(a: int, b: int): (r: int)
    ensures r <= a && r <= b && (r == a || r == b)
  {
    if a <= b then a else b
  }

  function Max(a: int, b: int): (r: int)
    ensures r >= a && r >= b && (r == a || r == b)
  {
    if a >= b then a else b
  }

  /** `Math.min(hi, Math.max(lo, v))`. */
  function Clamp(v: int, lo: int, hi: int): int
  {
    Min(hi, Max(lo, v))
  }

  /** A clamp into a non-empty range lands in it, and leaves values already inside unchanged. */
  lemma ClampSpec(v: int, lo: int, hi: int)
    requires lo <= hi
    ensures lo <= Clamp(v, lo, hi) <= hi
    ensures lo <= v <= hi ==> Clamp(v, lo, hi) == v
    ensures v < lo ==> Clamp(v, lo, hi) == lo
    ensures v > hi ==> Clamp(v, lo, hi) == hi
  {
  }

  /** `Math.round`: halves round up, towards +infinity. */
  function Round(x: real): int
  {
    (x + 0.5).Floor
  }

  /** Rounding lands within one half of its argument, and whole numbers are kept. */
  lemma RoundSpec(x: real, n: int)
    ensures x - 0.5 < Round(x) as real <= x + 0.5
    ensures Round(n as real) == n
  {
  }

  /** Rounding is monotone. */
  lemma RoundMonotone(x: real, y: real)
    requires x <= y
    ensures Round(x) <= Round(y)
  {
  }
}
