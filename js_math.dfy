/** The few `Math` operations the application uses, over exact reals. */
module JsMath {

  function Max(a: real, b: real): real { if a >= b then a else b }

  function Min(a: real, b: real): real { if a <= b then a else b }

  function MaxInt(a: int, b: int): int { if a >= b then a else b }

  function MinInt(a: int, b: int): int { if a <= b then a else b }

  function Abs(x: real): (r: real)
    ensures r >= 0.0 && (r == x || r == -x)
  {
    if x < 0.0 then -x else x
  }

  /** `Math.round`: the nearest integer, halves rounded up (towards +infinity). */
  function Round(x: real): (r: int)
    ensures x - 0.5 < r as real <= x + 0.5
  {
    (x + 0.5).Floor
  }

  /** `Math.max(lo, Math.min(hi, x))`, the clamping idiom of the application. */
  function Clamp(lo: real, hi: real, x: real): (r: real)
    ensures lo <= hi ==> lo <= r <= hi
    ensures lo <= x <= hi ==> r == x
    ensures hi < lo ==> r == lo
    ensures lo <= hi && x > hi ==> r == hi
    ensures x < lo ==> r == lo
  {
    Max(lo, Min(hi, x))
  }

  /** The same idiom on integers. */
  function ClampInt(lo: int, hi: int, x: int): (r: int)
    ensures lo <= hi ==> lo <= r <= hi
    ensures lo <= x <= hi ==> r == x
    ensures lo <= hi && x > hi ==> r == hi
    ensures x < lo ==> r == lo
  {
    MaxInt(lo, MinInt(hi, x))
  }

  lemma RoundMonotone(x: real, y: real)
    requires x <= y
    ensures Round(x) <= Round(y)
  {
    assert Round(x) as real <= x + 0.5 <= y + 0.5 < Round(y) as real + 1.0;
  }

  lemma RoundOfInteger(n: int)
    ensures Round(n as real) == n
  {
  }

  lemma ClampMonotone(lo: real, hi: real, x: real, y: real)
    requires x <= y
    ensures Clamp(lo, hi, x) <= Clamp(lo, hi, y)
  {
  }
}
