/** Python's integer conversions and operators where they differ from
    Dafny's: `int(x)` on a float truncates toward zero, `//` floors, and `%`
    takes the sign of the divisor. */
module Numbers {

  /** Python's `int(x)` for a float `x`: drop the fraction, rounding toward
      zero. */
  function Trunc(x: real): (r: int)
    ensures x >= 0.0 ==> r as real <= x < r as real + 1.0
    ensures x < 0.0 ==> r as real - 1.0 < x <= r as real
  {
    if x >= 0.0 then x.Floor else -((-x).Floor)
  }

  lemma TruncMonotone(x: real, y: real)
    requires x <= y
    ensures Trunc(x) <= Trunc(y)
  {
  }

  /** Python's `a // n`: the floor of the quotient. */
  function FloorDiv(a: int, n: int): (q: int)
    requires n != 0
    ensures n > 0 ==> q * n <= a < q * n + n
    ensures n < 0 ==> q * n >= a > q * n + n
  {
    if n > 0 then a / n
    else if a % n == 0 then a / n
    else a / n - 1
  }

  /** Python's `a % n`: the remainder of floor division, which has the sign
      of the divisor. */
  function PyMod(a: int, n: int): (r: int)
    requires n != 0
    ensures a == FloorDiv(a, n) * n + r
    ensures n > 0 ==> 0 <= r < n
    ensures n < 0 ==> n < r <= 0
  {
    if n > 0 || a % n == 0 then a % n else a % n + n
  }

  /** Python's wrap-around on a step back: `-1 % n == n - 1`. */
  lemma PyModMinusOne(n: int)
    requires n > 0
    ensures PyMod(-1, n) == n - 1
  {
  }

  /** Python's `max(lo, min(hi, v))` on integers. */
  function ClampInt(lo: int, hi: int, v: int): (r: int)
    requires lo <= hi
    ensures lo <= r <= hi
    ensures lo <= v <= hi ==> r == v
    ensures v < lo ==> r == lo
    ensures v > hi ==> r == hi
  {
    if v > hi then hi else if v < lo then lo else v
  }

  /** Python's `max(lo, min(hi, v))` on floats. */
  function ClampReal(lo: real, hi: real, v: real): (r: real)
    requires lo <= hi
    ensures lo <= r <= hi
    ensures lo <= v <= hi ==> r == v
    ensures v < lo ==> r == lo
    ensures v > hi ==> r == hi
  {
    if v > hi then hi else if v < lo then lo else v
  }
}
