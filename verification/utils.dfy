/** Numeric helpers the core relies on: `sumOfNSquares` from src/utils.ts and the two
    p5 helpers `constrain` and `map`, all over exact reals and integers. */
module Utils {

  datatype Option<T> = None | Some(value: T)
  {
    function GetOr(default: T): T
    {
      if Some? then value else default
    }
  }

  /** sumOfNSquares(n) = 1^2 + 2^2 + ... + n^2. */
  function SumOfNSquares(n: nat): (s: nat)
    ensures s >= n * n
  {
    if n == 0 then 0 else SumOfNSquares(n - 1) + n * n
  }

  function Abs(x: real): (r: real)
    ensures r >= 0.0 && (r == x || r == -x)
  {
    if x < 0.0 then -x else x
  }

  /** p5 `constrain(v, lo, hi)`: v clamped into [lo, hi]. */
  function Clamp(v: real, lo: real, hi: real): (r: real)
    requires lo <= hi
    ensures lo <= r <= hi
    ensures lo <= v <= hi ==> r == v
    ensures v < lo ==> r == lo
    ensures v > hi ==> r == hi
  {
    if v < lo then lo else if v > hi then hi else v
  }

  /** p5 `map(v, a, b, c, d)`: the affine map sending a to c and b to d. */
  function Remap(v: real, a: real, b: real, c: real, d: real): (r: real)
    requires a != b
    ensures v == a ==> r == c
    ensures v == b ==> r == d
    ensures c == d ==> r == c
  {
    (v - a) / (b - a) * (d - c) + c
  }
}
