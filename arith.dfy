/** Integer division as the two implementations perform it. Dafny's own `/` and `%`
    are Euclidean; Python's `//` and `%` round toward negative infinity, Rust's `/`
    and `%` on `i32` truncate toward zero. */
module Arith {

  const I32_MIN: int := -0x8000_0000
  const I32_MAX: int := 0x7FFF_FFFF

  /** Values representable in a Rust `i32`. */
  predicate InI32(x: int)
  {
    I32_MIN <= x <= I32_MAX
  }

  function Abs(x: int): nat
  {
    if x < 0 then -x else x
  }

  /** Python's `a // b`: the largest integer q with q * b not past a (on b's side). */
  function FloorDiv(a: int, b: int): (q: int)
    requires b != 0
    ensures b > 0 ==> b * q <= a < b * q + b
    ensures b < 0 ==> b * q >= a > b * q + b
  {
    if b > 0 then a / b else (-a) / (-b)
  }

  /** Python's `a % b`: the remainder of floor division, which takes the divisor's sign. */
  function FloorMod(a: int, b: int): (r: int)
    requires b != 0
    ensures b * FloorDiv(a, b) + r == a
    ensures b > 0 ==> 0 <= r < b
    ensures b < 0 ==> b < r <= 0
  {
    a - b * FloorDiv(a, b)
  }

  /** Rust's `a / b` on integers: the quotient truncated toward zero. */
  function TruncDiv(a: int, b: int): (q: int)
    requires b != 0
    ensures Abs(b * q) <= Abs(a) < Abs(b * q) + Abs(b)
    ensures a >= 0 ==> b * q >= 0
    ensures a <= 0 ==> b * q <= 0
  {
    var m := Abs(a) / Abs(b);
    var q := if (a < 0) == (b < 0) then m else -m;
    TruncProduct(a, b, m, q);
    q
  }

  /** The product b * q of truncating division, as the quotient of the magnitudes gives it. */
  lemma TruncProduct(a: int, b: int, m: int, q: int)
    requires b != 0 && m == Abs(a) / Abs(b)
    requires q == if (a < 0) == (b < 0) then m else -m
    ensures Abs(b * q) <= Abs(a) < Abs(b * q) + Abs(b)
    ensures a >= 0 ==> b * q >= 0
    ensures a <= 0 ==> b * q <= 0
  {
    var p := Abs(b) * m;
    assert 0 <= p <= Abs(a) < p + Abs(b);
    if b < 0 {
      if a < 0 { assert b * q == -p; } else { assert b * q == p; }
    } else {
      if a < 0 { assert b * q == -p; } else { assert b * q == p; }
    }
  }

  /** Rust's `a % b` on integers: the remainder of truncating division, which takes the dividend's sign. */
  function TruncRem(a: int, b: int): (r: int)
    requires b != 0
    ensures b * TruncDiv(a, b) + r == a
    ensures Abs(r) < Abs(b)
    ensures a >= 0 ==> r >= 0
    ensures a <= 0 ==> r <= 0
  {
    a - b * TruncDiv(a, b)
  }

  /** The two conventions part ways on negative operands: -7 // 2 is -4 and -7 % 2 is 1
      in Python, while -7 / 2 is -3 and -7 % 2 is -1 in Rust. */
  lemma NegativeSevenByTwo()
    ensures FloorDiv(-7, 2) == -4 && FloorMod(-7, 2) == 1
    ensures TruncDiv(-7, 2) == -3 && TruncRem(-7, 2) == -1
  {
  }
}
