/**
 * Go's 64-bit signed integers: the value range, two's-complement wrap-around of
 * `+`, `-`, `*` and unary `-`, and the truncating division `/`.
 */
module GoInt {

  const MinInt64: int := -0x8000_0000_0000_0000
  const MaxInt64: int := 0x7fff_ffff_ffff_ffff
  const Modulus: int := 0x1_0000_0000_0000_0000

  type Int64 = x: int | MinInt64 <= x <= MaxInt64

  /** The int64 that Go's arithmetic leaves when the exact result is `x`. */
  function Wrap(x: int): (r: Int64)
    ensures (x - r) % Modulus == 0
    ensures MinInt64 <= x <= MaxInt64 ==> r == x
  {
    (x - MinInt64) % Modulus + MinInt64
  }

  /**
   * Go's `a / b` for a positive divisor: the quotient is rounded toward zero,
   * so the remainder `a - q * b` has the sign of `a` and is smaller than `b`.
   * (Dafny's own `/` rounds toward minus infinity on negative dividends.)
   */
  function Quo(a: Int64, b: Int64): (q: Int64)
    requires b > 0
    ensures a >= 0 ==> 0 <= a - q * b < b
    ensures a < 0 ==> -b < a - q * b <= 0
  {
    if a >= 0 then
      DivRem(a, b);
      a / b
    else
      var n := -(a as int);
      DivRem(n, b);
      NegMul(n / b, b);
      -(n / b)
  }

  /** Floor division of a natural number by a positive one: quotient and remainder bounds. */
  lemma DivRem(n: nat, b: int)
    requires b > 0
    ensures 0 <= n / b <= n
    ensures 0 <= n - (n / b) * b < b
  {
    var q, r := n / b, n % b;
    assert n == q * b + r && 0 <= r < b;
    assert q >= 0 by {
      if q < 0 { MulMonotone(-q, 1, b); }
    }
    MulMonotone(q, 1, b);
  }

  lemma MulMonotone(k: int, a: int, b: int)
    requires k >= 0 && a <= b
    ensures k * a <= k * b
  {
  }

  lemma NegMul(x: int, y: int)
    ensures (-x) * y == -(x * y)
  {
  }
}
