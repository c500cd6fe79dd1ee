/** Machine integers of the Rust code and the Rust semantics of its casts and of
    integer division, written out over Dafny's unbounded integers. */
module Numeric {

  const U32_LIMIT: int := 0x1_0000_0000
  const I64_MIN: int := -0x8000_0000_0000_0000
  const I64_MAX: int := 0x7fff_ffff_ffff_ffff

  type U32 = x: int | 0 <= x < 0x1_0000_0000
  type I64 = x: int | -0x8000_0000_0000_0000 <= x <= 0x7fff_ffff_ffff_ffff

  /** `x as u32` for a wider two's-complement integer: the low 32 bits. */
  function AsU32(x: int): (r: U32)
    ensures 0 <= x < U32_LIMIT ==> r == x
    ensures (x - r) % U32_LIMIT == 0
  {
    x % U32_LIMIT
  }

  /** Rust's `/` on signed integers: the quotient truncated toward zero. */
  function RustDiv(a: int, b: int): (q: int)
    requires b > 0
    ensures a >= 0 ==> 0 <= q * b <= a < q * b + b
    ensures a < 0 ==> q * b - b < a <= q * b <= 0
  {
    if a >= 0 then
      DivBounds(a, b);
      a / b
    else
      var n := -a;
      DivBounds(n, b);
      NegatedProduct(n / b, b);
      -(n / b)
  }

  lemma DivBounds(n: int, b: int)
    requires n >= 0 && b > 0
    ensures 0 <= (n / b) * b <= n < (n / b) * b + b
  {
    assert n == (n / b) * b + n % b;
  }

  lemma NegatedProduct(x: int, b: int)
    ensures (-x) * b == -(x * b)
  {
  }

  /** Rust's `%` on signed integers: the remainder takes the sign of the dividend. */
  function RustRem(a: int, b: int): (r: int)
    requires b > 0
    ensures a == RustDiv(a, b) * b + r
    ensures a >= 0 ==> 0 <= r < b
    ensures a < 0 ==> -b < r <= 0
  {
    a - RustDiv(a, b) * b
  }
}
