/**
 * Two's-complement 32-bit arithmetic on unbounded integers.
 *
 * The register file of the VM holds `int32_t` values. C++ leaves signed
 * overflow undefined; this model follows the wrap-around every mainstream
 * compiler produces, and writes it out explicitly with `Wrap32`. The bitwise
 * operators work on the unsigned (two's-complement) view of a value, defined
 * bit by bit, so no bit-vector conversions are needed.
 */
module Int32 {

  const Two31: int := 0x8000_0000
  const Two32: int := 0x1_0000_0000

  /** A value of C++ type `int32_t`. */
  type i32 = x: int | -0x8000_0000 <= x < 0x8000_0000

  predicate InRange(x: int) {
    -Two31 <= x < Two31
  }

  /** The `int32_t` that holds `x` after truncation to 32 bits. */
  function Wrap32(x: int): (r: i32)
    ensures (x - r) % Two32 == 0
    ensures InRange(x) ==> r == x
  {
    (x + Two31) % Two32 - Two31
  }

  /** The `uint32_t` view of an `int32_t`: what `(uint32_t)a` yields. */
  function Unsigned(a: i32): (u: nat)
    ensures u < Two32
    ensures a >= 0 ==> u == a
    ensures a < 0 ==> u == a + Two32
  {
    if a < 0 then a + Two32 else a
  }

  /** Converting a `uint32_t` back to `int32_t`. */
  function Signed(u: nat): (r: i32)
    requires u < Two32
    ensures Unsigned(r) == u
    ensures u < Two31 ==> r == u
  {
    if u < Two31 then u else u - Two32
  }

  function Min(a: int, b: int): int {
    if a <= b then a else b
  }

  function Max(a: int, b: int): int {
    if a >= b then a else b
  }

  function Pow2(n: nat): (r: nat)
    ensures r >= 1
  {
    if n == 0 then 1 else 2 * Pow2(n - 1)
  }

  lemma {:induction false} Pow2Monotone(m: nat, n: nat)
    requires m <= n
    ensures Pow2(m) <= Pow2(n)
  {
    if m < n {
      Pow2Monotone(m, n - 1);
    }
  }

  lemma {:induction false} Pow2Add(m: nat, n: nat)
    ensures Pow2(m + n) == Pow2(m) * Pow2(n)
  {
    if m > 0 {
      Pow2Add(m - 1, n);
    }
  }

  lemma Pow2Of32()
    ensures Pow2(32) == Two32
  {
    assert Pow2(2) == 4;
    Pow2Add(2, 2);
    Pow2Add(4, 4);
    Pow2Add(8, 8);
    Pow2Add(16, 16);
  }

  datatype BitOp = BitAnd | BitOr | BitXor

  /** One output bit of a bitwise operator, from two input bits. */
  function BitOf(op: BitOp, x: nat, y: nat): (b: nat)
    requires x <= 1 && y <= 1
    ensures b <= 1
  {
    match op
    case BitAnd => x * y
    case BitOr => if x + y > 0 then 1 else 0
    case BitXor => (x + y) % 2
  }

  /** The low `n` bits of `x op y`, bit by bit from the least significant. */
  function Bitwise(op: BitOp, x: nat, y: nat, n: nat): (r: nat)
    ensures r < Pow2(n)
  {
    if n == 0 then 0
    else 2 * Bitwise(op, x / 2, y / 2, n - 1) + BitOf(op, x % 2, y % 2)
  }

  /** `a + b` on `int32_t`: exact unless it overflows, then off by 2^32. */
  function AddWrap(a: i32, b: i32): (r: i32)
    ensures InRange(a + b) ==> r == a + b
    ensures a + b >= Two31 ==> r == a + b - Two32
    ensures a + b < -Two31 ==> r == a + b + Two32
  {
    Wrap32(a + b)
  }

  /** `a - b` on `int32_t`: exact unless it overflows, then off by 2^32. */
  function SubWrap(a: i32, b: i32): (r: i32)
    ensures InRange(a - b) ==> r == a - b
    ensures a - b >= Two31 ==> r == a - b - Two32
    ensures a - b < -Two31 ==> r == a - b + Two32
  {
    Wrap32(a - b)
  }

  /** `a * b` on `int32_t`: the product modulo 2^32. */
  function MulWrap(a: i32, b: i32): (r: i32)
    ensures (a * b - r) % Two32 == 0
    ensures InRange(a * b) ==> r == a * b
  {
    Wrap32(a * b)
  }

  /** The 32-bit result of a bitwise operator on the unsigned views. */
  function Bitwise32(op: BitOp, a: i32, b: i32): (r: i32)
    ensures Unsigned(r) == Bitwise(op, Unsigned(a), Unsigned(b), 32)
  {
    Pow2Of32();
    Signed(Bitwise(op, Unsigned(a), Unsigned(b), 32))
  }

  /**
   * `a << s` on `int32_t` for a shift amount in 0..31, with the C++20
   * meaning: the product with 2^s, modulo 2^32.
   */
  function ShiftLeft(a: i32, s: nat): (r: i32)
    requires s < 32
    ensures (a * Pow2(s) - r) % Two32 == 0
    ensures InRange(a * Pow2(s)) ==> r == a * Pow2(s)
  {
    Wrap32(a * Pow2(s))
  }

  /** `(uint32_t)a >> s` stored back into an `int32_t`, for `s` in 0..31. */
  function ShiftRightLogical(a: i32, s: nat): (r: i32)
    requires s < 32
    ensures Unsigned(r) == Unsigned(a) / Pow2(s)
  {
    Signed(Quotient(Unsigned(a), Pow2(s)))
  }

  /** `u / d` on naturals, which never exceeds `u`. */
  function Quotient(u: nat, d: nat): (q: nat)
    requires d >= 1
    ensures q <= u
    ensures q == u / d
  {
    DivAtMost(u, d);
    u / d
  }

  // ---------------------------------------------------------------------
  // Properties of the operators

  /** A logical right shift by at least one clears the sign bit. */
  lemma ShiftRightLogicalNonNegative(a: i32, s: nat)
    requires 1 <= s < 32
    ensures ShiftRightLogical(a, s) >= 0
    ensures a >= 0 ==> ShiftRightLogical(a, s) == a / Pow2(s)
  {
    Pow2Monotone(1, s);
    QuotientBound(Unsigned(a), Pow2(s));
  }

  lemma QuotientBound(u: nat, d: nat)
    requires u < Two32 && d >= 2
    ensures u / d < Two31
  {
    var q := u / d;
    DivMul(u, d);
    MulMonotone(q, 2, d);
  }

  lemma DivMul(u: nat, d: nat)
    requires d >= 1
    ensures (u / d) * d <= u
  {
  }

  lemma MulMonotone(q: nat, d: nat, e: nat)
    requires d <= e
    ensures q * d <= q * e
  {
  }

  lemma DivAtMost(u: nat, d: nat)
    requires d >= 1
    ensures u / d <= u
  {
    DivMul(u, d);
    MulMonotone(u / d, 1, d);
  }

  /** Or with zero keeps the other operand's bits. */
  lemma {:induction false} BitwiseOrZero(y: nat, n: nat)
    requires y < Pow2(n)
    ensures Bitwise(BitOr, 0, y, n) == y
  {
    if n > 0 {
      BitwiseOrZero(y / 2, n - 1);
    }
  }

  /** A value xor itself has no bits set. */
  lemma {:induction false} BitwiseXorSelf(x: nat, n: nat)
    ensures Bitwise(BitXor, x, x, n) == 0
  {
    if n > 0 {
      BitwiseXorSelf(x / 2, n - 1);
    }
  }

  /** A value and itself keeps all its bits. */
  lemma {:induction false} BitwiseAndSelf(x: nat, n: nat)
    requires x < Pow2(n)
    ensures Bitwise(BitAnd, x, x, n) == x
  {
    if n > 0 {
      BitwiseAndSelf(x / 2, n - 1);
    }
  }

  lemma OrZero(b: i32)
    ensures Bitwise32(BitOr, 0, b) == b
  {
    Pow2Of32();
    BitwiseOrZero(Unsigned(b), 32);
  }

  lemma XorSelf(a: i32)
    ensures Bitwise32(BitXor, a, a) == 0
  {
    BitwiseXorSelf(Unsigned(a), 32);
  }

  lemma AndSelf(a: i32)
    ensures Bitwise32(BitAnd, a, a) == a
  {
    Pow2Of32();
    BitwiseAndSelf(Unsigned(a), 32);
  }
}
