/** The machine integers of the engine, and the operations whose overflow behaviour it chooses. */
module Bounded {

  const I64_MAX: int := 0x7FFF_FFFF_FFFF_FFFF
  const I64_MIN: int := -0x8000_0000_0000_0000
  const U64_MAX: int := 0xFFFF_FFFF_FFFF_FFFF
  const I128_MAX: int := 0x7FFF_FFFF_FFFF_FFFF_FFFF_FFFF_FFFF_FFFF

  type I64 = x: int | I64_MIN <= x <= I64_MAX
  type U64 = x: int | 0 <= x <= U64_MAX
  type U128 = x: int | 0 <= x <= 0xFFFF_FFFF_FFFF_FFFF_FFFF_FFFF_FFFF_FFFF

  datatype Option<+T> = None | Some(value: T)

  function Max(a: int, b: int): int {
    if a < b then b else a
  }

  function Min(a: int, b: int): int {
    if a < b then a else b
  }

  /** Every saturating i64 operation is the exact one followed by this. */
  function ClampI64(x: int): I64 {
    if x < I64_MIN then I64_MIN else if x > I64_MAX then I64_MAX else x
  }

  /** Every saturating u64 operation is the exact one followed by this. */
  function ClampU64(x: int): U64 {
    if x < 0 then 0 else if x > U64_MAX then U64_MAX else x
  }

  /** `Price::checked_mul_qty`: the cost of `qty` units, or nothing when it does not fit an i64. */
  function CheckedCost(price: I64, qty: U64): Option<I64> {
    if qty <= I64_MAX && I64_MIN <= price * qty <= I64_MAX then Some(price * qty) else None
  }

  /** Floor division reaches `n` exactly when the dividend reaches `n` divisors. */
  lemma FloorReaches(a: nat, b: nat, n: nat)
    requires b > 0
    ensures a / b >= n <==> a >= n * b
  {
    if a / b >= n {
      assert (a / b) * b >= n * b;
    } else {
      assert (a / b + 1) * b <= n * b;
    }
  }

  lemma FloorAdvances(a1: nat, a2: nat, b: nat)
    requires a1 <= a2 && b > 0
    ensures a1 / b <= a2 / b
  {
    FloorReaches(a1, b, a1 / b);
    FloorReaches(a2, b, a1 / b);
  }

  /** The last number of its stretch of `b`, by its successor's quotient. */
  lemma LastOfStretch(u: nat, b: nat)
    requires b > 0 && (u + 1) / b == u / b + 1
    ensures u == (u / b + 1) * b - 1
  {
    FloorReaches(u, b, u / b + 1);
    FloorReaches(u + 1, b, u / b + 1);
  }

  lemma MulMonotone(d: nat, a: int, b: int)
    ensures a <= b ==> d * a <= d * b
  {
    assert d * (b - a) == d * b - d * a;
  }
}
