/** Rust's unsigned integer widths and the checked operations the curve code
    chains with `?`. Every operation yields `None` exactly where Rust's
    `checked_*` does. */
module Uint {
  import opened Wrappers
  import opened Arith

  const U64_MAX: nat := 0xFFFF_FFFF_FFFF_FFFF
  const U128_MAX: nat := 0xFFFF_FFFF_FFFF_FFFF_FFFF_FFFF_FFFF_FFFF
  const U256_MAX: nat := 0xFFFF_FFFF_FFFF_FFFF_FFFF_FFFF_FFFF_FFFF_FFFF_FFFF_FFFF_FFFF_FFFF_FFFF_FFFF_FFFF

  type U64 = x: nat | x <= U64_MAX
  type U128 = x: nat | x <= U128_MAX
  type U256 = x: nat | x <= U256_MAX

  function CheckedAdd(x: U128, y: U128): (r: Option<U128>)
    ensures r.Some? <==> x + y <= U128_MAX
    ensures r.Some? ==> r.value == x + y
  {
    if x + y <= U128_MAX then Some(x + y) else None
  }

  function CheckedSub(x: U128, y: U128): (r: Option<U128>)
    ensures r.Some? <==> y <= x
    ensures r.Some? ==> r.value == x - y
  {
    if y <= x then Some(x - y) else None
  }

  function CheckedMul(x: U128, y: U128): (r: Option<U128>)
    ensures r.Some? <==> x * y <= U128_MAX
    ensures r.Some? ==> r.value == x * y
  {
    if x * y <= U128_MAX then Some(x * y) else None
  }

  function CheckedDiv(x: U128, y: U128): (r: Option<U128>)
    ensures r.Some? <==> y != 0
    ensures r.Some? ==> r.value == x / y
  {
    if y == 0 then None else Some(x / y)
  }

  function CheckedRem(x: U128, y: U128): (r: Option<U128>)
    ensures r.Some? <==> y != 0
    ensures r.Some? ==> r.value == x % y
  {
    if y == 0 then None else Some(x % y)
  }

  function SaturatingSub(x: U128, y: U128): (r: U128)
    ensures y <= x ==> r == x - y
    ensures x < y ==> r == 0
  {
    if y <= x then x - y else 0
  }

  function CheckedAdd256(x: U256, y: U256): (r: Option<U256>)
    ensures r.Some? <==> x + y <= U256_MAX
    ensures r.Some? ==> r.value == x + y
  {
    if x + y <= U256_MAX then Some(x + y) else None
  }

  function CheckedMul256(x: U256, y: U256): (r: Option<U256>)
    ensures r.Some? <==> x * y <= U256_MAX
    ensures r.Some? ==> r.value == x * y
  {
    if x * y <= U256_MAX then Some(x * y) else None
  }

  function CheckedDiv256(x: U256, y: U256): (r: Option<U256>)
    ensures r.Some? <==> y != 0
    ensures r.Some? ==> r.value == x / y
  {
    if y == 0 then None else Some(x / y)
  }

  /** `U256::as_u128` panics when the value does not fit; the panic aborts the
      calculation, so it is a failure here. */
  function AsU128(x: U256): (r: Option<U128>)
    ensures r.Some? <==> x <= U128_MAX
    ensures r.Some? ==> r.value == x
  {
    if x <= U128_MAX then Some(x) else None
  }

  /** The quotient of a floor division is characterised by the two bounds
      around the dividend. */
  lemma FloorDivBounds(x: nat, d: nat)
    requires d > 0
    ensures (x / d) * d <= x < (x / d + 1) * d
  {
  }

  /** A floor quotient by a positive divisor is at most the dividend. */
  lemma DivAtMost(x: nat, d: nat)
    requires d > 0
    ensures x / d <= x
  {
    var q := x / d;
    FloorDivBounds(x, d);
    MulLeMonotone(1, d, q);
  }

  /** Any multiple below the dividend is at most the floor quotient. */
  lemma BelowFloorDiv(q: nat, x: nat, d: nat)
    requires d > 0 && q * d <= x
    ensures q <= x / d
  {
    FloorDivBounds(x, d);
  }
}
