/** The `CheckedCeilDiv` trait of the spl_math library, for u128 and for its
    256-bit integer. That library is not part of this model: its ceiling
    division enters as a parameter, of which only the quotient (the first
    component of the pair it returns) is used. */
module SplMath {
  import opened Wrappers
  import opened Uint

  datatype CeilDiv = CeilDiv(
    onU128: (U128, U128) -> Option<U128>,
    onU256: (U256, U256) -> Option<U256>)
}
