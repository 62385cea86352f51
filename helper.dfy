/** Narrowing of amounts to the 64-bit token amounts of the SPL token program
    (helper.rs). */
module Helper {
  import opened Wrappers
  import opened Uint
  import opened Errors

  /** The amount itself when it fits in 64 bits, otherwise a conversion failure. */
  function ToU64(amount: U128): (r: Result<U64, SwapError>)
    ensures amount <= U64_MAX ==> r == Ok(amount)
    ensures amount > U64_MAX ==> r == Err(ConversionFailure)
  {
    if amount <= U64_MAX then Ok(amount) else Err(ConversionFailure)
  }

  /** Widening a 64-bit amount and narrowing it back gives it back. */
  lemma ToU64RoundTrip(v: U64)
    ensures ToU64(v) == Ok(v)
  {
  }

  /** Narrowing succeeds exactly on the 64-bit range and never alters the amount. */
  lemma ToU64NeverTruncates(amount: U128)
    ensures ToU64(amount).Ok? <==> amount <= U64_MAX
    ensures ToU64(amount).Ok? ==> ToU64(amount).value == amount
  {
  }
}
