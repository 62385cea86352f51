/** The shared types of the curve calculators and the default behaviour of the
    calculator interface (curves/calculator.rs). */
module Calculator {
  import opened Wrappers
  import opened Uint
  import opened Errors
  import opened PoolConstants

  /** Which reserve is sold into the pool and which is bought out of it. */
  datatype TradeDirection =
    | AtoB  // input token A, output token B
    | BtoA  // input token B, output token A

  function Opposite(direction: TradeDirection): (r: TradeDirection)
    ensures r != direction
  {
    match direction
    case AtoB => BtoA
    case BtoA => AtoB
  }

  lemma OppositeIsInvolution(direction: TradeDirection)
    ensures Opposite(Opposite(direction)) == direction
  {
  }

  /** Which way an integer division is rounded. */
  datatype RoundDirection = Floor | Ceiling

  datatype TradingTokenResult = TradingTokenResult(tokenAAmount: U128, tokenBAmount: U128)

  datatype SwapWithoutFeesResult = SwapWithoutFeesResult(sourceAmountSwapped: U128, destinationAmountSwapped: U128)

  /** Turns a zero amount into a calculation failure. */
  function MapZeroToNone(x: U128): (r: Option<U128>)
    ensures r.None? <==> x == 0
    ensures r.Some? ==> r.value == x
  {
    if x == 0 then None else Some(x)
  }

  /** Default supply check at pool creation: both reserves must be non-zero. */
  function DefaultValidateSupply(tokenAAmount: U64, tokenBAmount: U64): (r: Result<(), SwapError>)
    ensures r.Ok? <==> tokenAAmount != 0 && tokenBAmount != 0
    ensures r.Err? ==> r.error == EmptySupply
  {
    if tokenAAmount == 0 then Err(EmptySupply)
    else if tokenBAmount == 0 then Err(EmptySupply)
    else Ok(())
  }

  /** By default a curve accepts deposits after initialisation. */
  function DefaultAllowsDeposits(): (r: bool)
    ensures r
  {
    true
  }

  /** By default a new pool starts with the Balancer-style fixed supply. */
  function DefaultNewPoolSupply(): (r: U128)
    ensures r == INITIAL_SWAP_POOL_AMOUNT
  {
    INITIAL_SWAP_POOL_AMOUNT
  }

  /** A floor quotient: the largest `q` with `q * d` not above `n`. */
  predicate IsFloorQuotient(q: int, n: int, d: int) {
    q * d <= n < (q + 1) * d
  }
}
