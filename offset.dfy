/** The offset curve (curves/offset.rs): the constant-product formulas with a
    fixed, virtual amount added to the token B reserve. The constant-product
    helpers themselves are parameters. */
module Offset {
  import opened Wrappers
  import opened Uint
  import opened Errors
  import opened Calculator
  import opened ConstantProduct

  /** `tokenBOffset`: virtual token B liquidity counted on top of the reserve. */
  datatype OffsetCurve = OffsetCurve(tokenBOffset: U64)

  /** The token B reserve the constant-product formulas see, if it fits in u128. */
  function ShiftedReserve(curve: OffsetCurve, swapTokenBAmount: U128): (r: Option<U128>)
    ensures r.Some? <==> swapTokenBAmount + curve.tokenBOffset <= U128_MAX
    ensures r.Some? ==> r.value == swapTokenBAmount + curve.tokenBOffset
  {
    CheckedAdd(swapTokenBAmount, curve.tokenBOffset)
  }

  /** A constant-product swap in which whichever side holds token B carries the
      offset. */
  function SwapWithoutFees(curve: OffsetCurve, helpers: Helpers, sourceAmount: U128, swapSourceAmount: U128,
                           swapDestinationAmount: U128, tradeDirection: TradeDirection): (r: Option<SwapWithoutFeesResult>)
    ensures tradeDirection == AtoB ==>
              r == if swapDestinationAmount + curve.tokenBOffset <= U128_MAX
                   then helpers.swap(sourceAmount, swapSourceAmount, swapDestinationAmount + curve.tokenBOffset)
                   else None
    ensures tradeDirection == BtoA ==>
              r == if swapSourceAmount + curve.tokenBOffset <= U128_MAX
                   then helpers.swap(sourceAmount, swapSourceAmount + curve.tokenBOffset, swapDestinationAmount)
                   else None
  {
    var source :- match tradeDirection
      case AtoB => Some(swapSourceAmount)
      case BtoA => ShiftedReserve(curve, swapSourceAmount);
    var destination :- match tradeDirection
      case AtoB => ShiftedReserve(curve, swapDestinationAmount)
      case BtoA => Some(swapDestinationAmount);
    helpers.swap(sourceAmount, source, destination)
  }

  /** Pool tokens redeemed against the offset-shifted reserves. */
  function PoolTokensToTradingTokens(curve: OffsetCurve, helpers: Helpers, poolTokens: U128, poolTokenSupply: U128,
                                     swapTokenAAmount: U128, swapTokenBAmount: U128,
                                     roundDirection: RoundDirection): (r: Option<TradingTokenResult>)
    ensures r == if swapTokenBAmount + curve.tokenBOffset <= U128_MAX
                 then helpers.poolTokensToTradingTokens(poolTokens, poolTokenSupply, swapTokenAAmount,
                                                        swapTokenBAmount + curve.tokenBOffset, roundDirection)
                 else None
  {
    var swapTokenB :- ShiftedReserve(curve, swapTokenBAmount);
    helpers.poolTokensToTradingTokens(poolTokens, poolTokenSupply, swapTokenAAmount, swapTokenB, roundDirection)
  }

  /** A single-sided deposit against the shifted reserves, always rounded down. */
  function DepositSingleTokenType(curve: OffsetCurve, helpers: Helpers, sourceAmount: U128, swapTokenAAmount: U128,
                                  swapTokenBAmount: U128, poolSupply: U128, tradeDirection: TradeDirection): (r: Option<U128>)
    ensures r == if swapTokenBAmount + curve.tokenBOffset <= U128_MAX
                 then helpers.depositSingleTokenType(sourceAmount, swapTokenAAmount, swapTokenBAmount + curve.tokenBOffset,
                                                     poolSupply, tradeDirection, Floor)
                 else None
  {
    var swapTokenB :- ShiftedReserve(curve, swapTokenBAmount);
    helpers.depositSingleTokenType(sourceAmount, swapTokenAAmount, swapTokenB, poolSupply, tradeDirection, Floor)
  }

  /** A single-sided withdrawal against the shifted reserves, with the caller's rounding. */
  function WithdrawSingleTokenTypeExactOut(curve: OffsetCurve, helpers: Helpers, sourceAmount: U128, swapTokenAAmount: U128,
                                           swapTokenBAmount: U128, poolSupply: U128, tradeDirection: TradeDirection,
                                           roundDirection: RoundDirection): (r: Option<U128>)
    ensures r == if swapTokenBAmount + curve.tokenBOffset <= U128_MAX
                 then helpers.withdrawSingleTokenTypeExactOut(sourceAmount, swapTokenAAmount, swapTokenBAmount + curve.tokenBOffset,
                                                              poolSupply, tradeDirection, roundDirection)
                 else None
  {
    var swapTokenB :- ShiftedReserve(curve, swapTokenBAmount);
    helpers.withdrawSingleTokenTypeExactOut(sourceAmount, swapTokenAAmount, swapTokenB, poolSupply, tradeDirection, roundDirection)
  }

  /** A zero offset is refused: it would be a plain constant-product curve. */
  function Validate(curve: OffsetCurve): (r: Result<(), SwapError>)
    ensures r.Ok? <==> curve.tokenBOffset != 0
    ensures r.Err? ==> r.error == InvalidCurve
  {
    if curve.tokenBOffset == 0 then Err(InvalidCurve) else Ok(())
  }

  /** Only the A reserve must be non-empty at creation: the offset stands in
      for token B liquidity. */
  function ValidateSupply(curve: OffsetCurve, tokenAAmount: U64, tokenBAmount: U64): (r: Result<(), SwapError>)
    ensures r.Ok? <==> tokenAAmount != 0
    ensures r.Err? ==> r.error == EmptySupply
  {
    if tokenAAmount == 0 then Err(EmptySupply) else Ok(())
  }

  /** Deposits after creation are refused: a depositor could otherwise claim a
      share of the virtual liquidity. */
  function AllowsDeposits(curve: OffsetCurve): (r: bool)
    ensures !r
  {
    false
  }

  /** The constant-product normalized value of the shifted reserves. */
  function NormalizedValue(curve: OffsetCurve, helpers: Helpers, swapTokenAAmount: U128, swapTokenBAmount: U128): (r: Option<real>)
    ensures r == if swapTokenBAmount + curve.tokenBOffset <= U128_MAX
                 then helpers.normalizedValue(swapTokenAAmount, swapTokenBAmount + curve.tokenBOffset)
                 else None
  {
    var swapTokenB :- ShiftedReserve(curve, swapTokenBAmount);
    helpers.normalizedValue(swapTokenAAmount, swapTokenB)
  }

  /** The offset is indistinguishable from real token B liquidity: moving `k`
      of it into the reserve changes no result of the curve. */
  lemma OffsetActsAsReserve(curve: OffsetCurve, helpers: Helpers, k: nat, amount: U128, poolSupply: U128,
                            swapTokenAAmount: U128, swapTokenBAmount: U128,
                            tradeDirection: TradeDirection, roundDirection: RoundDirection)
    requires k <= curve.tokenBOffset && swapTokenBAmount + k <= U128_MAX
    ensures var moved := OffsetCurve(curve.tokenBOffset - k);
            var reserve: U128 := swapTokenBAmount + k;
            && SwapWithoutFees(curve, helpers, amount, swapTokenAAmount, swapTokenBAmount, AtoB)
               == SwapWithoutFees(moved, helpers, amount, swapTokenAAmount, reserve, AtoB)
            && SwapWithoutFees(curve, helpers, amount, swapTokenBAmount, swapTokenAAmount, BtoA)
               == SwapWithoutFees(moved, helpers, amount, reserve, swapTokenAAmount, BtoA)
            && PoolTokensToTradingTokens(curve, helpers, amount, poolSupply, swapTokenAAmount, swapTokenBAmount, roundDirection)
               == PoolTokensToTradingTokens(moved, helpers, amount, poolSupply, swapTokenAAmount, reserve, roundDirection)
            && DepositSingleTokenType(curve, helpers, amount, swapTokenAAmount, swapTokenBAmount, poolSupply, tradeDirection)
               == DepositSingleTokenType(moved, helpers, amount, swapTokenAAmount, reserve, poolSupply, tradeDirection)
            && WithdrawSingleTokenTypeExactOut(curve, helpers, amount, swapTokenAAmount, swapTokenBAmount, poolSupply,
                                               tradeDirection, roundDirection)
               == WithdrawSingleTokenTypeExactOut(moved, helpers, amount, swapTokenAAmount, reserve, poolSupply,
                                                  tradeDirection, roundDirection)
            && NormalizedValue(curve, helpers, swapTokenAAmount, swapTokenBAmount)
               == NormalizedValue(moved, helpers, swapTokenAAmount, reserve)
  {
  }

  /** When the token B reserve plus the offset overflows u128, every
      calculation on that reserve fails. */
  lemma OverflowingReserveFails(curve: OffsetCurve, helpers: Helpers, amount: U128, poolSupply: U128,
                                swapTokenAAmount: U128, swapTokenBAmount: U128,
                                tradeDirection: TradeDirection, roundDirection: RoundDirection)
    requires swapTokenBAmount + curve.tokenBOffset > U128_MAX
    ensures SwapWithoutFees(curve, helpers, amount, swapTokenAAmount, swapTokenBAmount, AtoB).None?
    ensures SwapWithoutFees(curve, helpers, amount, swapTokenBAmount, swapTokenAAmount, BtoA).None?
    ensures PoolTokensToTradingTokens(curve, helpers, amount, poolSupply, swapTokenAAmount, swapTokenBAmount, roundDirection).None?
    ensures DepositSingleTokenType(curve, helpers, amount, swapTokenAAmount, swapTokenBAmount, poolSupply, tradeDirection).None?
    ensures WithdrawSingleTokenTypeExactOut(curve, helpers, amount, swapTokenAAmount, swapTokenBAmount, poolSupply,
                                            tradeDirection, roundDirection).None?
    ensures NormalizedValue(curve, helpers, swapTokenAAmount, swapTokenBAmount).None?
  {
  }
}
