/** The constant-product curve (curves/constant_product.rs) is not part of this
    model. What the other curves and the dispatch need of it enters as
    parameters: the free helper functions the offset curve delegates to, and
    the trait methods of the ConstantProductCurve calculator. */
module ConstantProduct {
  import opened Wrappers
  import opened Uint
  import opened Errors
  import opened Calculator

  /** The helpers `swap`, `pool_tokens_to_trading_tokens`,
      `deposit_single_token_type`, `withdraw_single_token_type_exact_out` and
      `normalized_value`, with the argument order of their Rust signatures.
      A normalized value is a fixed-point number, represented by the real it
      stands for. */
  datatype Helpers = Helpers(
    swap: (U128, U128, U128) -> Option<SwapWithoutFeesResult>,
    poolTokensToTradingTokens: (U128, U128, U128, U128, RoundDirection) -> Option<TradingTokenResult>,
    depositSingleTokenType: (U128, U128, U128, U128, TradeDirection, RoundDirection) -> Option<U128>,
    withdrawSingleTokenTypeExactOut: (U128, U128, U128, U128, TradeDirection, RoundDirection) -> Option<U128>,
    normalizedValue: (U128, U128) -> Option<real>)

  /** The calculator interface as ConstantProductCurve implements it. */
  datatype ProductCurve = ProductCurve(
    swapWithoutFees: (U128, U128, U128, TradeDirection) -> Option<SwapWithoutFeesResult>,
    poolTokensToTradingTokens: (U128, U128, U128, U128, RoundDirection) -> Option<TradingTokenResult>,
    depositSingleTokenType: (U128, U128, U128, U128, TradeDirection) -> Option<U128>,
    withdrawSingleTokenTypeExactOut: (U128, U128, U128, U128, TradeDirection, RoundDirection) -> Option<U128>,
    validate: Result<(), SwapError>,
    validateSupply: (U64, U64) -> Result<(), SwapError>,
    allowsDeposits: bool,
    newPoolSupply: U128,
    normalizedValue: (U128, U128) -> Option<real>)
}
