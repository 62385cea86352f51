/** The curve a pool is configured with (curves/base.rs) and the calculator
    interface of curves/calculator.rs dispatched over the three calculators. */
module Base {
  import opened Wrappers
  import opened Uint
  import opened Errors
  import opened Calculator
  import opened PoolConstants
  import CP = ConstantPrice
  import Off = Offset
  import Product = ConstantProduct
  import SplMath

  /** The curve kinds and their parameters. */
  datatype CurveType =
    | ConstantProduct
    | ConstantPrice(tokenBPrice: U64)
    | Offset(tokenBOffset: U64)

  datatype SwapCurve = SwapCurve(curveType: CurveType)

  /** The calculator object a swap curve hands out. */
  datatype CurveCalculator =
    | ConstantProductCurve
    | ConstantPriceCurve(priceCurve: CP.ConstantPriceCurve)
    | OffsetCurve(offsetCurve: Off.OffsetCurve)

  /** The code this model takes as parameters: the constant-product curve and
      helpers, and the library's ceiling division. */
  datatype Externals = Externals(product: Product.ProductCurve, helpers: Product.Helpers, ceilDiv: SplMath.CeilDiv)

  /** The calculator of a swap curve carries the curve's kind and parameter. */
  function CalculatorFor(swapCurve: SwapCurve): (c: CurveCalculator)
    ensures c.ConstantProductCurve? <==> swapCurve.curveType.ConstantProduct?
    ensures c.ConstantPriceCurve? <==> swapCurve.curveType.ConstantPrice?
    ensures c.OffsetCurve? <==> swapCurve.curveType.Offset?
    ensures c.ConstantPriceCurve? ==> c.priceCurve.tokenBPrice == swapCurve.curveType.tokenBPrice
    ensures c.OffsetCurve? ==> c.offsetCurve.tokenBOffset == swapCurve.curveType.tokenBOffset
  {
    match swapCurve.curveType
    case ConstantProduct => ConstantProductCurve
    case ConstantPrice(tokenBPrice) => ConstantPriceCurve(CP.ConstantPriceCurve(tokenBPrice))
    case Offset(tokenBOffset) => OffsetCurve(Off.OffsetCurve(tokenBOffset))
  }

  /** The curve type a calculator was made from. */
  function CurveTypeOf(c: CurveCalculator): CurveType {
    match c
    case ConstantProductCurve => ConstantProduct
    case ConstantPriceCurve(priceCurve) => ConstantPrice(priceCurve.tokenBPrice)
    case OffsetCurve(offsetCurve) => Offset(offsetCurve.tokenBOffset)
  }

  /** No information is lost in building the calculator. */
  lemma CalculatorForRoundTrip(swapCurve: SwapCurve)
    ensures CurveTypeOf(CalculatorFor(swapCurve)) == swapCurve.curveType
  {
  }

  /** Every calculator is the calculator of some swap curve. */
  lemma CalculatorForCoversAll(c: CurveCalculator)
    ensures CalculatorFor(SwapCurve(CurveTypeOf(c))) == c
  {
  }

  /** A swap through the calculator. The constant-price curve never takes more
      than offered and never swaps nothing; the offset curve fails when the
      token B reserve plus the offset overflows. */
  function SwapWithoutFees(ext: Externals, c: CurveCalculator, sourceAmount: U128, swapSourceAmount: U128,
                           swapDestinationAmount: U128, tradeDirection: TradeDirection): (r: Option<SwapWithoutFeesResult>)
    ensures c.ConstantProductCurve? ==>
              r == ext.product.swapWithoutFees(sourceAmount, swapSourceAmount, swapDestinationAmount, tradeDirection)
    ensures c.ConstantPriceCurve? ==>
              r == CP.SwapWithoutFees(c.priceCurve, sourceAmount, swapSourceAmount, swapDestinationAmount, tradeDirection)
    ensures c.OffsetCurve? ==>
              r == Off.SwapWithoutFees(c.offsetCurve, ext.helpers, sourceAmount, swapSourceAmount, swapDestinationAmount,
                                       tradeDirection)
    ensures c.ConstantPriceCurve? && r.Some? ==>
              0 < r.value.sourceAmountSwapped <= sourceAmount && 0 < r.value.destinationAmountSwapped
    ensures c.OffsetCurve? && tradeDirection == AtoB && swapDestinationAmount + c.offsetCurve.tokenBOffset > U128_MAX ==> r.None?
    ensures c.OffsetCurve? && tradeDirection == BtoA && swapSourceAmount + c.offsetCurve.tokenBOffset > U128_MAX ==> r.None?
  {
    match c
    case ConstantProductCurve => ext.product.swapWithoutFees(sourceAmount, swapSourceAmount, swapDestinationAmount, tradeDirection)
    case ConstantPriceCurve(curve) => CP.SwapWithoutFees(curve, sourceAmount, swapSourceAmount, swapDestinationAmount, tradeDirection)
    case OffsetCurve(curve) => Off.SwapWithoutFees(curve, ext.helpers, sourceAmount, swapSourceAmount, swapDestinationAmount, tradeDirection)
  }

  /** Only the constant-product curve replaces the default initial supply. */
  function NewPoolSupply(ext: Externals, c: CurveCalculator): (r: U128)
    ensures !c.ConstantProductCurve? ==> r == INITIAL_SWAP_POOL_AMOUNT
  {
    match c
    case ConstantProductCurve => ext.product.newPoolSupply
    case ConstantPriceCurve(_) => DefaultNewPoolSupply()
    case OffsetCurve(_) => DefaultNewPoolSupply()
  }

  /** Pool tokens redeemed through the calculator. Rounded down on the
      constant-price curve, redeeming at most the whole supply pays out at most
      the pool's normalized value in token A. */
  function PoolTokensToTradingTokens(ext: Externals, c: CurveCalculator, poolTokens: U128, poolTokenSupply: U128,
                                     swapTokenAAmount: U128, swapTokenBAmount: U128,
                                     roundDirection: RoundDirection): (r: Option<TradingTokenResult>)
    ensures c.ConstantProductCurve? ==>
              r == ext.product.poolTokensToTradingTokens(poolTokens, poolTokenSupply, swapTokenAAmount, swapTokenBAmount,
                                                         roundDirection)
    ensures c.ConstantPriceCurve? ==>
              r == CP.PoolTokensToTradingTokens(c.priceCurve, ext.ceilDiv, poolTokens, poolTokenSupply, swapTokenAAmount,
                                                swapTokenBAmount, roundDirection)
    ensures c.OffsetCurve? ==>
              r == Off.PoolTokensToTradingTokens(c.offsetCurve, ext.helpers, poolTokens, poolTokenSupply, swapTokenAAmount,
                                                 swapTokenBAmount, roundDirection)
    ensures c.ConstantPriceCurve? && roundDirection == Floor && r.Some? && poolTokens <= poolTokenSupply ==>
              && CP.NormalizedValue(c.priceCurve, swapTokenAAmount, swapTokenBAmount).Some?
              && r.value.tokenAAmount <= CP.NormalizedValue(c.priceCurve, swapTokenAAmount, swapTokenBAmount).value
    ensures c.OffsetCurve? && swapTokenBAmount + c.offsetCurve.tokenBOffset > U128_MAX ==> r.None?
  {
    match c
    case ConstantProductCurve =>
      ext.product.poolTokensToTradingTokens(poolTokens, poolTokenSupply, swapTokenAAmount, swapTokenBAmount, roundDirection)
    case ConstantPriceCurve(curve) =>
      var r := CP.PoolTokensToTradingTokens(curve, ext.ceilDiv, poolTokens, poolTokenSupply, swapTokenAAmount,
                                            swapTokenBAmount, roundDirection);
      if roundDirection == Floor && r.Some? && poolTokens <= poolTokenSupply then
        var totalValue := CP.NormalizedValue(curve, swapTokenAAmount, swapTokenBAmount).value;
        CP.ShareAtMostWhole(r.value.tokenAAmount, poolTokens, poolTokenSupply, totalValue);
        r
      else
        r
    case OffsetCurve(curve) =>
      Off.PoolTokensToTradingTokens(curve, ext.helpers, poolTokens, poolTokenSupply, swapTokenAAmount, swapTokenBAmount, roundDirection)
  }

  /** A curve with a zero price or a zero offset is refused. */
  function Validate(ext: Externals, c: CurveCalculator): (r: Result<(), SwapError>)
    ensures c.ConstantPriceCurve? ==> (r.Ok? <==> c.priceCurve.tokenBPrice != 0)
    ensures c.OffsetCurve? ==> (r.Ok? <==> c.offsetCurve.tokenBOffset != 0)
    ensures !c.ConstantProductCurve? && r.Err? ==> r.error == InvalidCurve
  {
    match c
    case ConstantProductCurve => ext.product.validate
    case ConstantPriceCurve(curve) => CP.Validate(curve)
    case OffsetCurve(curve) => Off.Validate(curve)
  }

  /** The constant-price and offset curves let a pool start without token B. */
  function ValidateSupply(ext: Externals, c: CurveCalculator, tokenAAmount: U64, tokenBAmount: U64): (r: Result<(), SwapError>)
    ensures !c.ConstantProductCurve? ==> (r.Ok? <==> tokenAAmount != 0)
    ensures !c.ConstantProductCurve? && r.Err? ==> r.error == EmptySupply
  {
    match c
    case ConstantProductCurve => ext.product.validateSupply(tokenAAmount, tokenBAmount)
    case ConstantPriceCurve(curve) => CP.ValidateSupply(curve, tokenAAmount, tokenBAmount)
    case OffsetCurve(curve) => Off.ValidateSupply(curve, tokenAAmount, tokenBAmount)
  }

  /** A single-sided deposit through the calculator. On the constant-price
      curve it mints the supply's share, rounded down, that the deposit's value
      is of the pool's value. */
  function DepositSingleTokenType(ext: Externals, c: CurveCalculator, sourceAmount: U128, swapTokenAAmount: U128,
                                  swapTokenBAmount: U128, poolSupply: U128, tradeDirection: TradeDirection): (r: Option<U128>)
    ensures c.ConstantProductCurve? ==>
              r == ext.product.depositSingleTokenType(sourceAmount, swapTokenAAmount, swapTokenBAmount, poolSupply, tradeDirection)
    ensures c.ConstantPriceCurve? ==>
              r == CP.DepositSingleTokenType(c.priceCurve, ext.ceilDiv, sourceAmount, swapTokenAAmount, swapTokenBAmount,
                                             poolSupply, tradeDirection)
    ensures c.OffsetCurve? ==>
              r == Off.DepositSingleTokenType(c.offsetCurve, ext.helpers, sourceAmount, swapTokenAAmount, swapTokenBAmount,
                                              poolSupply, tradeDirection)
    ensures c.ConstantPriceCurve? && r.Some? ==>
              IsFloorQuotient(r.value, poolSupply * CP.GivenValue(sourceAmount, c.priceCurve.tokenBPrice, tradeDirection),
                              CP.WeightedValue(swapTokenAAmount, swapTokenBAmount, c.priceCurve.tokenBPrice))
    ensures c.OffsetCurve? && swapTokenBAmount + c.offsetCurve.tokenBOffset > U128_MAX ==> r.None?
  {
    match c
    case ConstantProductCurve =>
      ext.product.depositSingleTokenType(sourceAmount, swapTokenAAmount, swapTokenBAmount, poolSupply, tradeDirection)
    case ConstantPriceCurve(curve) =>
      CP.DepositSingleTokenType(curve, ext.ceilDiv, sourceAmount, swapTokenAAmount, swapTokenBAmount, poolSupply, tradeDirection)
    case OffsetCurve(curve) =>
      Off.DepositSingleTokenType(curve, ext.helpers, sourceAmount, swapTokenAAmount, swapTokenBAmount, poolSupply, tradeDirection)
  }

  /** A single-sided withdrawal through the calculator. Rounded down on the
      constant-price curve it is priced exactly like a deposit. */
  function WithdrawSingleTokenTypeExactOut(ext: Externals, c: CurveCalculator, sourceAmount: U128, swapTokenAAmount: U128,
                                           swapTokenBAmount: U128, poolSupply: U128, tradeDirection: TradeDirection,
                                           roundDirection: RoundDirection): (r: Option<U128>)
    ensures c.ConstantProductCurve? ==>
              r == ext.product.withdrawSingleTokenTypeExactOut(sourceAmount, swapTokenAAmount, swapTokenBAmount, poolSupply,
                                                               tradeDirection, roundDirection)
    ensures c.ConstantPriceCurve? ==>
              r == CP.WithdrawSingleTokenTypeExactOut(c.priceCurve, ext.ceilDiv, sourceAmount, swapTokenAAmount,
                                                      swapTokenBAmount, poolSupply, tradeDirection, roundDirection)
    ensures c.OffsetCurve? ==>
              r == Off.WithdrawSingleTokenTypeExactOut(c.offsetCurve, ext.helpers, sourceAmount, swapTokenAAmount,
                                                       swapTokenBAmount, poolSupply, tradeDirection, roundDirection)
    ensures c.ConstantPriceCurve? && roundDirection == Floor ==>
              r == DepositSingleTokenType(ext, c, sourceAmount, swapTokenAAmount, swapTokenBAmount, poolSupply, tradeDirection)
    ensures c.OffsetCurve? && swapTokenBAmount + c.offsetCurve.tokenBOffset > U128_MAX ==> r.None?
  {
    match c
    case ConstantProductCurve =>
      ext.product.withdrawSingleTokenTypeExactOut(sourceAmount, swapTokenAAmount, swapTokenBAmount, poolSupply,
                                                  tradeDirection, roundDirection)
    case ConstantPriceCurve(curve) =>
      CP.WithdrawSingleTokenTypeExactOut(curve, ext.ceilDiv, sourceAmount, swapTokenAAmount, swapTokenBAmount, poolSupply,
                                         tradeDirection, roundDirection)
    case OffsetCurve(curve) =>
      Off.WithdrawSingleTokenTypeExactOut(curve, ext.helpers, sourceAmount, swapTokenAAmount, swapTokenBAmount, poolSupply,
                                          tradeDirection, roundDirection)
  }

  /** Deposits after creation: refused by the offset curve, accepted by the
      constant-price curve. */
  function AllowsDeposits(ext: Externals, c: CurveCalculator): (r: bool)
    ensures c.OffsetCurve? ==> !r
    ensures c.ConstantPriceCurve? ==> r
  {
    match c
    case ConstantProductCurve => ext.product.allowsDeposits
    case ConstantPriceCurve(_) => DefaultAllowsDeposits()
    case OffsetCurve(curve) => Off.AllowsDeposits(curve)
  }

  /** The normalized value as the real number the fixed-point result stands
      for. On the constant-price curve it is half the pool's value in token A,
      rounded down to a whole token. */
  function NormalizedValue(ext: Externals, c: CurveCalculator, swapTokenAAmount: U128, swapTokenBAmount: U128): (r: Option<real>)
    ensures c.ConstantProductCurve? ==> r == ext.product.normalizedValue(swapTokenAAmount, swapTokenBAmount)
    ensures c.ConstantPriceCurve? ==>
              var value := CP.NormalizedValue(c.priceCurve, swapTokenAAmount, swapTokenBAmount);
              && (r.Some? <==> value.Some?)
              && (r.Some? ==> r.value == value.value as real)
    ensures c.OffsetCurve? ==> r == Off.NormalizedValue(c.offsetCurve, ext.helpers, swapTokenAAmount, swapTokenBAmount)
    ensures c.ConstantPriceCurve? && r.Some? ==>
              var weighted := CP.WeightedValue(swapTokenAAmount, swapTokenBAmount, c.priceCurve.tokenBPrice) as real;
              && r.value.Floor as real == r.value
              && 2.0 * r.value <= weighted <= 2.0 * r.value + 1.0
    ensures c.OffsetCurve? && swapTokenBAmount + c.offsetCurve.tokenBOffset > U128_MAX ==> r.None?
  {
    match c
    case ConstantProductCurve => ext.product.normalizedValue(swapTokenAAmount, swapTokenBAmount)
    case ConstantPriceCurve(curve) =>
      // a u128 is represented exactly by the fixed-point type
      var value :- CP.NormalizedValue(curve, swapTokenAAmount, swapTokenBAmount);
      Some(value as real)
    case OffsetCurve(curve) => Off.NormalizedValue(curve, ext.helpers, swapTokenAAmount, swapTokenBAmount)
  }

  /** A pool configured with an offset curve refuses deposits; one with a
      constant-price curve accepts them. */
  lemma DepositsFollowCurveType(ext: Externals, swapCurve: SwapCurve)
    ensures swapCurve.curveType.Offset? ==> !AllowsDeposits(ext, CalculatorFor(swapCurve))
    ensures swapCurve.curveType.ConstantPrice? ==> AllowsDeposits(ext, CalculatorFor(swapCurve))
  {
  }

  /** A configured price or offset of zero makes the curve invalid. */
  lemma ValidateFollowsParameter(ext: Externals, swapCurve: SwapCurve)
    ensures swapCurve.curveType.ConstantPrice? ==>
              (Validate(ext, CalculatorFor(swapCurve)) == Ok(()) <==> swapCurve.curveType.tokenBPrice != 0)
    ensures swapCurve.curveType.Offset? ==>
              (Validate(ext, CalculatorFor(swapCurve)) == Ok(()) <==> swapCurve.curveType.tokenBOffset != 0)
    ensures !swapCurve.curveType.ConstantProduct? && Validate(ext, CalculatorFor(swapCurve)).Err? ==>
              Validate(ext, CalculatorFor(swapCurve)).error == InvalidCurve
  {
  }
}
