/** The constant-price curve (curves/constant_price.rs): one token B always
    trades for a fixed number of token A, whatever the reserves. */
module ConstantPrice {
  import opened Wrappers
  import opened Uint
  import opened Errors
  import opened Arith
  import opened Calculator
  import opened SplMath

  /** `tokenBPrice`: amount of token A that buys one token B. */
  datatype ConstantPriceCurve = ConstantPriceCurve(tokenBPrice: U64)

  /** The value of a pair of reserves counted in token A. */
  function WeightedValue(tokenA: nat, tokenB: nat, price: nat): nat {
    tokenA + tokenB * price
  }

  /** The value, counted in token A, of a single-sided amount. */
  function GivenValue(sourceAmount: nat, price: nat, direction: TradeDirection): nat {
    match direction
    case AtoB => sourceAmount
    case BtoA => sourceAmount * price
  }

  /** Swapping B for A pays `price` A per B; swapping A for B pays the whole
      number of B the input buys and takes only the A those B cost. The
      reserves are not consulted. A zero amount on either side fails. */
  function SwapWithoutFees(curve: ConstantPriceCurve, sourceAmount: U128, swapSourceAmount: U128,
                           swapDestinationAmount: U128, tradeDirection: TradeDirection): (r: Option<SwapWithoutFeesResult>)
    ensures tradeDirection == BtoA ==>
              && (r.Some? <==> 0 < sourceAmount && 0 < curve.tokenBPrice && sourceAmount * curve.tokenBPrice <= U128_MAX)
              && (r.Some? ==> r.value.sourceAmountSwapped == sourceAmount
                              && r.value.destinationAmountSwapped == sourceAmount * curve.tokenBPrice)
    ensures tradeDirection == AtoB ==>
              && (r.Some? <==> 0 < curve.tokenBPrice <= sourceAmount)
              && (r.Some? ==> IsFloorQuotient(r.value.destinationAmountSwapped, sourceAmount, curve.tokenBPrice)
                              && r.value.sourceAmountSwapped == r.value.destinationAmountSwapped * curve.tokenBPrice)
    ensures r.Some? ==> 0 < r.value.sourceAmountSwapped <= sourceAmount && 0 < r.value.destinationAmountSwapped
  {
    var price: U128 := curve.tokenBPrice;
    var swapped :- match tradeDirection
      case BtoA => SwapBtoA(sourceAmount, price)
      case AtoB => SwapAtoB(sourceAmount, price);
    var sourceAmountSwapped :- MapZeroToNone(swapped.0);
    var destinationAmountSwapped :- MapZeroToNone(swapped.1);
    SwapAmountsPositive(tradeDirection, sourceAmount, price, swapped.0, swapped.1);
    Some(SwapWithoutFeesResult(sourceAmountSwapped, destinationAmountSwapped))
  }

  /** Token B in, `price` token A out per token B. */
  function SwapBtoA(sourceAmount: U128, price: U128): (r: Option<(U128, U128)>)
    ensures r.Some? <==> sourceAmount * price <= U128_MAX
    ensures r.Some? ==> r.value.0 == sourceAmount && r.value.1 == sourceAmount * price
  {
    var destinationAmountSwapped :- CheckedMul(sourceAmount, price);
    Some((sourceAmount, destinationAmountSwapped))
  }

  /** Token A in, as many whole token B out as it buys; only the cost of those
      is taken from the input. */
  function SwapAtoB(sourceAmount: U128, price: U128): (r: Option<(U128, U128)>)
    ensures r.Some? <==> price != 0
    ensures r.Some? ==> IsFloorQuotient(r.value.1, sourceAmount, price) && r.value.0 == r.value.1 * price
  {
    var destinationAmountSwapped :- CheckedDiv(sourceAmount, price);
    // once the division succeeded, the remainder and the subtraction cannot fail
    var remainder := sourceAmount % price;
    FloorDivBounds(sourceAmount, price);
    var sourceAmountSwapped := if remainder > 0 then sourceAmount - remainder else sourceAmount;
    Some((sourceAmountSwapped, destinationAmountSwapped))
  }

  /** When both swapped amounts are positive, in terms of the input. */
  lemma SwapAmountsPositive(tradeDirection: TradeDirection, sourceAmount: nat, price: nat, source: nat, destination: nat)
    requires tradeDirection == BtoA ==> source == sourceAmount && destination == sourceAmount * price
    requires tradeDirection == AtoB ==> IsFloorQuotient(destination, sourceAmount, price) && source == destination * price
    ensures tradeDirection == BtoA ==> (0 < source && 0 < destination <==> 0 < sourceAmount && 0 < price)
    ensures tradeDirection == AtoB ==> (0 < source && 0 < destination <==> 0 < price <= sourceAmount)
  {
    if tradeDirection == BtoA && 0 < sourceAmount && 0 < price {
      PositiveProduct(sourceAmount, price);
    }
    if tradeDirection == AtoB && 0 < price <= sourceAmount {
      PositiveProduct(destination, price);
    }
  }

  /** The pool's value counted in token A, halved (rounded down). */
  function NormalizedValue(curve: ConstantPriceCurve, swapTokenAAmount: U128, swapTokenBAmount: U128): (r: Option<U128>)
    ensures r.Some? <==> swapTokenBAmount * curve.tokenBPrice <= U128_MAX
                         && WeightedValue(swapTokenAAmount, swapTokenBAmount, curve.tokenBPrice) <= U128_MAX
    ensures r.Some? ==> 2 * r.value <= WeightedValue(swapTokenAAmount, swapTokenBAmount, curve.tokenBPrice) <= 2 * r.value + 1
  {
    var swapTokenBValue :- CheckedMul(swapTokenBAmount, curve.tokenBPrice);
    var value :- if SaturatingSub(swapTokenBValue, U64_MAX) > SaturatingSub(U128_MAX, U64_MAX)
                 then HalvesSum(swapTokenBValue, swapTokenAAmount)
                 else HalfOfSum(swapTokenAAmount, swapTokenBValue);
    Some(value)
  }

  /** Near-limit branch of the normalized value: halve each side, then add. */
  function HalvesSum(swapTokenBValue: U128, swapTokenAAmount: U128): (r: Option<U128>)
    ensures r.Some? <==> swapTokenBValue / 2 + swapTokenAAmount / 2 <= U128_MAX
    ensures r.Some? ==> r.value == swapTokenBValue / 2 + swapTokenAAmount / 2
  {
    // halving a u128 cannot fail
    CheckedAdd(swapTokenBValue / 2, swapTokenAAmount / 2)
  }

  /** Usual branch of the normalized value: add, then halve. */
  function HalfOfSum(swapTokenAAmount: U128, swapTokenBValue: U128): (r: Option<U128>)
    ensures r.Some? <==> swapTokenAAmount + swapTokenBValue <= U128_MAX
    ensures r.Some? ==> 2 * r.value <= swapTokenAAmount + swapTokenBValue <= 2 * r.value + 1
  {
    var sum :- CheckedAdd(swapTokenAAmount, swapTokenBValue);
    Some(sum / 2)
  }

  /** The near-limit branch tests whether a u128 exceeds the u128 maximum, so
      it is never taken. */
  lemma NearLimitBranchIsDead(swapTokenBValue: U128)
    ensures !(SaturatingSub(swapTokenBValue, U64_MAX) > SaturatingSub(U128_MAX, U64_MAX))
  {
  }

  /** Pool tokens redeemed for trading tokens. With Floor the share of the
      normalized value is paid out once in token A and once converted to
      token B: `a = floor(pool * v / supply)`, `b = floor(pool * v / (price * supply))`. */
  function PoolTokensToTradingTokens(curve: ConstantPriceCurve, math: CeilDiv, poolTokens: U128, poolTokenSupply: U128,
                                     swapTokenAAmount: U128, swapTokenBAmount: U128,
                                     roundDirection: RoundDirection): (r: Option<TradingTokenResult>)
    ensures roundDirection == Floor ==>
              (r.Some? <==> && PoolValue(curve, poolTokens, swapTokenAAmount, swapTokenBAmount).Some?
                            && 0 < poolTokenSupply && 0 < curve.tokenBPrice)
    ensures roundDirection == Floor && r.Some? ==>
              var poolValue := PoolValue(curve, poolTokens, swapTokenAAmount, swapTokenBAmount).value;
              && IsFloorQuotient(r.value.tokenAAmount, poolValue, poolTokenSupply)
              && IsFloorQuotient(r.value.tokenBAmount, poolValue, curve.tokenBPrice * poolTokenSupply)
    ensures roundDirection == Ceiling && r.Some? ==>
              && PoolValue(curve, poolTokens, swapTokenAAmount, swapTokenBAmount).Some?
              && IsCeilingShare(math, PoolValue(curve, poolTokens, swapTokenAAmount, swapTokenBAmount).value,
                                poolTokenSupply, curve.tokenBPrice, r.value)
  {
    var price: U128 := curve.tokenBPrice;
    // both roundings start from the same product
    var poolValue :- PoolValue(curve, poolTokens, swapTokenAAmount, swapTokenBAmount);
    match roundDirection
    case Floor => PoolShareFloor(poolValue, poolTokenSupply, price)
    case Ceiling => PoolShareCeiling(math, poolValue, poolTokenSupply, price)
  }

  /** The redeemed tokens' share of the pool, `poolTokens * v` for the
      normalized value `v`, if it fits in u128. */
  function PoolValue(curve: ConstantPriceCurve, poolTokens: U128, swapTokenAAmount: U128, swapTokenBAmount: U128): (r: Option<U128>)
    ensures r.Some? <==> && NormalizedValue(curve, swapTokenAAmount, swapTokenBAmount).Some?
                         && poolTokens * NormalizedValue(curve, swapTokenAAmount, swapTokenBAmount).value <= U128_MAX
    ensures r.Some? ==> r.value == poolTokens * NormalizedValue(curve, swapTokenAAmount, swapTokenBAmount).value
  {
    // the fixed-point conversion of an integer value back to u128 is exact
    var totalValue :- NormalizedValue(curve, swapTokenAAmount, swapTokenBAmount);
    CheckedMul(poolTokens, totalValue)
  }

  /** Floor branch: the pool value's share paid in token A, and converted to
      token B. */
  function PoolShareFloor(poolValue: U128, poolTokenSupply: U128, price: U128): (r: Option<TradingTokenResult>)
    ensures r.Some? <==> 0 < poolTokenSupply && 0 < price
    ensures r.Some? ==> && IsFloorQuotient(r.value.tokenAAmount, poolValue, poolTokenSupply)
                        && IsFloorQuotient(r.value.tokenBAmount, poolValue, price * poolTokenSupply)
  {
    var tokenAAmount :- CheckedDiv(poolValue, poolTokenSupply);
    var poolValueAsTokenB :- CheckedDiv(poolValue, price);
    FloorDivBounds(poolValue, poolTokenSupply);
    NestedFloorDiv(poolValue, price, poolTokenSupply);
    DivAtMost(poolValueAsTokenB, poolTokenSupply);
    // the supply was already found non-zero
    var tokenBAmount: U128 := poolValueAsTokenB / poolTokenSupply;
    Some(TradingTokenResult(tokenAAmount, tokenBAmount))
  }

  /** Ceiling branch: the same quotients through the library's ceiling division. */
  function PoolShareCeiling(math: CeilDiv, poolValue: U128, poolTokenSupply: U128, price: U128): (r: Option<TradingTokenResult>)
    ensures r.Some? <==> && math.onU128(poolValue, poolTokenSupply).Some?
                         && math.onU128(poolValue, price).Some?
                         && math.onU128(math.onU128(poolValue, price).value, poolTokenSupply).Some?
    ensures r.Some? ==> IsCeilingShare(math, poolValue, poolTokenSupply, price, r.value)
  {
    var tokenAAmount :- math.onU128(poolValue, poolTokenSupply);
    var poolValueAsTokenB :- math.onU128(poolValue, price);
    var tokenBAmount :- math.onU128(poolValueAsTokenB, poolTokenSupply);
    Some(TradingTokenResult(tokenAAmount, tokenBAmount))
  }

  /** The amounts the library's ceiling division gives for the pool value's
      share in token A, and for its conversion to token B. */
  predicate IsCeilingShare(math: CeilDiv, poolValue: U128, poolTokenSupply: U128, price: U128, result: TradingTokenResult) {
    && math.onU128(poolValue, poolTokenSupply) == Some(result.tokenAAmount)
    && math.onU128(poolValue, price).Some?
    && math.onU128(math.onU128(poolValue, price).value, poolTokenSupply) == Some(result.tokenBAmount)
  }

  /** A floored share `floor(part * total / whole)` with `part <= whole` is at
      most `total`. */
  lemma ShareAtMostWhole(share: nat, part: nat, whole: nat, total: nat)
    requires part <= whole && IsFloorQuotient(share, part * total, whole)
    ensures share <= total
  {
    MulLeMonotone(part, whole, total);
    MulCancelStrict(share, total + 1, whole);
  }

  /** Dividing by `p` and then by `s`, both rounded down, is dividing by
      `p * s` rounded down. */
  lemma {:induction false} NestedFloorDiv(x: nat, p: nat, s: nat)
    requires 0 < p && 0 < s
    ensures IsFloorQuotient(x / p / s, x, p * s)
  {
    var y := x / p;
    var q := y / s;
    FloorDivBounds(x, p);
    FloorDivBounds(y, s);
    MulLeMonotone(q * s, y, p);
    MulLeMonotone(y + 1, (q + 1) * s, p);
    MulAssoc(q, s, p);
    MulAssoc(q + 1, s, p);
    assert q * (p * s) == (q * s) * p;
    assert (q + 1) * (p * s) == ((q + 1) * s) * p;
  }

  /** A u128 times a u64, plus a u128, stays far below the 256-bit maximum. */
  lemma NarrowProductFitsU256(x: U128, price: U64, y: U128)
    ensures x * price + y <= U256_MAX
  {
    MulLeMonotone(x, U128_MAX, price);
    MulLeMonotone(price, U64_MAX, U128_MAX);
  }

  /** Pool tokens matching a single-sided amount: the supply scaled by the
      amount's share of the pool value, both counted in token A, computed in
      256-bit arithmetic. Fails on an empty pool value, or when the product
      or the quotient does not fit. */
  function TradingTokensToPoolTokens(math: CeilDiv, tokenBPrice: U64, sourceAmount: U128, swapTokenAAmount: U128,
                                     swapTokenBAmount: U128, poolSupply: U128, tradeDirection: TradeDirection,
                                     roundDirection: RoundDirection): (r: Option<U128>)
    ensures var given := GivenValue(sourceAmount, tokenBPrice, tradeDirection);
            var total := WeightedValue(swapTokenAAmount, swapTokenBAmount, tokenBPrice);
            && (roundDirection == Floor ==>
                  (r.Some? <==> 0 < total && poolSupply * given <= U256_MAX && poolSupply * given / total <= U128_MAX))
            && (roundDirection == Floor && r.Some? ==> IsFloorQuotient(r.value, poolSupply * given, total))
            && (roundDirection == Ceiling ==>
                  (r.Some? <==> && poolSupply * given <= U256_MAX
                                && math.onU256(poolSupply * given, WeightedValue256(swapTokenAAmount, swapTokenBAmount, tokenBPrice)).Some?
                                && math.onU256(poolSupply * given, WeightedValue256(swapTokenAAmount, swapTokenBAmount, tokenBPrice)).value <= U128_MAX))
            && (roundDirection == Ceiling && r.Some? ==>
                  math.onU256(poolSupply * given, WeightedValue256(swapTokenAAmount, swapTokenBAmount, tokenBPrice)) == Some(r.value))
  {
    SupplyShare(math, poolSupply, GivenValue256(sourceAmount, tokenBPrice, tradeDirection),
                WeightedValue256(swapTokenAAmount, swapTokenBAmount, tokenBPrice), roundDirection)
  }

  /** The deposited amount counted in token A, in 256-bit arithmetic: the
      checked product of a u128 and a u64 cannot overflow. */
  function GivenValue256(sourceAmount: U128, tokenBPrice: U64, tradeDirection: TradeDirection): (r: U256)
    ensures r == GivenValue(sourceAmount, tokenBPrice, tradeDirection)
  {
    NarrowProductFitsU256(sourceAmount, tokenBPrice, 0);
    match tradeDirection
    case AtoB => sourceAmount
    case BtoA => sourceAmount * tokenBPrice
  }

  /** The pool value counted in token A, in 256-bit arithmetic: neither the
      checked product nor the checked sum can overflow. */
  function WeightedValue256(swapTokenAAmount: U128, swapTokenBAmount: U128, tokenBPrice: U64): (r: U256)
    ensures r == WeightedValue(swapTokenAAmount, swapTokenBAmount, tokenBPrice)
  {
    NarrowProductFitsU256(swapTokenBAmount, tokenBPrice, swapTokenAAmount);
    swapTokenBAmount * tokenBPrice + swapTokenAAmount
  }

  /** `poolSupply * givenValue / totalValue` in 256-bit arithmetic, narrowed to u128. */
  function SupplyShare(math: CeilDiv, poolSupply: U128, givenValue: U256, totalValue: U256,
                       roundDirection: RoundDirection): (r: Option<U128>)
    ensures roundDirection == Floor ==>
              (r.Some? <==> 0 < totalValue && poolSupply * givenValue <= U256_MAX
                            && poolSupply * givenValue / totalValue <= U128_MAX)
    ensures roundDirection == Floor && r.Some? ==> IsFloorQuotient(r.value, poolSupply * givenValue, totalValue)
    ensures roundDirection == Ceiling ==>
              (r.Some? <==> && poolSupply * givenValue <= U256_MAX
                            && math.onU256(poolSupply * givenValue, totalValue).Some?
                            && math.onU256(poolSupply * givenValue, totalValue).value <= U128_MAX)
    ensures roundDirection == Ceiling && r.Some? ==> math.onU256(poolSupply * givenValue, totalValue) == Some(r.value)
  {
    var product :- CheckedMul256(poolSupply, givenValue);
    match roundDirection
    case Floor => FloorShare(product, totalValue)
    case Ceiling => CeilingShare(math, product, totalValue)
  }

  /** `product / totalValue` rounded down, narrowed to u128. */
  function FloorShare(product: U256, totalValue: U256): (r: Option<U128>)
    ensures r.Some? <==> 0 < totalValue && product / totalValue <= U128_MAX
    ensures r.Some? ==> IsFloorQuotient(r.value, product, totalValue)
  {
    var quotient :- CheckedDiv256(product, totalValue);
    FloorDivBounds(product, totalValue);
    AsU128(quotient)
  }

  /** The library's ceiling division of `product` by `totalValue`, narrowed to u128. */
  function CeilingShare(math: CeilDiv, product: U256, totalValue: U256): (r: Option<U128>)
    ensures r.Some? <==> math.onU256(product, totalValue).Some? && math.onU256(product, totalValue).value <= U128_MAX
    ensures r.Some? ==> math.onU256(product, totalValue) == Some(r.value)
  {
    var quotient :- math.onU256(product, totalValue);
    AsU128(quotient)
  }

  /** A single-sided deposit always rounds the pool tokens down. */
  function DepositSingleTokenType(curve: ConstantPriceCurve, math: CeilDiv, sourceAmount: U128, swapTokenAAmount: U128,
                                  swapTokenBAmount: U128, poolSupply: U128, tradeDirection: TradeDirection): (r: Option<U128>)
    ensures var given := GivenValue(sourceAmount, curve.tokenBPrice, tradeDirection);
            var total := WeightedValue(swapTokenAAmount, swapTokenBAmount, curve.tokenBPrice);
            && (r.Some? <==> 0 < total && poolSupply * given <= U256_MAX && poolSupply * given / total <= U128_MAX)
            && (r.Some? ==> IsFloorQuotient(r.value, poolSupply * given, total))
  {
    TradingTokensToPoolTokens(math, curve.tokenBPrice, sourceAmount, swapTokenAAmount, swapTokenBAmount,
                              poolSupply, tradeDirection, Floor)
  }

  /** A single-sided withdrawal uses the same conversion as a deposit, with the
      caller's rounding. */
  function WithdrawSingleTokenTypeExactOut(curve: ConstantPriceCurve, math: CeilDiv, sourceAmount: U128,
                                           swapTokenAAmount: U128, swapTokenBAmount: U128, poolSupply: U128,
                                           tradeDirection: TradeDirection, roundDirection: RoundDirection): (r: Option<U128>)
    ensures roundDirection == Floor ==>
              r == DepositSingleTokenType(curve, math, sourceAmount, swapTokenAAmount, swapTokenBAmount, poolSupply, tradeDirection)
    ensures roundDirection == Ceiling && r.Some? ==>
              var given := GivenValue(sourceAmount, curve.tokenBPrice, tradeDirection);
              && poolSupply * given <= U256_MAX
              && math.onU256(poolSupply * given, WeightedValue256(swapTokenAAmount, swapTokenBAmount, curve.tokenBPrice)) == Some(r.value)
  {
    TradingTokensToPoolTokens(math, curve.tokenBPrice, sourceAmount, swapTokenAAmount, swapTokenBAmount,
                              poolSupply, tradeDirection, roundDirection)
  }

  /** A zero price is refused. */
  function Validate(curve: ConstantPriceCurve): (r: Result<(), SwapError>)
    ensures r.Ok? <==> curve.tokenBPrice != 0
    ensures r.Err? ==> r.error == InvalidCurve
  {
    if curve.tokenBPrice == 0 then Err(InvalidCurve) else Ok(())
  }

  /** Only the A reserve must be non-empty at creation: a pool may start
      holding no token B. */
  function ValidateSupply(curve: ConstantPriceCurve, tokenAAmount: U64, tokenBAmount: U64): (r: Result<(), SwapError>)
    ensures r.Ok? <==> tokenAAmount != 0
    ensures r.Err? ==> r.error == EmptySupply
  {
    if tokenAAmount == 0 then Err(EmptySupply) else Ok(())
  }

  /** The swap moves value between the reserves without creating or losing
      any, counted in token A at the curve's price. */
  lemma {:induction false} SwapPreservesWeightedValue(curve: ConstantPriceCurve, sourceAmount: U128, swapSourceAmount: U128,
                                                      swapDestinationAmount: U128, tradeDirection: TradeDirection)
    requires SwapWithoutFees(curve, sourceAmount, swapSourceAmount, swapDestinationAmount, tradeDirection).Some?
    ensures var result := SwapWithoutFees(curve, sourceAmount, swapSourceAmount, swapDestinationAmount, tradeDirection).value;
            var price: int := curve.tokenBPrice;
            var newSource: int := swapSourceAmount + result.sourceAmountSwapped;
            var newDestination: int := swapDestinationAmount - result.destinationAmountSwapped;
            && (tradeDirection == AtoB ==> newSource + newDestination * price == swapSourceAmount + swapDestinationAmount * price)
            && (tradeDirection == BtoA ==> newDestination + newSource * price == swapDestinationAmount + swapSourceAmount * price)
  {
    var result := SwapWithoutFees(curve, sourceAmount, swapSourceAmount, swapDestinationAmount, tradeDirection).value;
    var price: int := curve.tokenBPrice;
    match tradeDirection
    case AtoB =>
      SplitProduct(price, swapDestinationAmount, -(result.destinationAmountSwapped as int));
    case BtoA =>
      SplitProduct(price, swapSourceAmount, result.sourceAmountSwapped);
  }

  /** The swap result does not depend on the reserves. */
  lemma SwapIgnoresReserves(curve: ConstantPriceCurve, sourceAmount: U128, s1: U128, d1: U128, s2: U128, d2: U128,
                            tradeDirection: TradeDirection)
    ensures SwapWithoutFees(curve, sourceAmount, s1, d1, tradeDirection)
         == SwapWithoutFees(curve, sourceAmount, s2, d2, tradeDirection)
  {
  }

  /** Two pools of equal weighted value have equal normalized values. */
  lemma NormalizedValueFollowsWeight(c: ConstantPriceCurve, a1: U128, b1: U128, a2: U128, b2: U128)
    requires NormalizedValue(c, a1, b1).Some? && NormalizedValue(c, a2, b2).Some?
    requires WeightedValue(a1, b1, c.tokenBPrice) == WeightedValue(a2, b2, c.tokenBPrice)
    ensures NormalizedValue(c, a1, b1).value == NormalizedValue(c, a2, b2).value
  {
  }
}
