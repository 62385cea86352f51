/** The value-preservation checks the repository's curve tests apply to every
    calculator (curves/tests.rs), as functions of the calculator and the
    inputs. A check yields `None` when one of its steps fails (an `unwrap` of
    a failed calculation, or a u128 overflow or underflow, both of which abort
    the test), and otherwise whether its assertion holds. */
module CurveChecks {
  import opened Wrappers
  import opened Uint
  import opened Arith
  import opened Calculator
  import opened Base
  import CP = ConstantPrice

  /** Tolerance, in basis points, that most curves meet in the conversion checks. */
  const CONVERSION_BASIS_POINTS_GUARANTEE: U128 := 50

  function Max(x: nat, y: nat): nat { if x >= y then x else y }

  function AbsDiff(x: nat, y: nat): nat { if x >= y then x - y else y - x }

  /** A fixed-point number converted to an integer, rounding half up. */
  function RoundHalfUp(x: real): int { (x + 0.5).Floor }

  /** The (token A, token B) reserves of a pool, from a swap's source and
      destination reserves. */
  function Reserves(tradeDirection: TradeDirection, swapSourceAmount: U128, swapDestinationAmount: U128): (U128, U128) {
    match tradeDirection
    case AtoB => (swapSourceAmount, swapDestinationAmount)
    case BtoA => (swapDestinationAmount, swapSourceAmount)
  }

  /** Depositing one side compares with swapping half of it and depositing the
      two halves one after the other, within the tolerance. */
  function CheckDepositTokenConversion(ext: Externals, curve: CurveCalculator, sourceTokenAmount: U128,
                                       swapSourceAmount: U128, swapDestinationAmount: U128,
                                       tradeDirection: TradeDirection, poolSupply: U128,
                                       epsilonInBasisPoints: U128): (r: Option<bool>)
    ensures r.Some? ==>
              var (swapTokenAAmount, swapTokenBAmount) := Reserves(tradeDirection, swapSourceAmount, swapDestinationAmount);
              && DepositSingleTokenType(ext, curve, sourceTokenAmount, swapTokenAAmount, swapTokenBAmount, poolSupply,
                                        tradeDirection).Some?
              && SwapWithoutFees(ext, curve, sourceTokenAmount / 2, swapSourceAmount, swapDestinationAmount, tradeDirection).Some?
              && var results := SwapWithoutFees(ext, curve, sourceTokenAmount / 2, swapSourceAmount, swapDestinationAmount,
                                                tradeDirection).value;
                 && results.sourceAmountSwapped <= sourceTokenAmount
                 && results.destinationAmountSwapped <= swapDestinationAmount
                 && swapSourceAmount + results.sourceAmountSwapped <= U128_MAX
  {
    var amountToSwap := sourceTokenAmount / 2;
    var results :- SwapWithoutFees(ext, curve, amountToSwap, swapSourceAmount, swapDestinationAmount, tradeDirection);
    var oppositeDirection := Opposite(tradeDirection);
    var (swapTokenAAmount, swapTokenBAmount) := Reserves(tradeDirection, swapSourceAmount, swapDestinationAmount);
    var poolTokensFromOneSide :- DepositSingleTokenType(ext, curve, sourceTokenAmount, swapTokenAAmount, swapTokenBAmount,
                                                        poolSupply, tradeDirection);
    var newSwapSourceAmount :- CheckedAdd(swapSourceAmount, results.sourceAmountSwapped);
    var newSwapDestinationAmount :- CheckedSub(swapDestinationAmount, results.destinationAmountSwapped);
    var (newSwapTokenAAmount, newSwapTokenBAmount) := Reserves(tradeDirection, newSwapSourceAmount, newSwapDestinationAmount);
    var remainingSource :- CheckedSub(sourceTokenAmount, results.sourceAmountSwapped);
    var poolTokensFromSource :- DepositSingleTokenType(ext, curve, remainingSource, newSwapTokenAAmount, newSwapTokenBAmount,
                                                       poolSupply, tradeDirection);
    var supplyAfterSource :- CheckedAdd(poolSupply, poolTokensFromSource);
    var poolTokensFromDestination :- DepositSingleTokenType(ext, curve, results.destinationAmountSwapped, newSwapTokenAAmount,
                                                            newSwapTokenBAmount, supplyAfterSource, oppositeDirection);
    var poolTokensTotalSeparate :- CheckedAdd(poolTokensFromSource, poolTokensFromDestination);
    var scaled :- CheckedMul(poolTokensTotalSeparate, epsilonInBasisPoints);
    var epsilon := Max(1, scaled / 10000);
    Some(AbsDiff(poolTokensFromOneSide, poolTokensTotalSeparate) <= epsilon)
  }

  /** Withdrawing both sides and swapping one into the other compares with a
      single-sided withdrawal of the total, rounded up, within the tolerance. */
  function CheckWithdrawTokenConversion(ext: Externals, curve: CurveCalculator, poolTokenAmount: U128,
                                        poolTokenSupply: U128, swapTokenAAmount: U128, swapTokenBAmount: U128,
                                        tradeDirection: TradeDirection, epsilonInBasisPoints: U128): (r: Option<bool>)
    ensures r.Some? ==>
              && PoolTokensToTradingTokens(ext, curve, poolTokenAmount, poolTokenSupply, swapTokenAAmount, swapTokenBAmount,
                                           Floor).Some?
              && var withdrawResult := PoolTokensToTradingTokens(ext, curve, poolTokenAmount, poolTokenSupply,
                                                                 swapTokenAAmount, swapTokenBAmount, Floor).value;
                 withdrawResult.tokenAAmount <= swapTokenAAmount && withdrawResult.tokenBAmount <= swapTokenBAmount
  {
    var withdrawResult :- PoolTokensToTradingTokens(ext, curve, poolTokenAmount, poolTokenSupply, swapTokenAAmount,
                                                    swapTokenBAmount, Floor);
    var newSwapTokenAAmount :- CheckedSub(swapTokenAAmount, withdrawResult.tokenAAmount);
    var newSwapTokenBAmount :- CheckedSub(swapTokenBAmount, withdrawResult.tokenBAmount);
    var sourceTokenAmount :- (match tradeDirection
      case AtoB =>
        var results :- SwapWithoutFees(ext, curve, withdrawResult.tokenAAmount, newSwapTokenAAmount,
                                       newSwapTokenBAmount, tradeDirection);
        CheckedAdd(withdrawResult.tokenBAmount, results.destinationAmountSwapped)
      case BtoA =>
        var results :- SwapWithoutFees(ext, curve, withdrawResult.tokenBAmount, newSwapTokenBAmount,
                                       newSwapTokenAAmount, tradeDirection);
        CheckedAdd(withdrawResult.tokenAAmount, results.destinationAmountSwapped));
    var fromSingleSideWithdraw :- WithdrawSingleTokenTypeExactOut(ext, curve, sourceTokenAmount, swapTokenAAmount,
                                                                  swapTokenBAmount, poolTokenSupply,
                                                                  Opposite(tradeDirection), Ceiling);
    var scaled :- CheckedMul(poolTokenAmount, epsilonInBasisPoints);
    var epsilon := Max(1, scaled / 10000);
    Some(AbsDiff(poolTokenAmount, fromSingleSideWithdraw) <= epsilon)
  }

  /** A deposit of trading tokens for pool tokens, rounded up, does not lower
      either reserve per pool token. The products are 256-bit, so they cannot
      overflow. */
  function CheckPoolValueFromDeposit(ext: Externals, curve: CurveCalculator, poolTokenAmount: U128,
                                     poolTokenSupply: U128, swapTokenAAmount: U128, swapTokenBAmount: U128): (r: Option<bool>)
    ensures r.Some? <==>
              && PoolTokensToTradingTokens(ext, curve, poolTokenAmount, poolTokenSupply, swapTokenAAmount, swapTokenBAmount,
                                           Ceiling).Some?
              && var depositResult := PoolTokensToTradingTokens(ext, curve, poolTokenAmount, poolTokenSupply,
                                                                swapTokenAAmount, swapTokenBAmount, Ceiling).value;
                 && swapTokenAAmount + depositResult.tokenAAmount <= U128_MAX
                 && swapTokenBAmount + depositResult.tokenBAmount <= U128_MAX
                 && poolTokenSupply + poolTokenAmount <= U128_MAX
  {
    var depositResult :- PoolTokensToTradingTokens(ext, curve, poolTokenAmount, poolTokenSupply, swapTokenAAmount,
                                                   swapTokenBAmount, Ceiling);
    var newSwapTokenAAmount :- CheckedAdd(swapTokenAAmount, depositResult.tokenAAmount);
    var newSwapTokenBAmount :- CheckedAdd(swapTokenBAmount, depositResult.tokenBAmount);
    var newPoolTokenSupply :- CheckedAdd(poolTokenSupply, poolTokenAmount);
    Some(&& newSwapTokenAAmount * poolTokenSupply >= swapTokenAAmount * newPoolTokenSupply
         && newSwapTokenBAmount * poolTokenSupply >= swapTokenBAmount * newPoolTokenSupply)
  }

  /** A withdrawal of pool tokens, rounded down, does not lower the normalized
      value per pool token. */
  function CheckPoolValueFromWithdraw(ext: Externals, curve: CurveCalculator, poolTokenAmount: U128,
                                      poolTokenSupply: U128, swapTokenAAmount: U128, swapTokenBAmount: U128): (r: Option<bool>)
    ensures r.Some? ==>
              && poolTokenAmount <= poolTokenSupply
              && PoolTokensToTradingTokens(ext, curve, poolTokenAmount, poolTokenSupply, swapTokenAAmount, swapTokenBAmount,
                                           Floor).Some?
              && var withdrawResult := PoolTokensToTradingTokens(ext, curve, poolTokenAmount, poolTokenSupply,
                                                                 swapTokenAAmount, swapTokenBAmount, Floor).value;
                 && withdrawResult.tokenAAmount <= swapTokenAAmount && withdrawResult.tokenBAmount <= swapTokenBAmount
                 && NormalizedValue(ext, curve, swapTokenAAmount, swapTokenBAmount).Some?
                 && NormalizedValue(ext, curve, swapTokenAAmount - withdrawResult.tokenAAmount,
                                    swapTokenBAmount - withdrawResult.tokenBAmount).Some?
  {
    var withdrawResult :- PoolTokensToTradingTokens(ext, curve, poolTokenAmount, poolTokenSupply, swapTokenAAmount,
                                                    swapTokenBAmount, Floor);
    var newSwapTokenAAmount :- CheckedSub(swapTokenAAmount, withdrawResult.tokenAAmount);
    var newSwapTokenBAmount :- CheckedSub(swapTokenBAmount, withdrawResult.tokenBAmount);
    var newPoolTokenSupply :- CheckedSub(poolTokenSupply, poolTokenAmount);
    var value :- NormalizedValue(ext, curve, swapTokenAAmount, swapTokenBAmount);
    var newValue :- NormalizedValue(ext, curve, newSwapTokenAAmount, newSwapTokenBAmount);
    Some(ShareValueKept(newValue, poolTokenSupply, value, newPoolTokenSupply))
  }

  /** `newValue / newSupply >= value / supply`, cross-multiplied. */
  predicate ShareValueKept(newValue: real, supply: nat, value: real, newSupply: nat) {
    newValue * (supply as real) >= value * (newSupply as real)
  }

  /** A swap does not lower the normalized value of the pool, and raises it by
      at most one token. */
  function CheckCurveValueFromSwap(ext: Externals, curve: CurveCalculator, sourceTokenAmount: U128,
                                   swapSourceAmount: U128, swapDestinationAmount: U128,
                                   tradeDirection: TradeDirection): (r: Option<bool>)
    ensures r.Some? ==>
              && SwapWithoutFees(ext, curve, sourceTokenAmount, swapSourceAmount, swapDestinationAmount, tradeDirection).Some?
              && var results := SwapWithoutFees(ext, curve, sourceTokenAmount, swapSourceAmount, swapDestinationAmount,
                                                tradeDirection).value;
                 && swapSourceAmount + results.sourceAmountSwapped <= U128_MAX
                 && results.destinationAmountSwapped <= swapDestinationAmount
                 && var (a, b) := Reserves(tradeDirection, swapSourceAmount, swapDestinationAmount);
                    var (newA, newB) := Reserves(tradeDirection, swapSourceAmount + results.sourceAmountSwapped,
                                                 swapDestinationAmount - results.destinationAmountSwapped);
                    && NormalizedValue(ext, curve, a, b).Some?
                    && NormalizedValue(ext, curve, newA, newB).Some?
                    && (r.value <==> var gain := NormalizedValue(ext, curve, newA, newB).value
                                               - NormalizedValue(ext, curve, a, b).value;
                                     0.0 <= gain && RoundHalfUp(gain) <= 1)
  {
    var results :- SwapWithoutFees(ext, curve, sourceTokenAmount, swapSourceAmount, swapDestinationAmount, tradeDirection);
    var (swapTokenAAmount, swapTokenBAmount) := Reserves(tradeDirection, swapSourceAmount, swapDestinationAmount);
    var previousValue :- NormalizedValue(ext, curve, swapTokenAAmount, swapTokenBAmount);
    var newSwapSourceAmount :- CheckedAdd(swapSourceAmount, results.sourceAmountSwapped);
    var newSwapDestinationAmount :- CheckedSub(swapDestinationAmount, results.destinationAmountSwapped);
    var (newSwapTokenAAmount, newSwapTokenBAmount) := Reserves(tradeDirection, newSwapSourceAmount, newSwapDestinationAmount);
    var newValue :- NormalizedValue(ext, curve, newSwapTokenAAmount, newSwapTokenBAmount);
    if newValue < previousValue then Some(false)
    else Some(RoundHalfUp(newValue - previousValue) <= 1)
  }

  /** The pairs the property-test generator draws: a total below the bound and
      a positive intermediate below the total. */
  function TotalAndIntermediate(maxValue: U64): (r: set<(nat, nat)>)
    ensures forall pair :: pair in r <==> 1 <= pair.1 < pair.0 < maxValue
    ensures r == {} <==> maxValue < 3
  {
    var pairs := set total: nat, intermediate: nat | 1 <= intermediate < total < maxValue :: (total, intermediate);
    assert maxValue >= 3 ==> (2, 1) in pairs;
    pairs
  }

  /** The constant-price curve with price 1. */
  function UnitPriceCurve(): CurveCalculator {
    ConstantPriceCurve(CP.ConstantPriceCurve(1))
  }

  /** The deposit conversion tolerance is not a property of the constant-price
      curve: depositing 2 token A into a pool of 1 A and 1 B with a supply of
      one billion gives one billion pool tokens, while swapping 1 A for 1 B and
      depositing the two separately gives 1.25 billion. */
  lemma DepositConversionExceedsTolerance(ext: Externals)
    ensures CheckDepositTokenConversion(ext, UnitPriceCurve(), 2, 1, 1, AtoB, 1_000_000_000,
                                        CONVERSION_BASIS_POINTS_GUARANTEE) == Some(false)
  {
    var c := CP.ConstantPriceCurve(1);
    assert CP.SwapWithoutFees(c, 1, 1, 1, AtoB) == Some(SwapWithoutFeesResult(1, 1));
    assert CP.DepositSingleTokenType(c, ext.ceilDiv, 2, 1, 1, 1_000_000_000, AtoB) == Some(1_000_000_000);
    assert CP.DepositSingleTokenType(c, ext.ceilDiv, 1, 2, 0, 1_000_000_000, AtoB) == Some(500_000_000);
    assert CP.DepositSingleTokenType(c, ext.ceilDiv, 1, 2, 0, 1_500_000_000, BtoA) == Some(750_000_000);
  }

  /** The per-reserve deposit check fails on the constant-price curve for a
      pool holding no token B, given a ceiling division that rounds exact
      quotients to themselves: 10 of 100 pool tokens cost only 5 token A, half
      of the proportional share, because the normalized value halves the pool
      value. */
  lemma DepositValueCheckFailsWithoutTokenB(ext: Externals)
    requires ext.ceilDiv.onU128(500, 100) == Some(5)
    requires ext.ceilDiv.onU128(500, 1) == Some(500)
    ensures CheckPoolValueFromDeposit(ext, UnitPriceCurve(), 10, 100, 100, 0) == Some(false)
  {
    var c := CP.ConstantPriceCurve(1);
    assert CP.NormalizedValue(c, 100, 0) == Some(50);
    assert CP.PoolTokensToTradingTokens(c, ext.ceilDiv, 10, 100, 100, 0, Ceiling) == Some(TradingTokenResult(5, 5));
  }

  /** A constant-price swap leaves the normalized value exactly as it was, so
      the swap check holds whenever its steps succeed. */
  lemma {:induction false} ConstantPriceSwapKeepsValue(ext: Externals, c: CP.ConstantPriceCurve, sourceTokenAmount: U128,
                                                       swapSourceAmount: U128, swapDestinationAmount: U128,
                                                       tradeDirection: TradeDirection)
    ensures CheckCurveValueFromSwap(ext, ConstantPriceCurve(c), sourceTokenAmount, swapSourceAmount,
                                    swapDestinationAmount, tradeDirection) != Some(false)
  {
    var swap := CP.SwapWithoutFees(c, sourceTokenAmount, swapSourceAmount, swapDestinationAmount, tradeDirection);
    if swap.Some? {
      var results := swap.value;
      CP.SwapPreservesWeightedValue(c, sourceTokenAmount, swapSourceAmount, swapDestinationAmount, tradeDirection);
      var (a, b) := Reserves(tradeDirection, swapSourceAmount, swapDestinationAmount);
      if swapSourceAmount + results.sourceAmountSwapped <= U128_MAX && results.destinationAmountSwapped <= swapDestinationAmount {
        var newSource: U128 := swapSourceAmount + results.sourceAmountSwapped;
        var newDestination: U128 := swapDestinationAmount - results.destinationAmountSwapped;
        var (newA, newB) := Reserves(tradeDirection, newSource, newDestination);
        if CP.NormalizedValue(c, a, b).Some? && CP.NormalizedValue(c, newA, newB).Some? {
          CP.NormalizedValueFollowsWeight(c, a, b, newA, newB);
        }
      }
    }
  }

  /** The integer core of the withdrawal check: after paying out
      `wa = floor(pool * tv / s)` token A and `wb = floor(pool * tv / (p * s))`
      token B, the normalized value `nv` of what remains is at least the
      remaining supply's share of the old value `tv`. */
  lemma {:induction false} WithdrawShareBound(a: nat, b: nat, p: nat, pool: nat, s: nat, tv: nat, wa: nat, wb: nat, nv: nat)
    requires 0 < p && 0 < s && pool <= s && wa <= a && wb <= b
    requires 2 * tv <= a + b * p
    requires IsFloorQuotient(wa, pool * tv, s)
    requires IsFloorQuotient(wb, pool * tv, p * s)
    requires (a - wa) + (b - wb) * p <= 2 * nv + 1
    ensures nv * s >= tv * (s - pool)
  {
    PayoutBWorthAtMostPayoutA(p, s, pool * tv, wa, wb);
    RemainingValueBound(a, b, p, tv, wa, wb, nv);
    ScaledRemainingValue(pool, s, tv, wa, nv);
  }

  /** Token B paid out is worth no more than token A paid out. */
  lemma PayoutBWorthAtMostPayoutA(p: nat, s: nat, share: nat, wa: nat, wb: nat)
    requires 0 < p && 0 < s
    requires IsFloorQuotient(wa, share, s)
    requires IsFloorQuotient(wb, share, p * s)
    ensures wb * p <= wa
  {
    MulAssoc(wb, p, s);
    MulCancelStrict(wb * p, wa + 1, s);
  }

  /** Half of what remains is worth at least the old normalized value less
      the token A paid out. */
  lemma RemainingValueBound(a: nat, b: nat, p: nat, tv: nat, wa: nat, wb: nat, nv: nat)
    requires wa <= a && wb <= b && wb * p <= wa
    requires 2 * tv <= a + b * p
    requires (a - wa) + (b - wb) * p <= 2 * nv + 1
    ensures nv >= tv - wa
  {
    SplitProduct(p, b, -(wb as int));
  }

  /** Scaling by the supply: the token A paid out is at most the withdrawn
      share of the value. */
  lemma ScaledRemainingValue(pool: nat, s: nat, tv: nat, wa: nat, nv: nat)
    requires 0 < s && IsFloorQuotient(wa, pool * tv, s)
    requires nv >= tv - wa
    ensures nv * s >= tv * (s - pool)
  {
    MulLeMonotone(tv - wa, nv, s);
    SplitProduct(s, tv, -(wa as int));
    SplitProduct(tv, s, -(pool as int));
  }

  lemma RealOfProduct(x: int, y: int)
    ensures (x as real) * (y as real) == (x * y) as real
  {
  }

  lemma ShareValueFromIntegers(newValue: nat, supply: nat, value: nat, newSupply: nat)
    requires newValue * supply >= value * newSupply
    ensures ShareValueKept(newValue as real, supply, value as real, newSupply)
  {
    RealOfProduct(newValue, supply);
    RealOfProduct(value, newSupply);
  }

  /** A constant-price withdrawal never lowers the normalized value per pool
      token, so the withdrawal check holds whenever its steps succeed. */
  lemma {:induction false} ConstantPriceWithdrawKeepsShareValue(ext: Externals, c: CP.ConstantPriceCurve, poolTokenAmount: U128,
                                                                poolTokenSupply: U128, swapTokenAAmount: U128,
                                                                swapTokenBAmount: U128)
    ensures CheckPoolValueFromWithdraw(ext, ConstantPriceCurve(c), poolTokenAmount, poolTokenSupply, swapTokenAAmount,
                                       swapTokenBAmount) != Some(false)
  {
    var check := CheckPoolValueFromWithdraw(ext, ConstantPriceCurve(c), poolTokenAmount, poolTokenSupply, swapTokenAAmount,
                                            swapTokenBAmount);
    var withdrawn := CP.PoolTokensToTradingTokens(c, ext.ceilDiv, poolTokenAmount, poolTokenSupply, swapTokenAAmount,
                                                  swapTokenBAmount, Floor);
    assert PoolTokensToTradingTokens(ext, ConstantPriceCurve(c), poolTokenAmount, poolTokenSupply, swapTokenAAmount,
                                     swapTokenBAmount, Floor) == withdrawn;
    if withdrawn.None? {
      assert check.None?;
    } else if withdrawn.value.tokenAAmount > swapTokenAAmount || withdrawn.value.tokenBAmount > swapTokenBAmount
              || poolTokenAmount > poolTokenSupply {
      assert check.None?;
    } else {
      var tv := CP.NormalizedValue(c, swapTokenAAmount, swapTokenBAmount).value;
      var wa := withdrawn.value.tokenAAmount;
      var wb := withdrawn.value.tokenBAmount;
      var newA: U128 := swapTokenAAmount - wa;
      var newB: U128 := swapTokenBAmount - wb;
      var newValue := CP.NormalizedValue(c, newA, newB);
      assert NormalizedValue(ext, ConstantPriceCurve(c), swapTokenAAmount, swapTokenBAmount) == Some(tv as real);
      assert NormalizedValue(ext, ConstantPriceCurve(c), newA, newB)
          == if newValue.Some? then Some(newValue.value as real) else None;
      if newValue.None? {
        assert check.None?;
      } else {
        WithdrawShareBound(swapTokenAAmount, swapTokenBAmount, c.tokenBPrice, poolTokenAmount, poolTokenSupply,
                           tv, wa, wb, newValue.value);
        ShareValueFromIntegers(newValue.value, poolTokenSupply, tv, poolTokenSupply - poolTokenAmount);
        assert check == Some(ShareValueKept(newValue.value as real, poolTokenSupply, tv as real,
                                            poolTokenSupply - poolTokenAmount));
      }
    }
  }
}
