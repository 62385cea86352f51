/** The fee schedule of a pool (state/fees.rs): four fractions, each a
    numerator/denominator pair of u64, and the forward and inverse fee
    computations over u128 amounts. */
module FeeMath {
  import opened Wrappers
  import opened Uint
  import opened Errors
  import opened Arith

  datatype Fees = Fees(
    /** Trade fee: stays in the pool and raises the value of pool tokens. */
    tradeFeeNumerator: U64,
    tradeFeeDenominator: U64,
    /** Owner trade fee: stays in the pool; its equivalent is minted to the owner. */
    ownerTradeFeeNumerator: U64,
    ownerTradeFeeDenominator: U64,
    /** Owner withdraw fee: pool tokens sent to the owner on every withdrawal. */
    ownerWithdrawFeeNumerator: U64,
    ownerWithdrawFeeDenominator: U64,
    /** Host fee: a share of the owner trade fee, sent to the hosting front end. */
    hostFeeNumerator: U64,
    hostFeeDenominator: U64)

  /** A fraction is acceptable when it is switched off (0/0) or strictly below one. */
  predicate IsValidFraction(numerator: nat, denominator: nat) {
    (numerator == 0 && denominator == 0) || numerator < denominator
  }

  /** A fee is switched off when its numerator or its denominator is zero. */
  predicate IsDisabled(numerator: nat, denominator: nat) {
    numerator == 0 || denominator == 0
  }

  function ValidateFraction(numerator: U64, denominator: U64): (r: Result<(), SwapError>)
    ensures r.Ok? <==> IsValidFraction(numerator, denominator)
    ensures r.Err? ==> r.error == InvalidFee
  {
    if denominator == 0 && numerator == 0 then Ok(())
    else if numerator >= denominator then Err(InvalidFee)
    else Ok(())
  }

  /** Boundary cases: a 100% fee and a fee over zero are refused, a disabled fee is not. */
  lemma ValidateFractionBoundaries()
    ensures ValidateFraction(5, 5) == Err(InvalidFee)
    ensures ValidateFraction(1, 0) == Err(InvalidFee)
    ensures ValidateFraction(0, 0) == Ok(())
    ensures ValidateFraction(0, 5) == Ok(())
  {
  }

  /** `fee` is the floor of `product / denominator`, raised to one when that floor is zero. */
  predicate IsMinimumOneFloorFee(fee: nat, product: nat, denominator: nat) {
    && 1 <= fee
    && product < (fee + 1) * denominator
    && (fee == 1 || fee * denominator <= product)
  }

  /** What a fee computation returns for `amount` under the fraction numerator/denominator. */
  predicate FeeBehaviour(r: Option<U128>, amount: nat, numerator: nat, denominator: nat) {
    && (IsDisabled(numerator, denominator) ==> r == Some(0))
    && (!IsDisabled(numerator, denominator) ==> (r.Some? <==> amount * numerator <= U128_MAX))
    && (!IsDisabled(numerator, denominator) && r.Some? ==>
          IsMinimumOneFloorFee(r.value, amount * numerator, denominator))
  }

  function CalculateFee(amount: U128, feeNumerator: U128, feeDenominator: U128): (r: Option<U128>)
    ensures FeeBehaviour(r, amount, feeNumerator, feeDenominator)
  {
    if feeNumerator == 0 || feeDenominator == 0 then Some(0)
    else
      var product :- CheckedMul(amount, feeNumerator);
      // checked_div cannot fail here: the denominator is not zero
      var fee := product / feeDenominator;
      FloorDivBounds(product, feeDenominator);
      if fee == 0 then Some(1) else Some(fee)
  }

  /** Under a fraction strictly below one, the fee on a non-zero amount never exceeds it. */
  lemma {:induction false} FeeNeverExceedsAmount(amount: U128, feeNumerator: U128, feeDenominator: U128)
    requires 0 < feeNumerator < feeDenominator && 1 <= amount
    requires CalculateFee(amount, feeNumerator, feeDenominator).Some?
    ensures CalculateFee(amount, feeNumerator, feeDenominator).value <= amount
  {
    var fee := CalculateFee(amount, feeNumerator, feeDenominator).value;
    assert amount * feeNumerator < amount * feeDenominator by {
      MulStrictlyMonotone(amount, feeNumerator, feeDenominator);
    }
    if fee != 1 {
      MulCancel(fee, amount, feeDenominator);
    }
  }

  /** An enabled fee charges at least one token, even on a zero amount. */
  lemma CalculateFeeChargesAtLeastOne(feeNumerator: U128, feeDenominator: U128)
    requires 0 < feeNumerator && 0 < feeDenominator
    ensures CalculateFee(0, feeNumerator, feeDenominator) == Some(1)
  {
  }

  /** `q` is the ceiling of `n / d`: the least multiplier of `d` that reaches `n`. */
  predicate IsCeilQuotient(q: nat, n: nat, d: nat) {
    n <= q * d < n + d
  }

  function CeilDiv(dividend: U128, divisor: U128): (r: Option<U128>)
    ensures r.Some? <==> divisor > 0 && dividend + divisor <= U128_MAX
    ensures r.Some? ==> IsCeilQuotient(r.value, dividend, divisor)
  {
    var sum :- CheckedAdd(dividend, divisor);
    var lessOne :- CheckedSub(sum, 1);
    var quotient :- CheckedDiv(lessOne, divisor);
    FloorDivBounds(lessOne, divisor);
    Some(quotient)
  }

  function PreFeeAmount(postFeeAmount: U128, feeNumerator: U128, feeDenominator: U128): (r: Option<U128>)
    ensures IsDisabled(feeNumerator, feeDenominator) ==> r == Some(postFeeAmount)
    ensures (!IsDisabled(feeNumerator, feeDenominator) && (feeNumerator == feeDenominator || postFeeAmount == 0))
              ==> r == Some(0)
    ensures 0 < feeDenominator < feeNumerator && postFeeAmount != 0 ==> r.None?
    ensures 0 < feeNumerator < feeDenominator && postFeeAmount != 0 ==>
              && (r.Some? <==> postFeeAmount * feeDenominator + (feeDenominator - feeNumerator) <= U128_MAX)
              && (r.Some? ==> IsCeilQuotient(r.value, postFeeAmount * feeDenominator, feeDenominator - feeNumerator))
  {
    if feeNumerator == 0 || feeDenominator == 0 then Some(postFeeAmount)
    else if feeNumerator == feeDenominator || postFeeAmount == 0 then Some(0)
    else
      var numerator :- CheckedMul(postFeeAmount, feeDenominator);
      var denominator :- CheckedSub(feeDenominator, feeNumerator);
      CeilDiv(numerator, denominator)
  }

  /** Round trip: taking the forward fee off the pre-fee amount leaves at least
      the requested post-fee amount. */
  lemma {:induction false} PreFeeAmountCoversFee(postFeeAmount: U128, feeNumerator: U128, feeDenominator: U128)
    requires 0 < feeNumerator < feeDenominator && 0 < postFeeAmount
    requires PreFeeAmount(postFeeAmount, feeNumerator, feeDenominator).Some?
    requires CalculateFee(PreFeeAmount(postFeeAmount, feeNumerator, feeDenominator).value, feeNumerator, feeDenominator).Some?
    ensures var pre := PreFeeAmount(postFeeAmount, feeNumerator, feeDenominator).value;
            postFeeAmount + CalculateFee(pre, feeNumerator, feeDenominator).value <= pre
  {
    var pre := PreFeeAmount(postFeeAmount, feeNumerator, feeDenominator).value;
    var fee := CalculateFee(pre, feeNumerator, feeDenominator).value;
    assert IsCeilQuotient(pre, postFeeAmount * feeDenominator, feeDenominator - feeNumerator);
    assert IsMinimumOneFloorFee(fee, pre * feeNumerator, feeDenominator);
    CeilingCoversFee(postFeeAmount, pre, fee, feeNumerator, feeDenominator);
  }

  /** The arithmetic behind PreFeeAmountCoversFee. */
  lemma CeilingCoversFee(post: nat, pre: nat, fee: nat, n: nat, d: nat)
    requires 0 < n < d && 0 < post
    requires post * d <= pre * (d - n)
    requires 1 <= fee && (fee == 1 || fee * d <= pre * n)
    ensures post + fee <= pre
  {
    var rest := d - n;
    var whole, kept, taken := pre * d, pre * rest, pre * n;
    assert whole == kept + taken by { SplitProduct(pre, rest, n); }
    var owed := post * d;
    if fee == 1 {
      assert owed > 0 by { PositiveProduct(post, d); }
      assert pre > 0 by { PositiveFactor(pre, rest); }
      assert taken > 0 by { PositiveProduct(pre, n); }
      assert owed < whole;
      MulCancelStrict(post, pre, d);
    } else {
      assert (post + fee) * d == owed + fee * d by { SplitProduct(d, post, fee); }
      MulCancel(post + fee, pre, d);
    }
  }

  function Validate(fees: Fees): (r: Result<(), SwapError>)
    ensures r.Ok? <==>
      && IsValidFraction(fees.tradeFeeNumerator, fees.tradeFeeDenominator)
      && IsValidFraction(fees.ownerTradeFeeNumerator, fees.ownerTradeFeeDenominator)
      && IsValidFraction(fees.ownerWithdrawFeeNumerator, fees.ownerWithdrawFeeDenominator)
      && IsValidFraction(fees.hostFeeNumerator, fees.hostFeeDenominator)
    ensures r.Err? ==> r.error == InvalidFee
  {
    var _ :- ValidateFraction(fees.tradeFeeNumerator, fees.tradeFeeDenominator);
    var _ :- ValidateFraction(fees.ownerTradeFeeNumerator, fees.ownerTradeFeeDenominator);
    var _ :- ValidateFraction(fees.ownerWithdrawFeeNumerator, fees.ownerWithdrawFeeDenominator);
    var _ :- ValidateFraction(fees.hostFeeNumerator, fees.hostFeeDenominator);
    Ok(())
  }

  /** The host fee is charged on the owner fee, at the host fraction. */
  function HostFee(fees: Fees, ownerFee: U128): (r: Option<U128>)
    ensures FeeBehaviour(r, ownerFee, fees.hostFeeNumerator, fees.hostFeeDenominator)
    ensures Validate(fees).Ok? && fees.hostFeeNumerator > 0 && ownerFee >= 1 && r.Some? ==> 1 <= r.value <= ownerFee
  {
    var fee := CalculateFee(ownerFee, fees.hostFeeNumerator, fees.hostFeeDenominator);
    if 0 < fees.hostFeeNumerator < fees.hostFeeDenominator && 1 <= ownerFee && fee.Some? then
      FeeNeverExceedsAmount(ownerFee, fees.hostFeeNumerator, fees.hostFeeDenominator);
      fee
    else
      fee
  }

  /** The trading fee, in trading tokens, at the trade fraction. */
  function TradingFee(fees: Fees, tradingTokens: U128): (r: Option<U128>)
    ensures FeeBehaviour(r, tradingTokens, fees.tradeFeeNumerator, fees.tradeFeeDenominator)
    ensures Validate(fees).Ok? && fees.tradeFeeNumerator > 0 && tradingTokens >= 1 && r.Some? ==> 1 <= r.value <= tradingTokens
  {
    var fee := CalculateFee(tradingTokens, fees.tradeFeeNumerator, fees.tradeFeeDenominator);
    if 0 < fees.tradeFeeNumerator < fees.tradeFeeDenominator && 1 <= tradingTokens && fee.Some? then
      FeeNeverExceedsAmount(tradingTokens, fees.tradeFeeNumerator, fees.tradeFeeDenominator);
      fee
    else
      fee
  }

  /** The owner trading fee, in trading tokens, at the owner trade fraction. */
  function OwnerTradingFee(fees: Fees, tradingTokens: U128): (r: Option<U128>)
    ensures FeeBehaviour(r, tradingTokens, fees.ownerTradeFeeNumerator, fees.ownerTradeFeeDenominator)
    ensures Validate(fees).Ok? && fees.ownerTradeFeeNumerator > 0 && tradingTokens >= 1 && r.Some? ==> 1 <= r.value <= tradingTokens
  {
    var fee := CalculateFee(tradingTokens, fees.ownerTradeFeeNumerator, fees.ownerTradeFeeDenominator);
    if 0 < fees.ownerTradeFeeNumerator < fees.ownerTradeFeeDenominator && 1 <= tradingTokens && fee.Some? then
      FeeNeverExceedsAmount(tradingTokens, fees.ownerTradeFeeNumerator, fees.ownerTradeFeeDenominator);
      fee
    else
      fee
  }

  /** The owner withdraw fee, in pool tokens, at the owner withdraw fraction. */
  function OwnerWithdrawFee(fees: Fees, poolTokens: U128): (r: Option<U128>)
    ensures FeeBehaviour(r, poolTokens, fees.ownerWithdrawFeeNumerator, fees.ownerWithdrawFeeDenominator)
    ensures Validate(fees).Ok? && fees.ownerWithdrawFeeNumerator > 0 && poolTokens >= 1 && r.Some? ==> 1 <= r.value <= poolTokens
  {
    var fee := CalculateFee(poolTokens, fees.ownerWithdrawFeeNumerator, fees.ownerWithdrawFeeDenominator);
    if 0 < fees.ownerWithdrawFeeNumerator < fees.ownerWithdrawFeeDenominator && 1 <= poolTokens && fee.Some? then
      FeeNeverExceedsAmount(poolTokens, fees.ownerWithdrawFeeNumerator, fees.ownerWithdrawFeeDenominator);
      fee
    else
      fee
  }

  /** The combined fraction tn/td + on/od written over the common denominator td*od. */
  function CombinedNumerator(fees: Fees): nat {
    fees.tradeFeeNumerator * fees.ownerTradeFeeDenominator + fees.ownerTradeFeeNumerator * fees.tradeFeeDenominator
  }

  function CombinedDenominator(fees: Fees): (d: U128) {
    ProductFitsU128(fees.tradeFeeDenominator, fees.ownerTradeFeeDenominator);
    fees.tradeFeeDenominator * fees.ownerTradeFeeDenominator
  }

  /** The input needed so that, after the trade and owner trade fees, `postFeeAmount` is left. */
  function PreTradingFeeAmount(fees: Fees, postFeeAmount: U128): (r: Option<U128>)
    ensures IsDisabled(fees.tradeFeeNumerator, fees.tradeFeeDenominator) ==>
              r == PreFeeAmount(postFeeAmount, fees.ownerTradeFeeNumerator, fees.ownerTradeFeeDenominator)
    ensures !IsDisabled(fees.tradeFeeNumerator, fees.tradeFeeDenominator)
              && IsDisabled(fees.ownerTradeFeeNumerator, fees.ownerTradeFeeDenominator) ==>
              r == PreFeeAmount(postFeeAmount, fees.tradeFeeNumerator, fees.tradeFeeDenominator)
    ensures !IsDisabled(fees.tradeFeeNumerator, fees.tradeFeeDenominator)
              && !IsDisabled(fees.ownerTradeFeeNumerator, fees.ownerTradeFeeDenominator) ==>
              r == if CombinedNumerator(fees) <= U128_MAX
                   then PreFeeAmount(postFeeAmount, CombinedNumerator(fees), CombinedDenominator(fees))
                   else None
  {
    if fees.tradeFeeNumerator == 0 || fees.tradeFeeDenominator == 0 then
      PreFeeAmount(postFeeAmount, fees.ownerTradeFeeNumerator, fees.ownerTradeFeeDenominator)
    else if fees.ownerTradeFeeNumerator == 0 || fees.ownerTradeFeeDenominator == 0 then
      PreFeeAmount(postFeeAmount, fees.tradeFeeNumerator, fees.tradeFeeDenominator)
    else
      // The three checked products are of u64 values and always fit in u128;
      // only the checked addition of the two numerator parts can fail.
      var numerator := CombinedNumerator(fees);
      if numerator <= U128_MAX then
        PreFeeAmount(postFeeAmount, numerator, CombinedDenominator(fees))
      else
        None
  }

  lemma ProductFitsU128(x: U64, y: U64)
    ensures x * y <= U128_MAX
  {
    assert x * y <= U64_MAX * y;
    assert U64_MAX * y <= U64_MAX * U64_MAX;
  }

  /** The floored fee without the minimum of one, zero when the fee is disabled. */
  function FlooredFee(amount: nat, numerator: nat, denominator: nat): nat {
    if IsDisabled(numerator, denominator) then 0 else amount * numerator / denominator
  }

  /** Whether the trade and owner trade fractions together stay below one, so
      that an inverse exists. */
  predicate CombinedTradeFeeBelowOne(fees: Fees) {
    && Validate(fees).Ok?
    && (!IsDisabled(fees.tradeFeeNumerator, fees.tradeFeeDenominator)
        && !IsDisabled(fees.ownerTradeFeeNumerator, fees.ownerTradeFeeDenominator)
        ==> CombinedNumerator(fees) < CombinedDenominator(fees))
  }

  /** Round trip: the pre-fee amount pays both floored trade fees and still
      leaves the requested post-fee amount. */
  lemma {:induction false} PreTradingFeeAmountCoversFees(fees: Fees, postFeeAmount: U128)
    requires CombinedTradeFeeBelowOne(fees) && 0 < postFeeAmount
    requires PreTradingFeeAmount(fees, postFeeAmount).Some?
    ensures var pre := PreTradingFeeAmount(fees, postFeeAmount).value;
            postFeeAmount
              + FlooredFee(pre, fees.tradeFeeNumerator, fees.tradeFeeDenominator)
              + FlooredFee(pre, fees.ownerTradeFeeNumerator, fees.ownerTradeFeeDenominator)
            <= pre
  {
    var pre := PreTradingFeeAmount(fees, postFeeAmount).value;
    var tn, td := fees.tradeFeeNumerator, fees.tradeFeeDenominator;
    var on, od := fees.ownerTradeFeeNumerator, fees.ownerTradeFeeDenominator;
    if IsDisabled(tn, td) {
      SingleFractionCovers(postFeeAmount, pre, on, od);
    } else if IsDisabled(on, od) {
      SingleFractionCovers(postFeeAmount, pre, tn, td);
    } else {
      var n, d := CombinedNumerator(fees), CombinedDenominator(fees);
      assert IsCeilQuotient(pre, postFeeAmount * d, d - n);
      CombinedCovers(postFeeAmount, pre, tn, td, on, od);
    }
  }

  /** With both trade fees on, the inverse can fall short of the fees actually
      charged: each rounds up to one token, which the combined inverse does
      not account for. */
  lemma CombinedInverseUndercharges()
    ensures var fees := Fees(1, 100, 1, 100, 0, 0, 0, 0);
            && PreTradingFeeAmount(fees, 1) == Some(2)
            && TradingFee(fees, 2) == Some(1)
            && OwnerTradingFee(fees, 2) == Some(1)
            && 1 + 1 + 1 > 2
  {
    var fees := Fees(1, 100, 1, 100, 0, 0, 0, 0);
    assert CeilDiv(10000, 9800) == Some(2);
  }

  /** Validation checks each fraction on its own, so the trade and owner trade
      fractions may together reach one: half and half is accepted, and the
      inverse then claims that nothing needs to be paid for 100 tokens. */
  lemma ValidatedFeesCanZeroTheInverse()
    ensures var fees := Fees(1, 2, 1, 2, 0, 0, 0, 0);
            && Validate(fees).Ok?
            && !CombinedTradeFeeBelowOne(fees)
            && PreTradingFeeAmount(fees, 100) == Some(0)
  {
    var fees := Fees(1, 2, 1, 2, 0, 0, 0, 0);
    assert CombinedNumerator(fees) == 4 && CombinedDenominator(fees) == 4;
  }

  /** With validated fractions of one half and two thirds, together above one,
      the inverse fails. */
  lemma ValidatedFeesCanFailTheInverse()
    ensures var fees := Fees(1, 2, 2, 3, 0, 0, 0, 0);
            && Validate(fees).Ok?
            && !CombinedTradeFeeBelowOne(fees)
            && PreTradingFeeAmount(fees, 100).None?
  {
    var fees := Fees(1, 2, 2, 3, 0, 0, 0, 0);
    assert CombinedNumerator(fees) == 7 && CombinedDenominator(fees) == 6;
  }

  /** An enabled fee whose floor is at least one is that floor. */
  lemma CalculateFeeIsFloor(amount: U128, feeNumerator: U128, feeDenominator: U128)
    requires !IsDisabled(feeNumerator, feeDenominator)
    requires CalculateFee(amount, feeNumerator, feeDenominator).Some?
    requires amount * feeNumerator / feeDenominator >= 1
    ensures CalculateFee(amount, feeNumerator, feeDenominator).value == amount * feeNumerator / feeDenominator
  {
  }

  /** Round trip with the fees the program charges: the pre-fee amount pays the
      trade fee and the owner trade fee and leaves the requested amount. With
      a single fee on this always holds; with both on it holds when each
      floored fee is at least one token. */
  lemma {:induction false} PreTradingFeeAmountCoversChargedFees(fees: Fees, postFeeAmount: U128)
    requires CombinedTradeFeeBelowOne(fees) && 0 < postFeeAmount
    requires PreTradingFeeAmount(fees, postFeeAmount).Some?
    requires var pre := PreTradingFeeAmount(fees, postFeeAmount).value;
             TradingFee(fees, pre).Some? && OwnerTradingFee(fees, pre).Some?
    requires var pre := PreTradingFeeAmount(fees, postFeeAmount).value;
             !IsDisabled(fees.tradeFeeNumerator, fees.tradeFeeDenominator)
             && !IsDisabled(fees.ownerTradeFeeNumerator, fees.ownerTradeFeeDenominator)
             ==> FlooredFee(pre, fees.tradeFeeNumerator, fees.tradeFeeDenominator) >= 1
                 && FlooredFee(pre, fees.ownerTradeFeeNumerator, fees.ownerTradeFeeDenominator) >= 1
    ensures var pre := PreTradingFeeAmount(fees, postFeeAmount).value;
            postFeeAmount + TradingFee(fees, pre).value + OwnerTradingFee(fees, pre).value <= pre
  {
    var pre := PreTradingFeeAmount(fees, postFeeAmount).value;
    var tn, td := fees.tradeFeeNumerator, fees.tradeFeeDenominator;
    var on, od := fees.ownerTradeFeeNumerator, fees.ownerTradeFeeDenominator;
    if IsDisabled(tn, td) && IsDisabled(on, od) {
      assert pre == postFeeAmount;
    } else if IsDisabled(tn, td) {
      PreFeeAmountCoversFee(postFeeAmount, on, od);
    } else if IsDisabled(on, od) {
      PreFeeAmountCoversFee(postFeeAmount, tn, td);
    } else {
      PreTradingFeeAmountCoversFees(fees, postFeeAmount);
      CalculateFeeIsFloor(pre, tn, td);
      CalculateFeeIsFloor(pre, on, od);
    }
  }

  /** The arithmetic behind the combined branch of PreTradingFeeAmountCoversFees. */
  lemma CombinedCovers(post: nat, pre: nat, tn: nat, td: nat, on: nat, od: nat)
    requires td > 0 && od > 0 && tn * od + on * td < td * od
    requires post * (td * od) <= pre * (td * od - (tn * od + on * td))
    ensures post + pre * tn / td + pre * on / od <= pre
  {
    var n, d := tn * od + on * td, td * od;
    PositiveProduct(td, od);
    FlooredSharesBound(pre, tn, td, on, od);
    CoverStep(post, pre * tn / td, pre * on / od, pre, d, n);
  }

  /** Both floored shares, scaled by the common denominator, stay below the exact combined share. */
  lemma FlooredSharesBound(pre: nat, tn: nat, td: nat, on: nat, od: nat)
    requires td > 0 && od > 0
    ensures (pre * tn / td) * (td * od) + (pre * on / od) * (td * od) <= pre * (tn * od + on * td)
  {
    ScaledFloorBound(pre, tn, td, od);
    ScaledFloorBound(pre, on, od, td);
    assert od * td == td * od;
    SplitProduct(pre, tn * od, on * td);
    MulAssoc(pre, tn, od);
    MulAssoc(pre, on, td);
  }

  /** A floored share, scaled back by its denominator and another factor, stays below the exact share. */
  lemma ScaledFloorBound(pre: nat, t: nat, dd: nat, k: nat)
    requires dd > 0
    ensures (pre * t / dd) * (dd * k) <= (pre * t) * k
  {
    var f := pre * t / dd;
    FloorDivBounds(pre * t, dd);
    MulLeMonotone(f * dd, pre * t, k);
    MulAssoc(f, dd, k);
  }

  lemma CoverStep(post: int, f1: int, f2: int, pre: int, d: int, n: int)
    requires 0 < d && n < d
    requires post * d <= pre * (d - n)
    requires f1 * d + f2 * d <= pre * n
    ensures post + f1 + f2 <= pre
  {
    assert pre * d == pre * (d - n) + pre * n by { SplitProduct(pre, d - n, n); }
    assert (post + f1 + f2) * d == post * d + f1 * d + f2 * d by {
      SplitProduct(d, post + f1, f2);
      SplitProduct(d, post, f1);
    }
    MulCancel(post + f1 + f2, pre, d);
  }

  /** One active fraction n/d below one: ceil(post*d/(d-n)) pays its floored fee. */
  lemma {:induction false} SingleFractionCovers(post: nat, pre: nat, n: nat, d: nat)
    requires IsValidFraction(n, d) && 0 < post
    requires IsDisabled(n, d) ==> pre == post
    requires !IsDisabled(n, d) ==> IsCeilQuotient(pre, post * d, d - n)
    ensures post + FlooredFee(pre, n, d) <= pre
  {
    if !IsDisabled(n, d) {
      var f := pre * n / d;
      FloorDivBounds(pre * n, d);
      assert pre * d == pre * (d - n) + pre * n;
      assert (post + f) * d <= pre * d;
      MulCancel(post + f, pre, d);
    }
  }
}
