/** The deployer's policy on which curves and fees a new pool may use
    (swap_constraints.rs). */
module SwapConstraints {
  import opened Wrappers
  import opened Errors
  import opened FeeMath
  import opened Base

  /** An account address: 32 bytes, compared as a whole. */
  datatype Pubkey = Pubkey(bytes: seq<bv8>)

  /** The policy: an optional required owner of the fee account, the curve
      types a pool may use, and the minimum fees. */
  datatype SwapConstraints = SwapConstraints(ownerKey: Option<Pubkey>, validCurveTypes: seq<CurveType>, fees: Fees)

  /** The policy in force in this build: none. */
  const SWAP_CONSTRAINTS: Option<SwapConstraints> := None

  /** `slice::contains`: the list is scanned from its front for an element equal
      to the curve type. */
  function Contains(curveTypes: seq<CurveType>, curveType: CurveType): (r: bool)
    ensures r <==> exists i :: 0 <= i < |curveTypes| && curveTypes[i] == curveType
  {
    if |curveTypes| == 0 then false
    else curveTypes[0] == curveType || Contains(curveTypes[1..], curveType)
  }

  /** A curve is accepted exactly when its type is one of the listed types. */
  function ValidateCurve(constraints: SwapConstraints, swapCurve: SwapCurve): (r: Result<(), SwapError>)
    ensures r.Ok? <==> exists i :: 0 <= i < |constraints.validCurveTypes| && constraints.validCurveTypes[i] == swapCurve.curveType
    ensures r.Err? ==> r.error == UnsupportedCurveType
  {
    if !Contains(constraints.validCurveTypes, swapCurve.curveType) then Err(UnsupportedCurveType) else Ok(())
  }

  /** Fees are accepted when the trade, owner-trade and owner-withdraw
      numerators are at least the policy's over the same denominators, and the
      host fee is exactly the policy's. */
  function ValidateFees(constraints: SwapConstraints, fees: Fees): (r: Result<(), SwapError>)
    ensures r.Ok? <==>
              && fees.tradeFeeNumerator >= constraints.fees.tradeFeeNumerator
              && fees.tradeFeeDenominator == constraints.fees.tradeFeeDenominator
              && fees.ownerTradeFeeNumerator >= constraints.fees.ownerTradeFeeNumerator
              && fees.ownerTradeFeeDenominator == constraints.fees.ownerTradeFeeDenominator
              && fees.ownerWithdrawFeeNumerator >= constraints.fees.ownerWithdrawFeeNumerator
              && fees.ownerWithdrawFeeDenominator == constraints.fees.ownerWithdrawFeeDenominator
              && fees.hostFeeNumerator == constraints.fees.hostFeeNumerator
              && fees.hostFeeDenominator == constraints.fees.hostFeeDenominator
    ensures r.Err? ==> r.error == InvalidFee
  {
    var floor := constraints.fees;
    if && fees.tradeFeeNumerator >= floor.tradeFeeNumerator
       && fees.tradeFeeDenominator == floor.tradeFeeDenominator
       && fees.ownerTradeFeeNumerator >= floor.ownerTradeFeeNumerator
       && fees.ownerTradeFeeDenominator == floor.ownerTradeFeeDenominator
       && fees.ownerWithdrawFeeNumerator >= floor.ownerWithdrawFeeNumerator
       && fees.ownerWithdrawFeeDenominator == floor.ownerWithdrawFeeDenominator
       && fees.hostFeeNumerator == floor.hostFeeNumerator
       && fees.hostFeeDenominator == floor.hostFeeDenominator
    then Ok(())
    else Err(InvalidFee)
  }

  /** Pool creation under an optional policy: the fee account owner is checked
      first, then the curve, then the fees. */
  function ValidateSwapConstraints(swapCurve: SwapCurve, fees: Fees, feeAccountOwner: Pubkey,
                                   constraints: Option<SwapConstraints>): (r: Result<(), SwapError>)
    ensures constraints.None? ==> r == Ok(())
    ensures constraints.Some? ==>
              var c := constraints.value;
              var ownerMatches := c.ownerKey.None? || c.ownerKey.value == feeAccountOwner;
              && (!ownerMatches ==> r == Err(InvalidOwner))
              && (ownerMatches && ValidateCurve(c, swapCurve).Err? ==> r == Err(UnsupportedCurveType))
              && (ownerMatches && ValidateCurve(c, swapCurve).Ok? ==> r == ValidateFees(c, fees))
  {
    match constraints
    case None => Ok(())
    case Some(c) =>
      if c.ownerKey.Some? && c.ownerKey.value != feeAccountOwner then Err(InvalidOwner)
      else
        var _ :- ValidateCurve(c, swapCurve);
        var _ :- ValidateFees(c, fees);
        Ok(())
  }

  /** Raising the trade, owner-trade or owner-withdraw numerator of accepted
      fees keeps them accepted. */
  lemma RaisedFeesStayAccepted(constraints: SwapConstraints, fees: Fees, raised: Fees)
    requires ValidateFees(constraints, fees).Ok?
    requires raised.tradeFeeNumerator >= fees.tradeFeeNumerator
    requires raised.ownerTradeFeeNumerator >= fees.ownerTradeFeeNumerator
    requires raised.ownerWithdrawFeeNumerator >= fees.ownerWithdrawFeeNumerator
    requires raised.tradeFeeDenominator == fees.tradeFeeDenominator
    requires raised.ownerTradeFeeDenominator == fees.ownerTradeFeeDenominator
    requires raised.ownerWithdrawFeeDenominator == fees.ownerWithdrawFeeDenominator
    requires raised.hostFeeNumerator == fees.hostFeeNumerator
    requires raised.hostFeeDenominator == fees.hostFeeDenominator
    ensures ValidateFees(constraints, raised).Ok?
  {
  }

  /** The host fee admits no variation: changing its numerator or denominator
      makes accepted fees rejected. */
  lemma HostFeeIsFixed(constraints: SwapConstraints, fees: Fees, changed: Fees)
    requires ValidateFees(constraints, fees).Ok?
    requires changed.hostFeeNumerator != fees.hostFeeNumerator || changed.hostFeeDenominator != fees.hostFeeDenominator
    ensures ValidateFees(constraints, changed) == Err(InvalidFee)
  {
  }

  /** The policy's own fees are accepted by it. */
  lemma PolicyFeesAreAccepted(constraints: SwapConstraints)
    ensures ValidateFees(constraints, constraints.fees).Ok?
  {
  }

  /** With the policy of this build, every pool configuration is accepted. */
  lemma NoPolicyIsEnforced(swapCurve: SwapCurve, fees: Fees, feeAccountOwner: Pubkey)
    ensures ValidateSwapConstraints(swapCurve, fees, feeAccountOwner, SWAP_CONSTRAINTS) == Ok(())
  {
  }
}
