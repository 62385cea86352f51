# Token-swap curve and fee arithmetic in Dafny

This project models the arithmetic core of the `anchor-token-swap` Solana
program. A calculation fails when one of its checked u128 or 256-bit
operations overflows or divides by zero, when `map_zero_to_none` meets a zero
result (an A-to-B constant-price swap of less than the price, say), or when a
256-bit result does not narrow to u128. The model therefore writes every
operation as a Dafny function over bounded naturals (`U64`, `U128`, `U256`)
that returns `Option` or `Result`.
The model covers:

- **Fees** (`FeeMath`): validating the four fee fractions, the forward fee with its minimum of one token, the inverse "pre-fee" amount computed by ceiling division, and the combined trade-plus-owner fraction.
- **Constant-price curve** (`ConstantPrice`): the fixed-rate swap (it takes back the remainder of the division), the price-weighted pool-token conversions, the single-sided deposit and withdrawal formula in 256-bit arithmetic, `normalized_value`, and validation.
- **Offset curve** (`Offset`): it adds a virtual token B reserve before delegating to the constant-product formulas, and it refuses deposits.
- **Calculator interface** (`Calculator`, `PoolConstants`, `Base`): the shared types, the default methods, the mapping from a `CurveType` to its calculator, and the calculator calls dispatched over the three curves.
- **Deployer policy** (`SwapConstraints`): the owner, curve-type and fee-floor checks.
- **Narrowing** (`Helper`): `to_u64`.
- **Curve checks** (`CurveChecks`): the value-preservation checks of the repository's curve tests. Each is a function that yields `None` when a step aborts (a failed `unwrap`, or u128 overflow or underflow), and otherwise whether its assertion holds.

The curve checks are proved as follows, for the constant-price curve:
- A swap leaves the normalized value exactly unchanged, so the swap check holds (`ConstantPriceSwapKeepsValue`).
- A withdrawal never lowers the normalized value per pool token, so the withdrawal check holds (`ConstantPriceWithdrawKeepsShareValue`).
- Two checks do not hold for every input, and concrete inputs show it:
  - The single-sided deposit conversion can miss its 50 basis point tolerance (`DepositConversionExceedsTolerance`).
  - For a pool holding no token B, a deposit rounded up can lower the token A reserve per pool token (`DepositValueCheckFailsWithoutTokenB`). This happens because the normalized value is half the pool value, and that amount is then paid in token A and again in token B.

The model also relies on code that is not part of it, taken as parameters (see "Left out"):
- The constant-product curve (`constant_product.rs`). The offset curve delegates to its free helpers, and the dispatch calls its calculator. Both enter as records of functions: `ConstantProduct.Helpers` and `ConstantProduct.ProductCurve`.
- The ceiling division of the spl_math library (`SplMath.CeilDiv`).
- The fixed-point `PreciseNumber`. It is represented by the real number it stands for.
- spl_math's `U256`. It is represented by a natural number bounded by 2^256 - 1, and its `as_u128` narrowing, which panics on overflow, is modelled as a failure.

The offset curve overrides `validate_supply` (`curves/offset.rs:118-123`) and
requires only a non-empty token A reserve; the default
(`curves/calculator.rs:45-53`) requires both. The constant-price curve
overrides it the same way (`curves/constant_price.rs:155-161`).

The dispatch functions of `Base` state that each calculator's call is the call
of its own curve (`ConstantPrice`, `Offset`, or the constant-product
parameter), and repeat the main consequences for the constant-price and
offset curves. The check functions of `CurveChecks` state which steps
must have succeeded for the check to reach its assertion; whether the
assertion holds is stated by the lemmas about them.

## Model

| member | source | states |
|---|---|---|
| FeeMath.ValidateFraction | programs/anchor-token-swap/src/state/fees.rs:34-43 | accepts exactly the disabled fraction 0/0 and fractions strictly below one; any refusal is InvalidFee |
| FeeMath.ValidateFractionBoundaries | programs/anchor-token-swap/src/state/fees.rs:35-43 | 5/5 and 1/0 are refused with InvalidFee; 0/0 and 0/5 are accepted |
| FeeMath.CalculateFee | programs/anchor-token-swap/src/state/fees.rs:45-59 | a disabled fee is 0; an enabled fee fails exactly when amount·numerator overflows u128, and is otherwise the floor of amount·numerator/denominator raised to at least 1 |
| FeeMath.CalculateFeeChargesAtLeastOne | programs/anchor-token-swap/src/state/fees.rs:50-57 | an enabled fee on a zero amount is 1 |
| FeeMath.FeeNeverExceedsAmount | programs/anchor-token-swap/src/state/fees.rs:50-58 | under a fraction strictly between 0 and 1, the fee on a non-zero amount is at most the amount |
| FeeMath.CeilDiv | programs/anchor-token-swap/src/state/fees.rs:76-82 | fails exactly for a zero divisor or when dividend + divisor overflows; otherwise returns the least q with q·divisor ≥ dividend |
| FeeMath.PreFeeAmount | programs/anchor-token-swap/src/state/fees.rs:60-75 | identity for a disabled fee; 0 for a 100% fee or a zero amount; failure for a fraction above one; otherwise the ceiling of post·d/(d−n), failing exactly on overflow |
| FeeMath.PreFeeAmountCoversFee | programs/anchor-token-swap/src/state/fees.rs:45-75 | round trip: the pre-fee amount minus its own forward fee is at least the requested post-fee amount |
| FeeMath.Validate | programs/anchor-token-swap/src/state/fees.rs:84-97 | succeeds exactly when all four fractions are valid; any refusal is InvalidFee |
| FeeMath.HostFee | programs/anchor-token-swap/src/state/fees.rs:98-107 | the forward fee on the owner fee at the host fraction: 0 when the host fraction is disabled; for validated fees with a non-zero host numerator and an owner fee of at least 1, between 1 and the owner fee |
| FeeMath.TradingFee | programs/anchor-token-swap/src/state/fees.rs:108-116 | the forward fee at the trade fraction: 0 when the fraction is disabled; for validated fees with a non-zero numerator and an amount of at least 1, between 1 and the amount |
| FeeMath.OwnerTradingFee | programs/anchor-token-swap/src/state/fees.rs:149-157 | the forward fee at the owner trade fraction: 0 when the fraction is disabled; for validated fees with a non-zero numerator and an amount of at least 1, between 1 and the amount |
| FeeMath.OwnerWithdrawFee | programs/anchor-token-swap/src/state/fees.rs:158-166 | the forward fee at the owner withdraw fraction: 0 when the fraction is disabled; for validated fees with a non-zero numerator and an amount of at least 1, between 1 and the amount |
| FeeMath.PreTradingFeeAmount | programs/anchor-token-swap/src/state/fees.rs:118-147 | inverts the owner fraction alone if the trade fee is disabled, the trade fraction alone if the owner fee is disabled, and otherwise the fraction (tn·od + on·td)/(td·od), failing when its numerator overflows |
| FeeMath.PreTradingFeeAmountCoversFees | programs/anchor-token-swap/src/state/fees.rs:118-147 | round trip: when the fractions together stay below one, the pre-fee amount pays both floored trade fees and still leaves the requested amount |
| FeeMath.PreTradingFeeAmountCoversChargedFees | programs/anchor-token-swap/src/state/fees.rs:108-157 | round trip with the fees actually charged: the pre-fee amount pays the trade fee and the owner trade fee and leaves the requested amount, always when at most one of them is enabled, and with both enabled when each floored fee is at least one token |
| FeeMath.CombinedInverseUndercharges | programs/anchor-token-swap/src/state/fees.rs:108-157 | with trade and owner fees of 1/100 each, the pre-fee amount for 1 token is 2, and each fee charged on 2 is 1, so 2 does not cover 1 plus both fees |
| FeeMath.ValidatedFeesCanZeroTheInverse | programs/anchor-token-swap/src/state/fees.rs:84-147 | `validate` (lines 84-97) and the inverse (lines 118-147): the fees with trade and owner trade fractions of 1/2 each pass validation, their combined fraction is not below one, and the pre-fee amount for 100 tokens is 0 |
| FeeMath.ValidatedFeesCanFailTheInverse | programs/anchor-token-swap/src/state/fees.rs:84-147 | `validate` (lines 84-97) and the inverse (lines 118-147): the fees with trade fraction 1/2 and owner trade fraction 2/3 pass validation, and the pre-fee amount for 100 tokens fails |
| FeeMath.CalculateFeeIsFloor | programs/anchor-token-swap/src/state/fees.rs:50-58 | an enabled fee whose floor is at least one is exactly that floor |
| Calculator.Opposite | programs/anchor-token-swap/src/curves/calculator.rs:127-135 | never returns its argument |
| Calculator.OppositeIsInvolution | programs/anchor-token-swap/src/curves/calculator.rs:127-135 | applied twice, gives back the direction |
| Calculator.MapZeroToNone | programs/anchor-token-swap/src/curves/calculator.rs:160-168 | fails exactly on zero and otherwise returns its argument |
| Calculator.DefaultValidateSupply | programs/anchor-token-swap/src/curves/calculator.rs:41-53 | succeeds exactly when both reserves are non-zero; any refusal is EmptySupply |
| Calculator.DefaultAllowsDeposits | programs/anchor-token-swap/src/curves/calculator.rs:93-99 | deposits are allowed by default |
| Calculator.DefaultNewPoolSupply | programs/anchor-token-swap/src/curves/calculator.rs:21-26 | the default supply of a new pool is INITIAL_SWAP_POOL_AMOUNT, one billion |
| ConstantPrice.SwapWithoutFees | programs/anchor-token-swap/src/curves/constant_price.rs:21-54 | B to A: takes the whole input and pays input·price, failing exactly when the input or the price is zero or the product overflows; A to B: pays floor(input/price) token B and takes exactly their cost, failing exactly when price is 0 or the input is below the price; either way it takes between 1 and the input and pays at least 1 |
| ConstantPrice.SwapBtoA | programs/anchor-token-swap/src/curves/constant_price.rs:32 | the pair (input, input·price), failing exactly on overflow |
| ConstantPrice.SwapAtoB | programs/anchor-token-swap/src/curves/constant_price.rs:33-46 | the destination is the floor quotient by the price and the source taken is destination·price; fails exactly for price 0 |
| ConstantPrice.SwapPreservesWeightedValue | programs/anchor-token-swap/src/curves/constant_price.rs:21-54 | in both directions, the swap leaves reserve A + reserve B·price exactly unchanged |
| ConstantPrice.SwapIgnoresReserves | programs/anchor-token-swap/src/curves/constant_price.rs:22-28 | the result does not depend on the two reserve arguments |
| ConstantPrice.NormalizedValue | programs/anchor-token-swap/src/curves/constant_price.rs:163-192 | floor((a + b·price)/2), failing exactly when b·price or the sum overflows u128 |
| ConstantPrice.HalvesSum | programs/anchor-token-swap/src/curves/constant_price.rs:183-185 | the sum of the two halves, failing exactly on overflow |
| ConstantPrice.HalfOfSum | programs/anchor-token-swap/src/curves/constant_price.rs:187-189 | half the sum rounded down, failing exactly when the sum overflows |
| ConstantPrice.NearLimitBranchIsDead | programs/anchor-token-swap/src/curves/constant_price.rs:180-182 | the near-limit test is false for every u128, so that branch is never taken |
| ConstantPrice.NormalizedValueFollowsWeight | programs/anchor-token-swap/src/curves/constant_price.rs:178-191 | constant-price pools of equal weighted value have equal normalized values |
| ConstantPrice.PoolTokensToTradingTokens | programs/anchor-token-swap/src/curves/constant_price.rs:56-100 | with Floor: a = floor(pool·v/supply) and b = floor(pool·v/(price·supply)) for v the normalized value, failing exactly when v fails, pool·v overflows, or supply or price is zero; with Ceiling: a is the library's ceiling division of pool·v by the supply, and b that of pool·v by the price, divided again by the supply |
| ConstantPrice.PoolValue | programs/anchor-token-swap/src/curves/constant_price.rs:69-76 | pool·v for the normalized value v, failing exactly when v fails or the product overflows u128 |
| ConstantPrice.PoolShareFloor | programs/anchor-token-swap/src/curves/constant_price.rs:74-83 | both amounts are floor quotients of the pool value, by the supply and by price·supply; fails exactly for a zero supply or price |
| ConstantPrice.PoolShareCeiling | programs/anchor-token-swap/src/curves/constant_price.rs:84-94 | token A is the library's ceiling division of the pool value by the supply, token B that of the pool value by the price and then by the supply; fails exactly when one of the three divisions fails |
| ConstantPrice.ShareAtMostWhole | programs/anchor-token-swap/src/curves/constant_price.rs:74-77 | floor(part·total/whole) is at most total when part ≤ whole |
| ConstantPrice.NestedFloorDiv | programs/anchor-token-swap/src/curves/constant_price.rs:78-81 | dividing by the price and then by the supply, rounding down each time, is dividing by their product rounding down |
| ConstantPrice.NarrowProductFitsU256 | programs/anchor-token-swap/src/curves/constant_price.rs:210-217 | a u128 times a u64 plus a u128 cannot overflow 256 bits, so those checked operations never fail |
| ConstantPrice.TradingTokensToPoolTokens | programs/anchor-token-swap/src/curves/constant_price.rs:195-234 | with Floor: the largest r with r·total ≤ supply·given, where given is the amount counted in token A and total = a + b·price; fails exactly for a zero total, a 256-bit overflow, or a result above u128; with Ceiling: the library's 256-bit ceiling division of supply·given by total, failing exactly when the product overflows, the division fails or the quotient exceeds u128 |
| ConstantPrice.SupplyShare | programs/anchor-token-swap/src/curves/constant_price.rs:218-233 | supply·given/total in 256 bits, narrowed to u128: the floor quotient with Floor, failing exactly when a step overflows or total is zero; with Ceiling, the library's ceiling division of supply·given by total, failing exactly when the product overflows, that division fails or its quotient exceeds u128 |
| ConstantPrice.FloorShare | programs/anchor-token-swap/src/curves/constant_price.rs:220-225 | the floor quotient narrowed to u128, failing exactly for a zero divisor or a quotient above u128 |
| ConstantPrice.CeilingShare | programs/anchor-token-swap/src/curves/constant_price.rs:226-232 | the library's ceiling quotient narrowed to u128, failing exactly when the division fails or the quotient is above u128 |
| ConstantPrice.DepositSingleTokenType | programs/anchor-token-swap/src/curves/constant_price.rs:102-123 | always the Floor conversion: the largest r with r·total ≤ supply·given, failing exactly as that conversion does |
| ConstantPrice.WithdrawSingleTokenTypeExactOut | programs/anchor-token-swap/src/curves/constant_price.rs:125-144 | with Floor, equal to the single-sided deposit; with Ceiling, the library's 256-bit ceiling division of supply·given by the pool's value in token A |
| ConstantPrice.Validate | programs/anchor-token-swap/src/curves/constant_price.rs:146-153 | InvalidCurve exactly when the price is zero |
| ConstantPrice.ValidateSupply | programs/anchor-token-swap/src/curves/constant_price.rs:155-161 | EmptySupply exactly when reserve A is zero, whatever reserve B is |
| Offset.ShiftedReserve | programs/anchor-token-swap/src/curves/offset.rs:59-64 | reserve B plus the offset, failing exactly when it overflows u128 |
| Offset.SwapWithoutFees | programs/anchor-token-swap/src/curves/offset.rs:30-47 | the constant-product swap with the offset added to the destination reserve for A to B and to the source reserve for B to A, the input unchanged; fails when that sum overflows |
| Offset.PoolTokensToTradingTokens | programs/anchor-token-swap/src/curves/offset.rs:49-67 | the constant-product conversion on (a, b + offset) with the caller's rounding; fails when b + offset overflows |
| Offset.DepositSingleTokenType | programs/anchor-token-swap/src/curves/offset.rs:69-88 | the constant-product single-sided deposit on (a, b + offset), always rounded down |
| Offset.WithdrawSingleTokenTypeExactOut | programs/anchor-token-swap/src/curves/offset.rs:90-108 | the constant-product single-sided withdrawal on (a, b + offset), with the caller's rounding |
| Offset.Validate | programs/anchor-token-swap/src/curves/offset.rs:110-116 | InvalidCurve exactly when the offset is zero |
| Offset.ValidateSupply | programs/anchor-token-swap/src/curves/offset.rs:118-123 | EmptySupply exactly when reserve A is zero; reserve B may be empty |
| Offset.AllowsDeposits | programs/anchor-token-swap/src/curves/offset.rs:125-132 | deposits are never allowed |
| Offset.NormalizedValue | programs/anchor-token-swap/src/curves/offset.rs:134-146 | the constant-product normalized value of (a, b + offset) |
| Offset.OffsetActsAsReserve | programs/anchor-token-swap/src/curves/offset.rs:12-146 | moving any part of the offset into the real B reserve changes no result of any operation: the offset is indistinguishable from B liquidity |
| Offset.OverflowingReserveFails | programs/anchor-token-swap/src/curves/offset.rs:37-146 | when reserve B plus the offset overflows u128, every operation on that reserve fails |
| Base.CalculatorFor | programs/anchor-token-swap/src/curves/base.rs:17-26 | the calculator has the curve type's kind and carries its price or offset unchanged |
| Base.CalculatorForRoundTrip | programs/anchor-token-swap/src/curves/base.rs:18-26 | the curve type can be recovered from its calculator |
| Base.CalculatorForCoversAll | programs/anchor-token-swap/src/curves/base.rs:18-26 | every calculator is the calculator of some curve type |
| Base.SwapWithoutFees | programs/anchor-token-swap/src/curves/base.rs:17-27 | equals the swap of the calculator's own curve; the constant-price swap takes between 1 and the offered amount and pays at least 1; the offset swap fails when the token B reserve plus the offset overflows |
| Base.PoolTokensToTradingTokens | programs/anchor-token-swap/src/curves/base.rs:17-27 | equals the conversion of the calculator's own curve; a constant-price redemption rounded down of at most the supply pays at most the normalized value in token A; the offset conversion fails when reserve B plus the offset overflows |
| Base.DepositSingleTokenType | programs/anchor-token-swap/src/curves/base.rs:17-27 | equals the deposit of the calculator's own curve; a constant-price deposit mints floor(supply·given/total); the offset deposit fails when reserve B plus the offset overflows |
| Base.WithdrawSingleTokenTypeExactOut | programs/anchor-token-swap/src/curves/base.rs:17-27 | equals the withdrawal of the calculator's own curve; a constant-price withdrawal rounded down equals the deposit of the same amount; the offset withdrawal fails when reserve B plus the offset overflows |
| Base.NormalizedValue | programs/anchor-token-swap/src/curves/base.rs:17-27 | equals the normalized value of the calculator's own curve, the constant-price integer taken as the real it stands for; the constant-price value is a whole number v with 2v ≤ a + b·price ≤ 2v + 1; the offset value fails when reserve B plus the offset overflows |
| Base.NewPoolSupply | programs/anchor-token-swap/src/curves/calculator.rs:23-26 | the constant-price and offset curves start a pool with INITIAL_SWAP_POOL_AMOUNT |
| Base.Validate | programs/anchor-token-swap/src/curves/base.rs:17-26 | a constant-price or offset calculator is valid exactly when its parameter is non-zero, and is otherwise refused with InvalidCurve |
| Base.ValidateSupply | programs/anchor-token-swap/src/curves/constant_price.rs:155-161 | the constant-price and offset calculators require only reserve A to be non-zero, as their overrides do (`curves/constant_price.rs:155-161`, `curves/offset.rs:118-123`) in place of the default of `curves/calculator.rs:41-53` |
| Base.AllowsDeposits | programs/anchor-token-swap/src/curves/offset.rs:125-132 | the offset calculator refuses deposits through its override (`curves/offset.rs:125-132`); the constant-price calculator accepts them through the default (`curves/calculator.rs:93-99`) |
| Base.DepositsFollowCurveType | programs/anchor-token-swap/src/curves/base.rs:21-24 | a pool configured as Offset refuses deposits, one configured as ConstantPrice accepts them |
| Base.ValidateFollowsParameter | programs/anchor-token-swap/src/curves/base.rs:21-24 | a configured price or offset of zero makes the curve invalid, and only that |
| SwapConstraints.Contains | programs/anchor-token-swap/src/swap_constraints.rs:21 | the scan of the list finds the curve type exactly when some position of the list holds it |
| SwapConstraints.ValidateCurve | programs/anchor-token-swap/src/swap_constraints.rs:20-25 | accepts exactly the curve types in the list; any refusal is UnsupportedCurveType |
| SwapConstraints.ValidateFees | programs/anchor-token-swap/src/swap_constraints.rs:27-42 | accepts exactly when the three numerators are at least the floor's with equal denominators and the host fee is exactly the floor's |
| SwapConstraints.ValidateSwapConstraints | programs/anchor-token-swap/src/swap_constraints.rs:66-80 | no policy accepts everything; otherwise a wrong owner is InvalidOwner before the curve is checked, and an unlisted curve is UnsupportedCurveType before the fees are checked |
| SwapConstraints.RaisedFeesStayAccepted | programs/anchor-token-swap/src/swap_constraints.rs:28-39 | raising the trade, owner trade or owner withdraw numerator of accepted fees keeps them accepted |
| SwapConstraints.HostFeeIsFixed | programs/anchor-token-swap/src/swap_constraints.rs:35-36 | any change of the host numerator or denominator turns accepted fees into InvalidFee |
| SwapConstraints.PolicyFeesAreAccepted | programs/anchor-token-swap/src/swap_constraints.rs:28-42 | the policy's own fees pass its fee check |
| SwapConstraints.NoPolicyIsEnforced | programs/anchor-token-swap/src/swap_constraints.rs:50-80 | with the built-in policy, every configuration is accepted |
| Helper.ToU64 | programs/anchor-token-swap/src/helper.rs:3-7 | the amount unchanged when it fits in 64 bits, ConversionFailure otherwise |
| Helper.ToU64RoundTrip | programs/anchor-token-swap/src/helper.rs:3-7 | every u64 widened to u128 narrows back to itself |
| Helper.ToU64NeverTruncates | programs/anchor-token-swap/src/helper.rs:3-7 | narrowing succeeds exactly on the 64-bit range and never alters the amount |
| CurveChecks.CheckDepositTokenConversion | programs/anchor-token-swap/src/curves/tests.rs:18-101 | reaching the comparison requires the one-sided deposit and the swap of half the amount to succeed, the swap to take no more than the amount and no more than the destination reserve holds, and the new source reserve to fit in u128 |
| CurveChecks.CheckWithdrawTokenConversion | programs/anchor-token-swap/src/curves/tests.rs:110-186 | reaching the comparison requires the withdrawal rounded down to succeed and to pay no more of either token than the pool holds |
| CurveChecks.CheckPoolValueFromDeposit | programs/anchor-token-swap/src/curves/tests.rs:194-235 | the comparison is reached exactly when the deposit rounded up succeeds and the new reserves and the new supply fit in u128 |
| CurveChecks.CheckPoolValueFromWithdraw | programs/anchor-token-swap/src/curves/tests.rs:243-284 | reaching the comparison requires a withdrawal of at most the supply that succeeds, pays no more than the pool holds, and leaves both the old and the new normalized value defined |
| CurveChecks.CheckCurveValueFromSwap | programs/anchor-token-swap/src/curves/tests.rs:295-342 | reaching the comparison requires the swap and both normalized values to succeed and the new reserves to be in range; the check then holds exactly when the value did not fall and its rise rounds to at most 1 |
| CurveChecks.TotalAndIntermediate | programs/anchor-token-swap/src/curves/tests.rs:344-350 | the generated pairs are exactly those with 1 ≤ intermediate < total < max; there are none when max < 3 |
| CurveChecks.DepositConversionExceedsTolerance | programs/anchor-token-swap/src/curves/tests.rs:9-101 | on the constant-price curve with price 1, depositing 2 A into a 1 A / 1 B pool with supply 10^9 misses the 50 basis point tolerance |
| CurveChecks.DepositValueCheckFailsWithoutTokenB | programs/anchor-token-swap/src/curves/tests.rs:194-235 | on the constant-price curve, a deposit of 10 of 100 pool tokens into a pool of 100 A and no B lowers reserve A per pool token, given exact ceiling division on the two quotients involved |
| CurveChecks.ConstantPriceSwapKeepsValue | programs/anchor-token-swap/src/curves/tests.rs:295-342 | on the constant-price curve the swap check never reports a violation: the normalized value is neither lowered nor raised by more than one |
| CurveChecks.WithdrawShareBound | programs/anchor-token-swap/src/curves/tests.rs:250-283 | after a floored proportional withdrawal, the remaining normalized value times the old supply is at least the old value times the remaining supply |
| CurveChecks.ConstantPriceWithdrawKeepsShareValue | programs/anchor-token-swap/src/curves/tests.rs:243-284 | on the constant-price curve the withdrawal check never reports a violation: value per pool token never decreases |

## Left out

- The constant-product curve is not part of this model. Its helpers and its calculator are parameters (`ConstantProduct.Helpers`, `ConstantProduct.ProductCurve`), so nothing is proved about its rounding or its invariant, and none of the curve checks is proved for the constant-product or offset curves.
- The spl_math library is not part of this model. Its checked ceiling division is a parameter (`SplMath.CeilDiv`): only the quotient it returns is used, and no general property of it is assumed. The one exception is `CurveChecks.DepositValueCheckFailsWithoutTokenB`, which requires two concrete quotients of it (500/100 = 5 and 500/1 = 500).
- FeeMath.PreTradingFeeAmountCoversFees: stated for the floored fees, without the minimum of one token that the charged fees have. With both trade fees enabled the inverse can fall short of the fees actually charged (`FeeMath.CombinedInverseUndercharges`); `FeeMath.PreTradingFeeAmountCoversChargedFees` states the round trip for the charged fees where it holds. Both lemmas require the two trade fractions together to stay below one, and `validate` (`state/fees.rs:84-97`) does not ensure this, because it checks each fraction on its own. On validated fees whose fractions sum to exactly one, the inverse returns 0 for any requested amount (`FeeMath.ValidatedFeesCanZeroTheInverse`); when they sum to more than one, it fails (`FeeMath.ValidatedFeesCanFailTheInverse`).
- The 12-digit fixed-point arithmetic of `PreciseNumber` (its rounding and its overflow) is not modelled. A normalized value is the exact real number it stands for, and the constant-price integer value is taken to convert to and from it without loss.
- ConstantPrice.PoolTokensToTradingTokens: with Ceiling, the amounts are stated as the library's quotients, not as ceiling quotients, because the library's division is a parameter with no contract. The same holds for `ConstantPrice.PoolShareCeiling`, `ConstantPrice.CeilingShare`, `ConstantPrice.SupplyShare`, `ConstantPrice.TradingTokensToPoolTokens` and `ConstantPrice.WithdrawSingleTokenTypeExactOut` with Ceiling.
- ConstantPrice.WithdrawSingleTokenTypeExactOut: with Ceiling, the failure cases are not stated.
- The withdrawal conversion check (`CurveChecks.CheckWithdrawTokenConversion`) has no lemma. It compares against a single-sided withdrawal rounded up, which rests on the library's ceiling division.
- The deposit checks are shown not to hold in general for the constant-price curve, by one input each. The input ranges for which the repository's property tests expect them to hold are not modelled.
- The fee-composing swap, deposit and withdrawal of `SwapCurve`, which the instruction handlers call, are not part of this model: `curves/base.rs:17-27` defines only `calculator()`.
- The instruction handlers, account layouts and program entry points are not modelled. They consist of account constraints, token transfers, minting and burning, clock reads and transfer-fee lookups, all of them external I/O.
- The files `curve/mod.rs` and `fees.rs` at the source root are unused duplicates and are not modelled.
- Only the variants of the error enum that the modelled code raises are kept (`InvalidOwner`, `EmptySupply`, `ConversionFailure`, `InvalidFee`, `UnsupportedCurveType`, `InvalidCurve`), without Anchor's error codes or messages. A failed calculation is `None`, which the instruction handlers would turn into an error.
- A `Pubkey` is a byte sequence compared for equality, which is how `require_keys_eq` treats it.
- The property-test generator `total_and_intermediate` is modelled as the set of pairs it can produce, not as a distribution. Proptest panics instead of producing a pair in two cases: when `max_value` is at most 1, so that the range `1..max_value` for the total is empty, and when it draws a total of 1, so that the range `1..total` for the intermediate is empty. The set contains only the pairs the generator can produce, and is empty when `max_value` is at most 1, so neither panic is modelled.
- In the curve checks, a u128 overflow or underflow of the test's own arithmetic aborts the check, as it does in a debug build.
