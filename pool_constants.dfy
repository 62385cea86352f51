/** The initial pool-token supply (curves/base.rs). It sits in a module of its
    own because the default calculator behaviour refers to it and the curve
    dispatch refers to the calculators. */
module PoolConstants {
  import opened Uint

  /** Supply minted for a new pool, for every curve that keeps the default. */
  const INITIAL_SWAP_POOL_AMOUNT: U128 := 1_000_000_000
}
