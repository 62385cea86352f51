/** The error codes of the program that the modelled core can raise. */
module Errors {
  datatype SwapError =
    | InvalidOwner
    | EmptySupply
    | ConversionFailure
    | InvalidFee
    | UnsupportedCurveType
    | InvalidCurve
}
