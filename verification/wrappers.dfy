/** Failure-compatible wrappers shared by every module of the model. */
module Wrappers {

  /** A value or its absence (pandas NaN, a missing dictionary entry, no match). */
  datatype Option<+T> = None | Some(value: T) {
    function GetOr(default: T): T {
      match this
      case Some(v) => v
      case None => default
    }
  }

  /** The value of a computation or the exception it raises. */
  datatype Result<+T, +E> = Ok(value: T) | Err(error: E)
}

/** The exceptions the modelled code raises, one constructor each. */
module Errors {

  datatype Error =
    | ThresholdNotBelowSeats  // AssertionError in dem_chamber_power
    | NoCorrelatedError       // AssertionError in chamber_success_prob
    | ZeroTotalWeight         // 0 / 0 in chamber_success_prob: the result is NaN
    | ShapeMismatch           // ValueError from the matrix-vector product
    | NoRaces                 // IndexError on an empty table of races
    | RatingNotFound          // KeyError in the rating-to-margin table
    | IndependentFavored      // ValueError raised for independents
    | UnknownChamber          // KeyError: an office other than 'lower' or 'upper'
    | NotText                 // AttributeError: str.replace called on a NaN cell
}

/** Values of the pandas columns the row rules read. */
module PyValues {

  /** A cell of a text column: a string, the boolean False the code uses
      for "none", or NaN. */
  datatype Cell = Str(s: string) | False | NaN
}
