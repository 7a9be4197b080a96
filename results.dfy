/** Option and Result wrappers, and the errors the filter engine can raise.
    Every error except a missing INFO key on a plain or indexed filter aborts
    the whole run in `_filter_line` and `filter_vcf` (it is an uncaught Python exception). */
module Results {

  datatype Option<+T> = None | Some(value: T) {
    function GetOr(default: T): T {
      match this
      case Some(v) => v
      case None => default
    }
  }

  /** The exceptions of the filter, by the source line that raises them. */
  datatype FilterError =
    | ThresholdUnpack(threshold: string)   // `exp1, exp2 = threshold.split(..)` with other than two pieces
    | BadFloat(literal: string)            // `float(..)` on a literal that is not a number
    | UnclosedBracket(key: string)         // "Found innvalid filter": a `[` without a `]`
    | BadIndex(literal: string)            // `int(..)` on an index that is not an integer
    | IndexTooLarge(key: string, length: nat) // "Index must be less than ..."
    | ListIndex(key: string)               // Python IndexError on a list subscript
    | MissingSumKey(key: string)           // KeyError raised outside the `try` of the `sum(` branch
    | SumNotEvaluable(key: string)         // `eval` of the `sum(` expression fails

  datatype Result<+T> = Ok(value: T) | Err(error: FilterError)
}
