/** Option and Result, the two failure-carrying shapes every component uses. */
module Wrappers {

  datatype Option<+T> = None | Some(value: T)

  /** Every failure the modelled code signals by raising an exception. */
  datatype Error =
    | ParseFailure        // float() rejected the cleaned numeral (ValueError)
    | UnknownMode         // format_conversion with a mode other than chat or inline (ValueError)
    | UnknownCurrency     // currency_formats has no entry for the code (KeyError)
    | Overflow            // Decimal.quantize needs more than the context's 28 digits (InvalidOperation)
    | NoNumberWords       // word_to_number found no number word (ValueError)
    | ZeroNumber          // word_to_number summed to 0 (ValueError)

  datatype Result<+T> = Ok(value: T) | Err(error: Error)
}
