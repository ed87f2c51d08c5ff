/** Failure-carrying values shared by every module of the parser model. */
module Results {

  /** An optional value, for the regex groups that may not participate in a match
      and for the transaction comment (`string | undefined` in the source). */
  datatype Option<+T> = None | Some(value: T)

  /** The three exceptions the parser throws, each carrying the text of its message. */
  datatype Error =
    | ParseError(input: string)            // `parse error: <input>`
    | NegativeFromAmount(input: string)    // `parse error: from amount is negative: <input>`
    | UnknownCurrency(token: string)       // `unknown currency: <token>`

  /** Either a value or the error the source would throw instead of returning it. */
  datatype Result<+T> = Ok(value: T) | Err(error: Error)
}
