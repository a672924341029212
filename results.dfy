/** Error values and the Result/Option wrappers shared by the whole model. */
module Results {

  /** Every error the compiler or the parsers can report, with the data
      that the corresponding Go error message prints. */
  datatype Error =
    | SyntaxError(num: string)              // strconv.Atoi: parsing num: invalid syntax
    | RangeError(num: string)               // strconv.Atoi: parsing num: value out of range
    | StartAfterEnd(start: int, end: int)   // "start > end is invalid: %d > %d"
    | ZeroMismatch(start: int, end: int)    // "start or end cannot be 0 when the other is not 0"
    | CannotParse(spec: string, cause: Error) // "cannot parse %q: %v" (one group member)
    | UnmatchedBrace(position: int)         // "extractor has unmatched '}' at character %d"
    | UnexpectedChar(c: char)               // "unexpected %q in selector"
    | RegexError(message: string)           // the regular-expression engine's own message

  datatype Result<+T> = Ok(value: T) | Err(error: Error)

  datatype Option<+T> = None | Some(value: T)
}
