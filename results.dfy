/** Outcomes of the converter's operations.  The converter never catches the
    exceptions its own lookups raise, so an exception ends the whole conversion;
    the model carries it as an `Err` value naming the Python exception. */
module Results {

  /** The three exceptions the converter can raise on a malformed tree. */
  datatype Crash =
    | IndexError      // `[0]` on an empty node list
    | AttributeError  // `.tagName` or `.getAttribute` asked of a text node
    | ValueError      // `int(...)` of a string that is not an integer

  datatype Result<+T> = Ok(value: T) | Err(crash: Crash)

  datatype Option<+T> = None | Some(value: T)
}
