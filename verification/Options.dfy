/** The optional and failing results shared by the models. */
module Options {
  datatype Option<+T> = None | Some(value: T)

  datatype Result<+T, +E> = Ok(value: T) | Err(error: E)

  /** The error codes a screening records instead of source text. */
  datatype ErrorCode =
    | InvalidContext
    | TooLong
    | MissingDisplay
    | InvalidEvidence
    | Incomplete
    | AccessChanged
    | ScreeningVersionChanged
    | WorkerInterrupted
    | ProviderError
    | JailbreakBlocked
}
