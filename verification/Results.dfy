/** The error values the server's Go code returns, and the usual result pair. */
module Results {
  datatype Error =
    | EndOfFile
    | UnexpectedEndOfFile
    | InvalidMagic
    | UnsupportedType
    | PayloadTooLarge
    | InvalidPayload
    | ChecksumMismatch
    | DatagramSize
    | InvalidQuarantineEntry
    | OutOfRange            // a slice expression beyond its buffer
    | Closed
    | UnknownDevice
    | UnknownSensor
    | WriteFailed
    | NotEnabled            // no step of the original: a run that takes a step it may not take

  datatype Option<+T> = None | Some(value: T)

  datatype Result<+T> = Ok(value: T) | Err(error: Error) {
    predicate IsFailure() { Err? }

    function PropagateFailure<U>(): Result<U>
      requires Err?
    {
      Err(error)
    }

    function Extract(): T
      requires Ok?
    {
      value
    }
  }
}
