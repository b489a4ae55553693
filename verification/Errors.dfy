/** The error values an operation can end in. */
module Errors {
  import Bits
  import opened Bytes
  import Options
  import Values

  /** An uncaught exception; `instance` is the live exception object, if any. */
  datatype PythonError = PythonError(
    kind: seq<byte>, message: seq<byte>, traceback: seq<byte>, instance: Options.Option<Values.Value>)

  datatype ContextError = Canceled | DeadlineExceeded

  datatype Error =
    | MalformedNode
    | UnknownTag(tag: nat)
    | MalformedList
    | MalformedRaised
    | MalformedEnvelope
    | HandleReleased
    | ForeignHandle
    | OddItems
    | Context(ctx: ContextError)
    | Python(exc: PythonError)
    | Exit(code: Bits.i32)
    | Closed
    | Transport(text: seq<byte>)
    | Other(message: seq<byte>)

  datatype Result<+T> = Ok(value: T) | Err(error: Error)
}
