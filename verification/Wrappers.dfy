/** Option, Result and the error kinds shared by every module. */
module Wrappers {

  datatype Option<+T> = None | Some(value: T)

  /** The kinds of `NethernetError`; the message texts are not modelled. */
  datatype Error =
    | Io
    | Other
    | WebRtc
    | MessageParse
    | MessageTooLarge(size: nat)
    | ConnectionClosed
    | DataChannel
    | Timeout

  datatype Result<+T> = Ok(value: T) | Err(error: Error) {

    predicate IsFailure() {
      Err?
    }

    function PropagateFailure<U>(): Result<U>
      requires Err?
    {
      Err(error)
    }

    function Extract(): T
      requires Ok?
    {
      value
    }
  }
}
