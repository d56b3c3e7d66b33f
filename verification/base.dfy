/** Failure-carrying wrappers and the shape of a thrown JavaScript value,
    shared by the server handlers and the client-side state machines. */
module Base {

  /** `undefined` (None) or a present value (Some). */
  datatype Option<+T> = None | Some(value: T) {

    /** The value, or `default` when absent (JavaScript `x ?? default`). */
    function GetOr(default: T): T
    {
      match this
      case Some(v) => v
      case None => default
    }
  }

  /** The outcome of an awaited call: a value, or the thrown value `error`. */
  datatype Result<+R, +E> = Ok(value: R) | Err(error: E)

  /** What a `catch` clause receives: an `Error` instance carrying a
      `message`, or some other thrown value. */
  datatype Thrown = ErrorValue(message: string) | NonErrorValue

  /** `e instanceof Error ? e.message : fallback`, the pattern every catch
      clause of the client uses. */
  function MessageOr(e: Thrown, fallback: string): (r: string)
    ensures e.ErrorValue? ==> r == e.message
    ensures e.NonErrorValue? ==> r == fallback
  {
    match e
    case ErrorValue(m) => m
    case NonErrorValue => fallback
  }
}
