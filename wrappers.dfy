/** Option and Result values shared by the service and the component. */
module Wrappers {

  /** A value that may be absent: JavaScript's `null`/`undefined` on one side, a value on the other. */
  datatype Option<+T> = None | Some(value: T)

  /** What an observable delivers: one `next` value, or an `error` carrying an Error's message. */
  datatype Result<+T> = Success(value: T) | Failure(message: string)
}
