/** Shared result types of the backend model.

    Every model and route operation returns a `Result`: either a value or one
    of the error classes the backend throws.  The first three carry the HTTP
    status of the matching `expressError` class; `Unexpected` stands for any
    other thrown error (a database constraint violation, a `TypeError` from
    reading a property of `undefined`), which carries no status at all.
 */
module Common {

  datatype Option<+T> = None | Some(value: T)

  datatype Error =
    | NotFound
    | BadRequest(messages: seq<string>)
    | Unauthorized
    | Unexpected

  datatype Result<+T> = Ok(value: T) | Err(error: Error) {

    predicate IsFailure() {
      Err?
    }

    function PropagateFailure<U>(): Result<U>
      requires Err?
    {
      Err(error)
    }

    function Extract(): T
      requires Ok?
    {
      value
    }
  }

  /** The result of an operation on a store `S`, with the store after it. */
  datatype Outcome<+T, +S> = Outcome(result: Result<T>, state: S)
}
