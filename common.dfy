/** Values shared by every component of the client model: JavaScript's "maybe
    undefined", what an awaited remote call produced, and how an async event
    handler ends. */
module Common {

  /** A value that may be `undefined` (or any other falsy value). */
  datatype Option<+T> = None | Some(value: T)

  /** What awaiting a remote call produced: either the promise resolved, to a
      record or to a falsy value (the API layer swallows most failures into
      `undefined`), or the promise rejected. */
  datatype Response<+T> = Resolved(result: Option<T>) | Rejected
  {
    /** True when the call resolved to a truthy record. */
    predicate Succeeded() { Resolved? && result.Some? }
  }

  /** How an async event handler ends: it returns a value, or it throws (the
      promise it returns rejects). */
  datatype Completion<+T> = Returned(value: T) | Threw

  /** What sits where a delete button goes: nothing, the button, or the
      spinner that replaces it while a delete is in flight. */
  datatype DeleteControl = NoControl | DeleteButton | Spinner
}
