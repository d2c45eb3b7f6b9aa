/** Small failure-carrying datatypes shared by the whole model. */
module Wrappers {

  /** A value that may be absent: `null`/`undefined` in the frontend, `None` in the backend. */
  datatype Option<+T> = None | Some(value: T)

  /** A computed value, or why it could not be computed. */
  datatype Result<+T, +E> = Success(value: T) | Failure(error: E)

  /** What an awaited call can settle with: its value, or the thrown value. */
  datatype Outcome<+T> = Ok(value: T) | Err(thrown: Thrown)

  /**
   * A value caught by a `catch` clause.  The stores only distinguish an
   * `Error` instance (whose `message` they keep) from anything else thrown.
   */
  datatype Thrown = ErrorInstance(message: string) | OtherValue

  /** `error instanceof Error ? error.message : fallback` */
  function MessageOr(t: Thrown, fallback: string): (m: string)
    ensures t.ErrorInstance? ==> m == t.message
    ensures t.OtherValue? ==> m == fallback
  {
    match t
    case ErrorInstance(msg) => msg
    case OtherValue => fallback
  }

  /** A nullable string JavaScript treats as true: present and not empty. */
  predicate Truthy(s: Option<string>)
  {
    s.Some? && s.value != ""
  }
}
