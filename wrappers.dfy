/** Small value types shared by both stores. */
module Wrappers {

  /** A value that may be missing: Python's `Optional[T]`, with `None` as None. */
  datatype Option<T> = None | Some(value: T) {

    /** The value, or `default` when there is none. */
    function GetOr(default: T): T {
      if Some? then value else default
    }
  }

  /** What a handler answers: a value, or the error it reports as an HTTP status. */
  datatype Result<T, E> = Ok(value: T) | Err(error: E)

  /** One field of a JSON request body, after its type has been checked:
      left out of the body, sent as `null`, or sent with a value. */
  datatype Field<T> = Absent | Null | Present(value: T) {

    /** The field as a pydantic field typed `Optional[...]` with default `None` reads it:
        both a missing field and an explicit `null` become `None`. */
    function OrNone(): Option<T> {
      if Present? then Some(value) else None
    }
  }
}
