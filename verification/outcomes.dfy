/** Results and failures shared by the two backend services. */
module Outcomes {

  datatype Option<+T> = None | Some(value: T)

  /** A service call either yields a value or fails with an error of kind E. */
  datatype Result<+T, +E> = Ok(value: T) | Err(error: E)

  /**
   * Why a call failed.
   * - ServiceError is the services' own error class: a message and the HTTP
   *   status the controllers answer with.
   * - UniqueConstraint is the store refusing an insert that would duplicate a
   *   unique column; it carries no status code of its own.
   */
  datatype Failure =
    | ServiceError(message: string, statusCode: int)
    | UniqueConstraint(column: string)

  /** The status the controllers answer a failure with: its own code, or 400 when it has none. */
  function HttpStatus(f: Failure): int {
    if f.ServiceError? && f.statusCode != 0 then f.statusCode else 400
  }

  /** JavaScript truthiness of an optional numeric id: absent, null and 0 are falsy. */
  predicate Given(id: Option<int>) {
    id.Some? && id.value != 0
  }

  /** JavaScript truthiness of an optional text value: absent, null and "" are falsy. */
  predicate Truthy(s: Option<string>) {
    s.Some? && s.value != []
  }
}
