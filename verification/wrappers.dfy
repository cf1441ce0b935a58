/** Option and Result values, and the shape of a route handler's JSON reply. */
module Wrappers {

  datatype Option<+T> = None | Some(value: T)

  datatype Result<+R, +E> = Success(value: R) | Failure(error: E)

  /** What a route handler answers: a status with a body, or an error status with the
      `error` message the handler puts in its JSON body. */
  datatype Reply<+T> = Ok(status: nat, body: T) | Error(status: nat, message: string)

  /** JavaScript truthiness of a string that may be missing: `undefined`, `null` and ""
      are falsy, every other string is truthy. */
  predicate Truthy(o: Option<string>) {
    o.Some? && o.value != ""
  }
}
