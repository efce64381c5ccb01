/** Option for nullable columns and absent request fields, and the
    HTTP-shaped reply every handler produces. */
module Wrappers {

  datatype Option<+T> = None | Some(value: T) {
    function GetOr(default: T): T {
      match this
      case Some(v) => v
      case None => default
    }
  }

  /** What an Express handler sends: a success status with a body, or an
      error status with the `error` message of the JSON reply. */
  datatype Response<+T> =
    | Success(status: nat, value: T)
    | Failure(status: nat, message: string)

  /** JavaScript truthiness of an optional string field of a request body:
      `undefined`, `null` and `''` are falsy. */
  predicate Present(s: Option<string>) {
    s.Some? && s.value != ""
  }
}
