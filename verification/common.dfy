/** Small result-carrying datatypes shared by every module of the model. */
module Common {

  /** A value that may be absent: JavaScript's `null`/`undefined`. */
  datatype Option<+T> = None | Some(value: T) {
    function GetOr(default: T): T {
      match this
      case Some(v) => v
      case None => default
    }
  }

  /** The outcome of a call into code outside the model (a remote request,
      a user-supplied callback): it either resolves or rejects with an error. */
  datatype Outcome = Ok | Err(error: string)

  /** A value produced by code outside the model that may instead throw. */
  datatype Attempt<+T> = Done(value: T) | Threw(error: string)

  /** JavaScript truthiness of an optional string: `undefined`, `null` and
      the empty string are falsy. */
  predicate Truthy(s: Option<string>) {
    s.Some? && s.value != ""
  }

  predicate StartsWith(s: string, prefix: string) {
    |prefix| <= |s| && s[..|prefix|] == prefix
  }
}
