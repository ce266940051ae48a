/** Failure-compatible wrappers, bytes and the exception shape shared by the whole model. */
module Common {

  /** An optional value: Python's `X | None`. */
  datatype Option<+T> = None | Some(value: T) {
    predicate IsFailure() { None? }

    function PropagateFailure<U>(): Option<U>
      requires None?
    {
      None
    }

    function Extract(): T
      requires Some?
    {
      value
    }

    function GetOr(default: T): T {
      match this
      case Some(v) => v
      case None => default
    }
  }

  /** A value or the exception a Python call would have raised. */
  datatype Result<+T, +E> = Ok(value: T) | Err(error: E) {
    predicate IsFailure() { Err? }

    function PropagateFailure<U>(): Result<U, E>
      requires Err?
    {
      Err(error)
    }

    function Extract(): T
      requires Ok?
    {
      value
    }
  }

  /** A raised Python exception: its class name and its `str(e)`. */
  datatype Exception = Exception(kind: string, message: string)

  function ValueError(message: string): Exception {
    Exception("ValueError", message)
  }

  /** The exception an authentication driver raises for a request it turns away. */
  function NotAuthenticated(message: string): Exception {
    Exception("NotAuthenticated", message)
  }

  /** An HTTP error response: status code and detail text. */
  datatype HttpError = HttpError(status: int, detail: string)

  type byte = b: int | 0 <= b < 256

  type bytes = seq<byte>

  /** Python truthiness of an optional string: `None` and `""` are both false. */
  predicate Truthy(s: Option<string>) {
    s.Some? && s.value != ""
  }
}
