/** Small value types shared by every module of the model: optional values,
    the exceptions the Python code raises, and the outcome of a stage that
    either returns a value or raises. */
module Wrappers {

  datatype Option<+T> = None | Some(value: T) {
    function GetOr(default: T): T {
      match this
      case Some(v) => v
      case None => default
    }
  }

  /** A raised Python exception: the name of its class, `str(e)`, and whether
      it is a `ValueError` (or a subclass of it), which is what the
      `except ValueError` handlers of the source select on. */
  datatype Exception = Exception(typeName: string, message: string, isValueError: bool) {
    /** The diagnostic the orchestrator records: f"{type(e).__name__}: {e}". */
    function Describe(): string {
      typeName + ": " + message
    }
  }

  function ValueError(message: string): Exception {
    Exception("ValueError", message, true)
  }

  /** `d[key]` on a dictionary without `key`; `str()` of a `KeyError` is the
      quoted key. */
  function KeyError(key: string): Exception {
    Exception("KeyError", "'" + key + "'", false)
  }

  /** The outcome of a call that may raise. */
  datatype Stage<+T> = Returned(value: T) | Raised(exc: Exception)

  /** Python truthiness of an optional string: present and non-empty. */
  predicate Truthy(s: Option<string>) {
    s.Some? && s.value != ""
  }

  /** `a or b` for optional strings: `a` when it is truthy, otherwise `b`. */
  function OrElse(a: Option<string>, b: Option<string>): Option<string> {
    if Truthy(a) then a else b
  }
}
