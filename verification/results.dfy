/** Failure-carrying wrappers shared by every module of the model.

    Python signals absence with `None` and failure with an exception. The model
    uses `Option` for the former and `Result` (an error carries the text that
    `str(e)` would produce) for the latter.
 */
module Results {

  /** An unsigned 8-bit value: one element of a Python `bytes` object. */
  newtype byte = b: int | 0 <= b < 256

  datatype Option<+T> = None | Some(value: T) {

    /** The value if present, otherwise `default` (Python's `d.get(k, default)`). */
    function GetOr(default: T): T {
      match this
      case Some(v) => v
      case None => default
    }
  }

  /** Python truthiness of an optional string: present and non-empty. */
  predicate Truthy(o: Option<string>) {
    o.Some? && o.value != ""
  }

  datatype Result<+T> = Ok(value: T) | Err(message: string)

  /** A step that either passes or fails with the message of the raised exception. */
  datatype Outcome = Pass | Fail(message: string)
}
