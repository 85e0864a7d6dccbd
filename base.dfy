/** Shared value types: optional values, results, the client's error kinds and
    the dynamically typed Python values that the work-item API accepts. */
module Base {

  datatype Option<+T> = None | Some(value: T)

  datatype Result<+T> = Ok(value: T) | Err(error: Error)

  /** Outcome of an operation that returns nothing on success. */
  datatype Outcome = Pass | Fail(error: Error)

  /** The exception kinds the work-item methods raise: the library's own
      BadValue and NotFound, Python's IndexError from a negative list index
      that is out of range, and an HTTP error status from the transport. */
  datatype Error = BadValue | NotFound | IndexError | HttpError(status: nat)

  /** A Python argument as far as the validations look at it. `PyBool` is kept
      apart from `PyInt` because `isinstance(True, int)` holds in Python and the
      source tests for `bool` first. */
  datatype PyValue = PyBool(b: bool) | PyInt(i: int) | PyStr(s: string) | PyNone | PyOther

  /** Request headers: a string-to-string dictionary. */
  type Headers = map<string, string>
}
