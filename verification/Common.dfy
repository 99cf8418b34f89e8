// Small datatypes shared by the models.
module Common {

  /** A value that may be absent: `undefined` or `null` in JavaScript, `None` in Python. */
  datatype Option<+T> = None | Some(value: T)

  /** How a call ends: with a value, or by raising an error. */
  datatype Outcome<+T, +E> = Ok(value: T) | Fail(error: E)
}
