/** Failure-carrying wrappers and interpreter limits shared by every module
    of the model. */
module Common {

  /** A value that may be absent (Python's `None`). */
  datatype Option<+T> = None | Some(value: T)

  /** The outcome of an operation that either returns a value or raises. */
  datatype Result<+R, +E> = Ok(value: R) | Err(error: E)

  /** CPython's default limit on the digits `int()` converts from a decimal
      string (`sys.int_info.default_max_str_digits`); a longer numeral makes
      it raise `ValueError`. Leading zeros count; signs and underscores do
      not. */
  const MaxStrDigits: nat := 4300
}
