/** Python-level outcomes shared by every component: a value or a raised exception,
    and the `(flag, message)` pairs the source returns. */
module Outcomes {

  datatype Option<T> = None | Some(value: T)

  /** A call either returns a value or lets an exception escape to its caller. */
  datatype Result<T> = Ok(value: T) | Raised(exception: string)

  /** The `(bool, message)` pairs returned by verify_data and apply_weighting. */
  datatype Verdict = Verdict(ok: bool, message: string)

  const ZeroDivision: string := "ZeroDivisionError: float division by zero"
}
