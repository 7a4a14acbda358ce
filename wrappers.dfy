/** Failure-compatible datatypes shared by the whole model.

    The Rust code signals failure in three ways, and the model keeps them apart:
    - an `anyhow` error raised with `bail!`/`ensure!` (`Bail`), or by
      `validate_providers` (`ProviderCount`, which keeps the numbers it reports);
    - a `ModelError::ValidationError` (`Validation`);
    - a panic: `unwrap` on `None`, an index out of bounds, a usize subtraction that
      underflows, a division by zero (`Panic`).
    `NotModelled` marks the few inputs whose outcome the model does not follow:
    floating-point arithmetic; reads and writes past the end of a buffer (an
    `i64` read of a narrower axes or indices tensor, the copy of
    `stack_tensors` past its result); and `Gather` with indices of rank 2 or
    more along an axis other than 0.
 */
module Wrappers {

  datatype Option<+T> = None | Some(value: T) {
    predicate IsFailure() { None? }

    function PropagateFailure<U>(): Option<U>
      requires None?
    {
      None
    }

    function Extract(): T
      requires Some?
    {
      value
    }

    /** `unwrap_or`: the value, or `default` when there is none. */
    function GetOr(default: T): T
    {
      if Some? then value else default
    }
  }

  datatype Fault =
    | ProviderCount(lower: nat, upper: nat, got: nat, op: string)
    | Bail(msg: string)
    | Validation(msg: string)
    | Panic(msg: string)
    | NotModelled(msg: string)

  datatype Result<+T> = Ok(value: T) | Err(fault: Fault) {
    predicate IsFailure() { Err? }

    function PropagateFailure<U>(): Result<U>
      requires Err?
    {
      Err(fault)
    }

    function Extract(): T
      requires Ok?
    {
      value
    }
  }

  /** The messages of the standard library's panics that the model reaches. */
  const OUT_OF_BOUNDS: string := "index out of bounds"
  const SUB_OVERFLOW: string := "attempt to subtract with overflow"
  const ADD_OVERFLOW: string := "attempt to add with overflow"
  const MUL_OVERFLOW: string := "attempt to multiply with overflow"
  const DIV_BY_ZERO: string := "attempt to divide by zero"
  const UNWRAP_NONE: string := "called `Option::unwrap()` on a `None` value"
  const STEP_ZERO: string := "assertion failed: step != 0"

  /** True when `r` is a panic (any message). */
  predicate IsPanic<T>(r: Result<T>) {
    r.Err? && r.fault.Panic?
  }

  /** True when `r` is an `anyhow` error raised by `bail!` or `ensure!`. */
  predicate IsBail<T>(r: Result<T>) {
    r.Err? && r.fault.Bail?
  }
}
