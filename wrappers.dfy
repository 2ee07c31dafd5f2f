/** Optional values and results with an error, shared by every module of the model. */
module Wrappers {

  /** A value that may be absent (`undefined` or `null` in the source). */
  datatype Option<+T> = None | Some(value: T)

  /** The value of a computation that may throw: `Err` carries what is thrown. */
  datatype Result<+T, +E> = Ok(value: T) | Err(error: E)

  /** `o ?? 0`: an absent count reads as zero. */
  function OrZero(o: Option<nat>): nat
  {
    if o.Some? then o.value else 0
  }
}
