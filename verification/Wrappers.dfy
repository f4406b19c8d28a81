/** The optional and fallible results that the modelled code returns. */
module Wrappers {

  datatype Option<+T> = None | Some(value: T)

  /** `Failure` carries the error that the modelled function reports; `:-` propagates it. */
  datatype Result<+T, +E> = Success(value: T) | Failure(error: E) {
    predicate IsFailure() {
      Failure?
    }

    function PropagateFailure<U>(): Result<U, E>
      requires Failure?
    {
      Failure(error)
    }

    function Extract(): T
      requires Success?
    {
      value
    }
  }

  /** The unsigned integer widths of the source. */
  const U16_BOUND: nat := 0x1_0000
  const U32_BOUND: nat := 0x1_0000_0000
  const U64_BOUND: nat := 0x1_0000_0000_0000_0000

  type u16 = n: nat | n < U16_BOUND
  type u32 = n: nat | n < U32_BOUND
  type u64 = n: nat | n < U64_BOUND
}
