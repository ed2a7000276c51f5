/**
 * Failure-carrying result types, and the one integer width, shared by every module of the model.
 *
 * The emulator reports broken invariants with `assert!`/`unwrap()` panics, which end the
 * process; the model turns each of them into the `Fatal` alternative of `Result`.
 */
module Outcomes {

  /** An optional value (Rust's `Option`). */
  datatype Option<+T> = None | Some(value: T)

  /** The result of an operation that either completes or hits a fatal assertion. */
  datatype Result<+T> = Ok(value: T) | Fatal

  /**
   * Which reading of a defective source line an operation follows: the code as it is
   * written, or the behaviour its authors evidently intended.
   */
  datatype Variant = AsWritten | Intended

  /** The largest value of a 32-bit unsigned integer (`u32`, and the guest's `GuestUSize`). */
  const U32_MAX: nat := 0xFFFF_FFFF
}
