/**
 * Core Graphics value types used by layer geometry. The emulator stores `f32`
 * components; the model uses mathematical reals, so there is no rounding and no NaN.
 */
module CoreGraphics {

  datatype CGPoint = CGPoint(x: real, y: real)

  datatype CGSize = CGSize(width: real, height: real)

  datatype CGRect = CGRect(origin: CGPoint, size: CGSize)

  const ZeroPoint: CGPoint := CGPoint(0.0, 0.0)

  const ZeroRect: CGRect := CGRect(ZeroPoint, CGSize(0.0, 0.0))

  /** Rust's half-open `start..end` range membership, `start <= v < end`. */
  predicate InRange(start: real, end: real, v: real) {
    start <= v < end
  }
}
