/** C++ doubles without rounding: every finite double is the real number it stands for. */
module Doubles {

  datatype Double = NaN | Inf(negative: bool) | Fin(value: real)

  predicate IsFinite(d: Double) {
    d.Fin?
  }

  predicate IsZero(d: Double) {
    d == Fin(0.0)
  }

  /** Finite and inside the closed range, the comparison both sides use on command values. */
  predicate Within(d: Double, lower: real, upper: real) {
    d.Fin? && lower <= d.value <= upper
  }
}

module Wrappers {
  datatype Option<+T> = None | Some(value: T)
}
