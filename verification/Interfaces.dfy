/** How a command interface answers: src/bxi_pair_adapter.cpp and src/n_axis_trajectory_controller.cpp
    write each value and read it back. */
module Interfaces {
  import opened Doubles

  /** One write: taken or refused, what the cell then holds if it was taken, and whether reading it back
      was answered. */
  datatype Answer = Answer(taken: bool, stored: Double, read: bool)

  /** The very value was read back. */
  predicate Back(a: Answer, value: Double) {
    a.taken && a.read && a.stored.Fin? && a.stored == value
  }

  function Held(a: Answer, before: Double): Double {
    if a.taken then a.stored else before
  }
}
