/** Small datatypes the modules share. */
module Wrappers {

  type byte = x: int | 0 <= x < 256

  datatype Option<+T> = None | Some(value: T)

  /** A value for each of two things numbered 0 and 1. */
  datatype Two<T> = Two(zero: T, one: T) {
    function At(i: nat): T {
      if i == 0 then zero else one
    }

    function With(i: nat, value: T): Two<T> {
      if i == 0 then Two(value, one) else Two(zero, value)
    }
  }
}
