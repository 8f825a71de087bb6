/** The types every component shares. */
module Wrappers {

  datatype Option<+T> = None | Some(value: T)

  type Byte = b: int | 0 <= b < 256

  /** A task is known by the number of its control block. */
  type TaskId = nat

  function Min(a: nat, b: nat): nat {
    if a < b then a else b
  }
}
