/** Value types shared by every module. */
module Basics {
  datatype Option<+T> = None | Some(value: T)

  /** Nanoseconds on the process clock. */
  type Time = int

  const MILLISECOND: Time := 1_000_000
  const SECOND: Time := 1000 * MILLISECOND
  const MINUTE: Time := 60 * SECOND

  function Min(a: int, b: int): int {
    if a < b then a else b
  }
}
