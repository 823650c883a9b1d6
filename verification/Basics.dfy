/** Small vocabulary shared by every component. */
module Basics {
  datatype Option<+T> = None | Some(value: T)

  /** Times are whole Unix seconds, as every table of the source stores them. */
  type Time = int

  function Max(a: int, b: int): int {
    if a < b then b else a
  }

  function Min(a: int, b: int): int {
    if a < b then a else b
  }
}
