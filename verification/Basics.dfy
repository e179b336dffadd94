/** Small shared vocabulary: optional values, results, and a few facts about sequences. */
module Basics {

  datatype Option<+T> = None | Some(value: T)

  datatype Result<+T, +E> = Ok(value: T) | Err(error: E)

  function Max(a: int, b: int): int {
    if a < b then b else a
  }

  function Min(a: int, b: int): int {
    if a < b then a else b
  }

  type Byte = x: int | 0 <= x < 256

  type Bytes = seq<Byte>
}
