/** What several modules share. */
module Basics {

  datatype Option<+T> = None | Some(value: T)

  function Min(a: int, b: int): int { if a <= b then a else b }

  function Max(a: int, b: int): int { if a <= b then b else a }

  newtype Byte = b: int | 0 <= b < 256

  type Bytes = seq<Byte>
}
