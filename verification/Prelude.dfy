// Names shared by every module: identifiers, bytes, and the optional value that stands for a
// null pointer or an error return.
module Prelude {

  type FileId = string
  type ClientId = string
  type Digest = string
  /** A socket object; two sockets are the same object exactly when their numbers agree. */
  type Sock = nat

  newtype Byte = x: int | 0 <= x < 256

  datatype Option<+T> = None | Some(value: T)

  function Min(a: int, b: int): int {
    if a <= b then a else b
  }
}
