/** Values the platform hands to the library: optionals, bytes and `Data`. */
module Primitives {

  /** Swift's `Optional<T>`: `nil` or `.some(value)`. */
  datatype Option<+T> = None | Some(value: T)

  /** One octet of a `Data` buffer. */
  newtype byte = b: int | 0 <= b < 0x100

  /** Foundation's `Data`: a byte buffer. */
  type Data = seq<byte>

  /** Foundation's `URL`, kept as its absolute string. */
  type URL = string
}
