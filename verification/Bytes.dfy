/** Strings as the bytes they are made of. */
module Bytes {
  newtype Byte = x: int | 0 <= x < 256

  type Text = seq<Byte>
}
