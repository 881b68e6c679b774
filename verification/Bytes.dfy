/** Bytes, as they are sent and received. */
module Bytes {
  newtype byte = x: int | 0 <= x < 256
}
