/** Octets, as the byte buffers of the source hold them. */
module Bytes {
  newtype byte = x: int | 0 <= x < 256
}
