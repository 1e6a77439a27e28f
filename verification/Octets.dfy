/** Bytes, as the parsers and the viewer read them. */
module Octets {
  type byte = b: int | 0 <= b < 256
  type Bytes = seq<byte>
}
