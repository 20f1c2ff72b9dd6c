/** The byte of Go, where it counts bytes or adds to them. */
module Bytes {
  type Byte = b: int | 0 <= b < 256
}
