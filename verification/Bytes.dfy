/** The unit of everything that is read and written. */
module Bytes {
  type Byte = b: int | 0 <= b < 256
}
