/** Bytes, shared by the models of all components. */
module Bytes {
  type Byte = b: int | 0 <= b < 256
}
