/** Bytes as numbers. */
module Octets {
  type Byte = x: nat | x < 256
}
