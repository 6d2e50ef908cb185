/** Bytes as numbers. */
module Octets {
  type Octet = x: int | 0 <= x < 256

  type Octets = seq<Octet>
}
