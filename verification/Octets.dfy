/** Octets as numbers, for code that computes with them rather than with their bits. */
module Octets {

  newtype Octet = x: int | 0 <= x < 256

  type Blob = seq<Octet>

  function Blank(n: nat): (b: Blob)
    ensures |b| == n
  {
    seq(n, _ => 0)
  }
}
