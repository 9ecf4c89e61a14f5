/** Octets and the big-endian integers shared by the binary parsers. */
module Bytes {
  type byte = x: int | 0 <= x < 256

  datatype Option<+T> = None | Some(value: T)

  // Two octets as an integer, the first the more significant.
  function U16(hi: byte, lo: byte): (n: nat)
    ensures n < 65536
  {
    hi * 256 + lo
  }

  function FromU16(n: nat): (s: seq<byte>)
    requires n < 65536
    ensures |s| == 2 && U16(s[0], s[1]) == n
  {
    [n / 256, n % 256]
  }
}
