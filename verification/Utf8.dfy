/** The byte form of text: UTF-8 (RFC 3629, section 3). */
module Utf8 {
  import opened Basics

  type Scalar = c: int | 0 <= c < 0x110000

  /** The bytes of one code point. */
  function Encoded(c: Scalar): (r: Bytes)
    ensures r != []
  {
    if c < 0x80 then [c]
    else if c < 0x800 then [0xC0 + c / 64, 0x80 + c % 64]
    else if c < 0x10000 then [0xE0 + c / 4096, 0x80 + c / 64 % 64, 0x80 + c % 64]
    else [0xF0 + c / 262144, 0x80 + c / 4096 % 64, 0x80 + c / 64 % 64, 0x80 + c % 64]
  }

  function Encoding(cs: seq<Scalar>): Bytes {
    if cs == [] then [] else Encoded(cs[0]) + Encoding(cs[1..])
  }
}
