/** Bytes and the ones the HTTP code names. */
module Bytes {

  type Byte = b: int | 0 <= b < 256

  const HT: Byte := 9
  const LF: Byte := 10
  const CR: Byte := 13
  const SP: Byte := 32
  const CRLF: seq<Byte> := [CR, LF]
  const COLON: Byte := 58
  const SEMICOLON: Byte := 59
  const DEL: Byte := 127

  /** The size of a 64-bit word. */
  const WORD: nat := 0x1_0000_0000_0000_0000
}
