/** Bytes and two-byte words in network order. */
module Bytes {

  type Byte = x: nat | x < 0x100

  type Word = x: nat | x < 0x1_0000

  function WordOf(high: Byte, low: Byte): Word {
    0x100 * high + low
  }

  /** `to_be_bytes`. */
  function BigEndian(w: Word): (bytes: seq<Byte>)
    ensures |bytes| == 2 && WordOf(bytes[0], bytes[1]) == w
    ensures 256 * (bytes[0] as int) + bytes[1] as int == w
  {
    [w / 0x100, w % 0x100]
  }

  lemma Associative(a: seq<Byte>, b: seq<Byte>, c: seq<Byte>)
    ensures a + (b + c) == a + b + c
  {
  }
}
