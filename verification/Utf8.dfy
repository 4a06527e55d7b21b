/** UTF-8 (RFC 3629): characters to bytes, and the byte sequences that are well formed. */
module Utf8 {
  import opened Wrappers
  import opened Bytes

  function EncodeChar(c: char): (bytes: seq<Byte>)
    ensures 1 <= |bytes| <= 4
  {
    var n := c as int;
    if n < 0x80 then [n]
    else if n < 0x800 then [0xC0 + n / 0x40, 0x80 + n % 0x40]
    else if n < 0x1_0000 then [0xE0 + n / 0x1000, 0x80 + n / 0x40 % 0x40, 0x80 + n % 0x40]
    else [0xF0 + n / 0x4_0000, 0x80 + n / 0x1000 % 0x40, 0x80 + n / 0x40 % 0x40, 0x80 + n % 0x40]
  }

  function Encode(text: string): seq<Byte> {
    if text == "" then [] else EncodeChar(text[0]) + Encode(text[1..])
  }

  /** Bytes a character takes, read off its first byte. */
  function Width(lead: Byte): (w: nat)
    ensures 1 <= w <= 4
  {
    if lead < 0x80 then 1 else if lead < 0xE0 then 2 else if lead < 0xF0 then 3 else 4
  }

  lemma WidthOfChar(c: char)
    ensures Width(EncodeChar(c)[0]) == |EncodeChar(c)|
  {
  }

  lemma {:induction false} EncodeAppend(a: string, b: string)
    ensures Encode(a + b) == Encode(a) + Encode(b)
  {
    if a == "" {
      assert a + b == b;
    } else {
      EncodeAppend(a[1..], b);
      assert (a + b)[0] == a[0] && (a + b)[1..] == a[1..] + b;
      Associative(EncodeChar(a[0]), Encode(a[1..]), Encode(b));
    }
  }

  lemma EncodeOne(c: char)
    ensures Encode([c]) == EncodeChar(c)
  {
    assert Encode([c][1..]) == [];
  }

  predicate IsAscii(text: string) {
    text == "" || (text[0] as int < 0x80 && IsAscii(text[1..]))
  }

  /** A text takes as many bytes as it has characters exactly when it is ASCII, and never fewer. */
  lemma {:induction false} EncodeLength(text: string)
    ensures |Encode(text)| >= |text|
    ensures |Encode(text)| == |text| <==> IsAscii(text)
  {
    if text != "" {
      EncodeLength(text[1..]);
    }
  }

  // ---------------------------------------------------------------------- the grammar

  predicate IsTail(b: Byte) {
    0x80 <= b < 0xC0
  }

  /** The length of the character at the front, by the syntax table of RFC 3629, section 4. */
  function FrontLength(bytes: seq<Byte>): (r: Option<nat>)
    ensures r.Some? ==> 1 <= r.value <= 4 && r.value <= |bytes|
  {
    if |bytes| >= 1 && bytes[0] < 0x80 then Some(1)
    else if |bytes| >= 2 && 0xC2 <= bytes[0] < 0xE0 && IsTail(bytes[1]) then Some(2)
    else if |bytes| >= 3 && 0xE0 <= bytes[0] < 0xF0 && IsTail(bytes[1]) && IsTail(bytes[2]) &&
            (bytes[0] == 0xE0 ==> bytes[1] >= 0xA0) && (bytes[0] == 0xED ==> bytes[1] < 0xA0) then Some(3)
    else if |bytes| >= 4 && 0xF0 <= bytes[0] < 0xF5 && IsTail(bytes[1]) && IsTail(bytes[2]) && IsTail(bytes[3]) &&
            (bytes[0] == 0xF0 ==> bytes[1] >= 0x90) && (bytes[0] == 0xF4 ==> bytes[1] < 0x90) then Some(4)
    else None
  }

  predicate WellFormed(bytes: seq<Byte>) {
    bytes == [] || (FrontLength(bytes).Some? && WellFormed(bytes[FrontLength(bytes).value..]))
  }

  lemma FrontOfChar(c: char, rest: seq<Byte>)
    ensures FrontLength(EncodeChar(c) + rest) == Some(|EncodeChar(c)|)
  {
  }

  /** What the encoder writes is well formed. */
  lemma {:induction false} EncodedIsWellFormed(text: string)
    ensures WellFormed(Encode(text))
  {
    if text != "" {
      EncodedIsWellFormed(text[1..]);
      FrontOfChar(text[0], Encode(text[1..]));
      assert Encode(text)[|EncodeChar(text[0])|..] == Encode(text[1..]);
    }
  }

  lemma CharOfFront(bytes: seq<Byte>) returns (c: char)
    requires FrontLength(bytes).Some?
    ensures EncodeChar(c) == bytes[..FrontLength(bytes).value]
  {
    var n := FrontLength(bytes).value;
    if n == 1 {
      c := bytes[0] as char;
    } else if n == 2 {
      var high: int, low: int := bytes[0] - 0xC0, bytes[1] - 0x80;
      c := (high * 0x40 + low) as char;
    } else if n == 3 {
      c := CharOfThree(bytes[0], bytes[1], bytes[2]);
    } else {
      c := CharOfFour(bytes[0], bytes[1], bytes[2], bytes[3]);
    }
  }

  lemma CharOfThree(b0: Byte, b1: Byte, b2: Byte) returns (c: char)
    requires FrontLength([b0, b1, b2]) == Some(3)
    ensures EncodeChar(c) == [b0, b1, b2]
  {
    c := ((b0 - 0xE0) * 0x1000 + (b1 - 0x80) * 0x40 + (b2 - 0x80)) as char;
    Digits64(b0 - 0xE0, b1 - 0x80, b2 - 0x80);
  }

  lemma CharOfFour(b0: Byte, b1: Byte, b2: Byte, b3: Byte) returns (c: char)
    requires FrontLength([b0, b1, b2, b3]) == Some(4)
    ensures EncodeChar(c) == [b0, b1, b2, b3]
  {
    var high := (b0 - 0xF0) * 0x40 + (b1 - 0x80);
    c := (high * 0x1000 + (b2 - 0x80) * 0x40 + (b3 - 0x80)) as char;
    Digits64(high, b2 - 0x80, b3 - 0x80);
    Digits64(b0 - 0xF0, b1 - 0x80, 0);
  }

  lemma Digits64(high: int, middle: int, low: int)
    requires 0 <= middle < 0x40 && 0 <= low < 0x40
    ensures var n := high * 0x1000 + middle * 0x40 + low;
            n / 0x1000 == high && n / 0x40 == high * 0x40 + middle && n / 0x40 % 0x40 == middle && n % 0x40 == low
    ensures (high * 0x40 + middle) / 0x40 == high && (high * 0x40 + middle) % 0x40 == middle
  {
  }

  /** Every well-formed byte sequence encodes some text. */
  lemma {:induction false} WellFormedIsEncoded(bytes: seq<Byte>) returns (text: string)
    requires WellFormed(bytes)
    ensures Encode(text) == bytes
  {
    if bytes == [] {
      text := "";
    } else {
      var n := FrontLength(bytes).value;
      var c := CharOfFront(bytes);
      var rest := WellFormedIsEncoded(bytes[n..]);
      text := [c] + rest;
      assert text[1..] == rest;
      assert bytes == bytes[..n] + bytes[n..];
    }
  }

  /** The code point in the bits of a character's bytes, by the table of RFC 3629, section 3. */
  function CodePoint(bytes: seq<Byte>): int
    requires 1 <= |bytes| <= 4
  {
    var b0: int := bytes[0];
    var b1: int, b2: int := if |bytes| > 1 then bytes[1] as int - 0x80 else 0, if |bytes| > 2 then bytes[2] as int - 0x80 else 0;
    if |bytes| == 1 then b0
    else if |bytes| == 2 then 64 * (b0 - 0xC0) + b1
    else if |bytes| == 3 then 64 * (64 * (b0 - 0xE0) + b1) + b2
    else 64 * (64 * (64 * (b0 - 0xF0) + b1) + b2) + (bytes[3] as int - 0x80)
  }

  /** The encoder writes every character's own code point. */
  lemma EncodedCodePoint(c: char)
    ensures CodePoint(EncodeChar(c)) == c as int
  {
    var n := c as int;
    BaseSixtyFour(n);
    var b := EncodeChar(c);
    if n < 0x80 {
    } else if n < 0x800 {
      assert b == [0xC0 + n / 0x40, 0x80 + n % 0x40];
    } else if n < 0x1_0000 {
      assert b == [0xE0 + n / 0x1000, 0x80 + n / 0x40 % 0x40, 0x80 + n % 0x40];
    } else {
      assert b == [0xF0 + n / 0x4_0000, 0x80 + n / 0x1000 % 0x40, 0x80 + n / 0x40 % 0x40, 0x80 + n % 0x40];
    }
  }

  lemma BaseSixtyFour(n: nat)
    ensures n == 64 * (n / 0x40) + n % 0x40
    ensures n / 0x40 == 64 * (n / 0x1000) + n / 0x40 % 0x40
    ensures n / 0x1000 == 64 * (n / 0x4_0000) + n / 0x1000 % 0x40
  {
    assert n / 0x40 / 0x40 == n / 0x1000;
    assert n / 0x1000 / 0x40 == n / 0x4_0000;
  }
}
