/** How many bytes a text takes. */
module Utf8 {

  function CharBytes(c: char): nat {
    var n := c as int;
    if n < 0x80 then 1 else if n < 0x800 then 2 else if n < 0x1_0000 then 3 else 4
  }

  /** The length of the UTF-8 encoding. */
  function ByteLength(s: string): nat {
    if s == [] then 0 else CharBytes(s[0]) + ByteLength(s[1..])
  }

  // ---------------------------------------------------------------- the encoding itself

  /** The last six bits of a number, as a continuation byte. */
  function Tail(n: int): int {
    0x80 + n % 0x40
  }

  function EncodeChar(c: char): seq<int> {
    var n := c as int;
    match CharBytes(c)
    case 1 => [n]
    case 2 => [0xC0 + n / 0x40, Tail(n)]
    case 3 => [0xE0 + n / 0x1000, Tail(n / 0x40), Tail(n)]
    case _ => [0xF0 + n / 0x4_0000, Tail(n / 0x1000), Tail(n / 0x40), Tail(n)]
  }

  function Encode(s: string): seq<int> {
    if s == [] then [] else EncodeChar(s[0]) + Encode(s[1..])
  }

  /** The number of bytes that a first byte announces; 0 for one that no character starts with. */
  function Announced(first: int): nat {
    if first < 0x80 then 1
    else if 0xC0 <= first < 0xE0 then 2
    else if 0xE0 <= first < 0xF0 then 3
    else if 0xF0 <= first < 0xF8 then 4
    else 0
  }

  /** The code point that the bytes of one character stand for. */
  function Decoded(bytes: seq<int>): int {
    match |bytes|
    case 1 => bytes[0]
    case 2 => (bytes[0] - 0xC0) * 0x40 + (bytes[1] - 0x80)
    case 3 => (bytes[0] - 0xE0) * 0x1000 + (bytes[1] - 0x80) * 0x40 + (bytes[2] - 0x80)
    case 4 => (bytes[0] - 0xF0) * 0x4_0000 + (bytes[1] - 0x80) * 0x1000 + (bytes[2] - 0x80) * 0x40 + (bytes[3] - 0x80)
    case _ => -1
  }

  /** The encoding is well formed, announces its own length, can be decoded, and no shorter one would do. */
  lemma CharRoundTrip(c: char)
    ensures var bytes := EncodeChar(c);
      && |bytes| == CharBytes(c) == Announced(bytes[0])
      && (forall i | 1 <= i < |bytes| :: 0x80 <= bytes[i] < 0xC0)
      && Decoded(bytes) == c as int
      && c as int >= [0, 0x80, 0x800, 0x1_0000][|bytes| - 1]
  {
    var n := c as int;
    assert n / 0x40 / 0x40 == n / 0x1000 && n / 0x1000 / 0x40 == n / 0x4_0000;
  }

  lemma {:induction false} LengthIsEncoded(s: string)
    ensures ByteLength(s) == |Encode(s)|
  {
    if s != [] {
      CharRoundTrip(s[0]);
      LengthIsEncoded(s[1..]);
    }
  }
}
