/** Which bytes are encoded text: UTF-8 as section 3 of RFC 3629 defines it. */
module Utf8 {
  import opened Ast

  predicate IsTail(b: Byte) {
    0x80 <= b <= 0xBF
  }

  /** The length of the encoded character the bytes begin with, or 0. */
  function CharLength(bytes: seq<Byte>): (n: nat)
    ensures n <= |bytes|
  {
    var n := |bytes|;
    if n >= 1 && bytes[0] <= 0x7F then 1
    else if n >= 2 && 0xC2 <= bytes[0] <= 0xDF && IsTail(bytes[1]) then 2
    else if n >= 3 && IsTail(bytes[2]) && (
              || (bytes[0] == 0xE0 && 0xA0 <= bytes[1] <= 0xBF)
              || (0xE1 <= bytes[0] <= 0xEC && IsTail(bytes[1]))
              || (bytes[0] == 0xED && 0x80 <= bytes[1] <= 0x9F)
              || (0xEE <= bytes[0] <= 0xEF && IsTail(bytes[1]))) then 3
    else if n >= 4 && IsTail(bytes[2]) && IsTail(bytes[3]) && (
              || (bytes[0] == 0xF0 && 0x90 <= bytes[1] <= 0xBF)
              || (0xF1 <= bytes[0] <= 0xF3 && IsTail(bytes[1]))
              || (bytes[0] == 0xF4 && 0x80 <= bytes[1] <= 0x8F)) then 4
    else 0
  }

  predicate IsUtf8(bytes: seq<Byte>)
    decreases |bytes|
  {
    bytes == [] || (CharLength(bytes) > 0 && IsUtf8(bytes[CharLength(bytes)..]))
  }

  /** The bytes of an ASCII string. */
  function Text(s: string): seq<Byte> {
    seq(|s|, i requires 0 <= i < |s| => if s[i] < '\U{0080}' then s[i] as int else 0)
  }

  predicate IsAscii(bytes: seq<Byte>) {
    forall k :: 0 <= k < |bytes| ==> bytes[k] < 128
  }

  lemma {:induction false} AsciiIsUtf8(bytes: seq<Byte>)
    requires IsAscii(bytes)
    ensures IsUtf8(bytes)
    decreases |bytes|
  {
    if bytes != [] {
      AsciiIsUtf8(bytes[1..]);
    }
  }

  /** No encoded text holds a byte above 0xF4. */
  lemma {:induction false} Utf8Bytes(bytes: seq<Byte>, k: nat)
    requires IsUtf8(bytes) && k < |bytes|
    ensures bytes[k] < 0xF5
    decreases |bytes|
  {
    var n := CharLength(bytes);
    if k >= n {
      Utf8Bytes(bytes[n..], k - n);
    }
  }
}
