// Go strings are byte sequences holding UTF-8 text: `len` counts bytes and
// `s[:n]` cuts bytes. This module gives the UTF-8 encoding of a Dafny string
// (a sequence of Unicode scalar values) as such a byte sequence.
module Utf8 {

  newtype byte = x: int | 0 <= x < 256

  /** The 1 to 4 bytes UTF-8 uses for one scalar value. */
  function EncodeChar(c: char): (b: seq<byte>)
    ensures 1 <= |b| <= 4
    ensures |b| == 1 <==> c as int < 0x80
    ensures |b| == 3 <==> 0x800 <= c as int < 0x10000
    ensures |b| == 1 ==> b[0] as int == c as int
    ensures |b| > 1 ==> 0xC0 <= b[0] && forall i :: 1 <= i < |b| ==> 0x80 <= b[i] < 0xC0
  {
    var n := c as int;
    if n < 0x80 then [n as byte]
    else if n < 0x800 then [(0xC0 + n / 64) as byte, (0x80 + n % 64) as byte]
    else if n < 0x10000 then [(0xE0 + n / 4096) as byte, (0x80 + (n / 64) % 64) as byte, (0x80 + n % 64) as byte]
    else [(0xF0 + n / 262144) as byte, (0x80 + (n / 4096) % 64) as byte, (0x80 + (n / 64) % 64) as byte,
          (0x80 + n % 64) as byte]
  }

  /** The bytes of a Go string holding the text `s`. */
  function Encode(s: string): (b: seq<byte>)
    ensures |s| <= |b| <= 4 * |s|
  {
    if s == [] then [] else EncodeChar(s[0]) + Encode(s[1..])
  }

  predicate IsAscii(s: string) {
    forall i :: 0 <= i < |s| ==> s[i] as int < 0x80
  }

  /** Characters from U+0800 to U+FFFF, which covers kana, kanji and most CJK text. */
  predicate IsThreeByte(s: string) {
    forall i :: 0 <= i < |s| ==> 0x800 <= s[i] as int < 0x10000
  }

  /** ASCII text has one byte per character, so byte and character lengths agree. */
  lemma {:induction false} AsciiLength(s: string)
    requires IsAscii(s)
    ensures |Encode(s)| == |s|
  {
    if s != [] {
      assert IsAscii(s[1..]) by {
        forall i | 0 <= i < |s[1..]| ensures s[1..][i] as int < 0x80 {
          assert s[1..][i] == s[i + 1];
        }
      }
      AsciiLength(s[1..]);
    }
  }

  /** Text made of U+0800..U+FFFF characters takes three bytes per character. */
  lemma {:induction false} ThreeByteLength(s: string)
    requires IsThreeByte(s)
    ensures |Encode(s)| == 3 * |s|
  {
    if s != [] {
      assert IsThreeByte(s[1..]) by {
        forall i | 0 <= i < |s[1..]| ensures 0x800 <= s[1..][i] as int < 0x10000 {
          assert s[1..][i] == s[i + 1];
        }
      }
      ThreeByteLength(s[1..]);
    }
  }

  /** Encoding distributes over concatenation. */
  lemma {:induction false} EncodeAppend(s: string, t: string)
    ensures Encode(s + t) == Encode(s) + Encode(t)
  {
    if s != [] {
      assert (s + t)[0] == s[0];
      assert (s + t)[1..] == s[1..] + t;
      EncodeAppend(s[1..], t);
    } else {
      assert s + t == t;
    }
  }
}
