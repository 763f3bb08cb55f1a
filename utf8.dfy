/**
 * `TextEncoder.prototype.encode`: the UTF-8 encoding of a string of Unicode
 * scalar values (RFC 3629, section 3).
 */
module Utf8 {
  import opened JsValues

  function EncodeChar(c: char): (b: Bytes)
    ensures 1 <= |b| <= 4
    ensures (|b| == 1) <==> c as int < 0x80
  {
    var n := c as int;
    if n < 0x80 then [n]
    else if n < 0x800 then [0xC0 + n / 64, 0x80 + n % 64]
    else if n < 0x1_0000 then [0xE0 + n / 4096, 0x80 + (n / 64) % 64, 0x80 + n % 64]
    else [0xF0 + n / 262144, 0x80 + (n / 4096) % 64, 0x80 + (n / 64) % 64, 0x80 + n % 64]
  }

  function Encode(s: string): (b: Bytes)
    ensures |b| >= |s|
  {
    if s == [] then [] else EncodeChar(s[0]) + Encode(s[1..])
  }

  /** ASCII text (a PIN of digits, say) encodes to its own character codes. */
  lemma {:induction false} EncodeAscii(s: string)
    requires forall i :: 0 <= i < |s| ==> s[i] as int < 0x80
    ensures Encode(s) == seq(|s|, i requires 0 <= i < |s| => s[i] as int)
  {
    if s != [] {
      EncodeAscii(s[1..]);
    }
  }
}
