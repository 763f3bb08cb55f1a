/**
 * The browser's `btoa` and `atob`: the base64 alphabet of section 4 of
 * RFC 4648, with `atob` following the WHATWG "forgiving-base64 decode"
 * (ASCII whitespace skipped, padding optional, leftover bits discarded).
 * Both work on "binary strings" whose characters are byte values.
 */
module Base64 {
  import opened JsValues

  /** The character for a 6-bit value. */
  function Sextet(v: int): (c: char)
    requires 0 <= v < 64
    ensures IsAlphabetChar(c)
  {
    if v < 26 then ('A' as int + v) as char
    else if v < 52 then ('a' as int + (v - 26)) as char
    else if v < 62 then ('0' as int + (v - 52)) as char
    else if v == 62 then '+'
    else '/'
  }

  predicate IsAlphabetChar(c: char)
  {
    IsAsciiUpper(c) || IsAsciiLower(c) || IsAsciiDigit(c) || c == '+' || c == '/'
  }

  /** The 6-bit value of an alphabet character; the inverse of `Sextet`. */
  function SextetValue(c: char): (v: int)
    requires IsAlphabetChar(c)
    ensures 0 <= v < 64 && Sextet(v) == c
  {
    if IsAsciiUpper(c) then c as int - 'A' as int
    else if IsAsciiLower(c) then c as int - 'a' as int + 26
    else if IsAsciiDigit(c) then c as int - '0' as int + 52
    else if c == '+' then 62
    else 63
  }

  lemma SextetRoundTrip(v: int)
    requires 0 <= v < 64
    ensures IsAlphabetChar(Sextet(v)) && SextetValue(Sextet(v)) == v
  {
  }

  /** The four characters for three bytes. */
  function Group3(x: Byte, y: Byte, z: Byte): string
  {
    [Sextet(x / 4), Sextet((x % 4) * 16 + y / 16), Sextet((y % 16) * 4 + z / 64), Sextet(z % 64)]
  }

  /** Base64 without the trailing `=` characters. */
  function EncodeUnpadded(b: Bytes): string
    decreases |b|
  {
    if |b| == 0 then []
    else if |b| == 1 then [Sextet(b[0] / 4), Sextet((b[0] % 4) * 16)]
    else if |b| == 2 then [Sextet(b[0] / 4), Sextet((b[0] % 4) * 16 + b[1] / 16), Sextet((b[1] % 16) * 4)]
    else Group3(b[0], b[1], b[2]) + EncodeUnpadded(b[3..])
  }

  function Padding(n: nat): string
  {
    if n % 3 == 1 then "==" else if n % 3 == 2 then "=" else ""
  }

  /** `btoa` applied to the binary string of `b` (RFC 4648 section 4, padded). */
  function Encode(b: Bytes): string
  {
    EncodeUnpadded(b) + Padding(|b|)
  }

  /** The binary string whose character codes are the bytes, as `String.fromCharCode` builds it. */
  function BinaryString(b: Bytes): (s: string)
    ensures |s| == |b|
    ensures forall i :: 0 <= i < |b| ==> s[i] as int == b[i]
  {
    seq(|b|, i requires 0 <= i < |b| => b[i] as char)
  }

  predicate IsBinaryString(s: string)
  {
    forall i :: 0 <= i < |s| ==> s[i] as int < 256
  }

  /** The bytes of a binary string, as `charCodeAt` reads them one by one. */
  function CharCodes(s: string): (b: Bytes)
    requires IsBinaryString(s)
    ensures |b| == |s|
    ensures forall i :: 0 <= i < |s| ==> b[i] == s[i] as int
  {
    seq(|s|, i requires 0 <= i < |s| => s[i] as int)
  }

  /** `charCodeAt` reads back the bytes `String.fromCharCode` wrote. */
  lemma CharCodesOfBinaryString(b: Bytes)
    ensures IsBinaryString(BinaryString(b))
    ensures CharCodes(BinaryString(b)) == b
  {
  }

  /** `btoa`: throws `InvalidCharacterError` on a character above U+00FF. */
  function Btoa(data: string): (r: Result<string>)
    ensures r.Ok? <==> IsBinaryString(data)
    ensures r.Ok? ==> r.value == Encode(CharCodes(data))
  {
    if IsBinaryString(data) then Ok(Encode(CharCodes(data)))
    else Throw(DomException(InvalidCharacterError))
  }

  predicate IsAsciiWhitespace(c: char)
  {
    c == '\t' || c == '\n' || c == '\U{000C}' || c == '\r' || c == ' '
  }

  function StripWhitespace(s: string): (t: string)
    ensures |t| <= |s|
    ensures forall i :: 0 <= i < |t| ==> !IsAsciiWhitespace(t[i])
  {
    if s == [] then []
    else if IsAsciiWhitespace(s[0]) then StripWhitespace(s[1..])
    else [s[0]] + StripWhitespace(s[1..])
  }

  /** Removes one or two trailing `=` when the length is a multiple of four. */
  function StripPadding(t: string): string
  {
    if |t| % 4 == 0 && |t| >= 2 && t[|t| - 2..] == "==" then t[..|t| - 2]
    else if |t| % 4 == 0 && |t| >= 1 && t[|t| - 1] == '=' then t[..|t| - 1]
    else t
  }

  predicate AllAlphabet(t: string)
  {
    forall i :: 0 <= i < |t| ==> IsAlphabetChar(t[i])
  }

  /** The bytes of unpadded base64 text, leftover bits discarded. */
  function DecodeSextets(t: string): (b: Bytes)
    requires AllAlphabet(t) && |t| % 4 != 1
    decreases |t|
  {
    if |t| == 0 then []
    else
      var p, q := SextetValue(t[0]), SextetValue(t[1]);
      if |t| == 2 then [p * 4 + q / 16]
      else
        var r := SextetValue(t[2]);
        if |t| == 3 then [p * 4 + q / 16, (q % 16) * 16 + r / 4]
        else [p * 4 + q / 16, (q % 16) * 16 + r / 4, (r % 4) * 64 + SextetValue(t[3])] + DecodeSextets(t[4..])
  }

  /** `atob` as bytes: `None` where the browser throws `InvalidCharacterError`. */
  function Decode(s: string): Option<Bytes>
  {
    var t := StripPadding(StripWhitespace(s));
    if |t| % 4 == 1 || !AllAlphabet(t) then None else Some(DecodeSextets(t))
  }

  /** `atob`: the binary string, or the thrown `InvalidCharacterError`. */
  function Atob(s: string): (r: Result<string>)
    ensures r.Ok? <==> Decode(s).Some?
    ensures r.Ok? ==> IsBinaryString(r.value) && CharCodes(r.value) == Decode(s).value
  {
    match Decode(s)
    case Some(b) => Ok(BinaryString(b))
    case None => Throw(DomException(InvalidCharacterError))
  }

  // ---------------------------------------------------------------------
  // Round trip: atob(btoa(x)) == x

  lemma GroupArithmetic(x: Byte, y: Byte, z: Byte)
    ensures (x / 4) * 4 + ((x % 4) * 16 + y / 16) / 16 == x
    ensures (((x % 4) * 16 + y / 16) % 16) * 16 + ((y % 16) * 4 + z / 64) / 4 == y
    ensures (((y % 16) * 4 + z / 64) % 4) * 64 + z % 64 == z
  {
  }

  lemma {:induction false} UnpaddedShape(b: Bytes)
    ensures |EncodeUnpadded(b)| == 4 * (|b| / 3) + (if |b| % 3 == 0 then 0 else |b| % 3 + 1)
    ensures AllAlphabet(EncodeUnpadded(b))
    decreases |b|
  {
    if |b| >= 3 {
      UnpaddedShape(b[3..]);
      var g := Group3(b[0], b[1], b[2]);
      assert AllAlphabet(g);
      assert EncodeUnpadded(b) == g + EncodeUnpadded(b[3..]);
    }
  }

  /** One step of `DecodeSextets`: the first four characters give three bytes. */
  lemma DecodeFirstGroup(t: string)
    requires AllAlphabet(t) && |t| % 4 != 1 && |t| >= 4
    ensures AllAlphabet(t[4..]) && |t[4..]| % 4 != 1
    ensures var p, q, r, s := SextetValue(t[0]), SextetValue(t[1]), SextetValue(t[2]), SextetValue(t[3]);
            DecodeSextets(t) == [p * 4 + q / 16, (q % 16) * 16 + r / 4, (r % 4) * 64 + s] + DecodeSextets(t[4..])
  {
    assert forall i :: 0 <= i < |t[4..]| ==> t[4..][i] == t[i + 4];
  }

  lemma DecodeGroup(x: Byte, y: Byte, z: Byte, rest: string)
    requires AllAlphabet(rest) && |rest| % 4 != 1
    ensures AllAlphabet(Group3(x, y, z) + rest) && (|Group3(x, y, z) + rest|) % 4 != 1
    ensures DecodeSextets(Group3(x, y, z) + rest) == [x, y, z] + DecodeSextets(rest)
  {
    var a, b, c, d := x / 4, (x % 4) * 16 + y / 16, (y % 16) * 4 + z / 64, z % 64;
    SextetRoundTrip(a);
    SextetRoundTrip(b);
    SextetRoundTrip(c);
    SextetRoundTrip(d);
    var t := Group3(x, y, z) + rest;
    assert t[..4] == [Sextet(a), Sextet(b), Sextet(c), Sextet(d)] && t[4..] == rest;
    assert AllAlphabet(t) by {
      forall i | 0 <= i < |t| ensures IsAlphabetChar(t[i]) {
        if i >= 4 { assert t[i] == rest[i - 4]; } else { assert t[i] == t[..4][i]; }
      }
    }
    DecodeFirstGroup(t);
    assert SextetValue(t[0]) == a && SextetValue(t[1]) == b && SextetValue(t[2]) == c && SextetValue(t[3]) == d;
    GroupArithmetic(x, y, z);
  }

  lemma DecodeTail(b: Bytes)
    requires 0 < |b| < 3
    ensures AllAlphabet(EncodeUnpadded(b)) && |EncodeUnpadded(b)| % 4 != 1
    ensures DecodeSextets(EncodeUnpadded(b)) == b
  {
    SextetRoundTrip(b[0] / 4);
    if |b| == 1 {
      SextetRoundTrip((b[0] % 4) * 16);
    } else {
      SextetRoundTrip((b[0] % 4) * 16 + b[1] / 16);
      SextetRoundTrip((b[1] % 16) * 4);
      GroupArithmetic(b[0], b[1], 0);
    }
  }

  lemma {:induction false} DecodeUnpadded(b: Bytes)
    ensures AllAlphabet(EncodeUnpadded(b)) && |EncodeUnpadded(b)| % 4 != 1
    ensures DecodeSextets(EncodeUnpadded(b)) == b
    decreases |b|
  {
    if 0 < |b| < 3 {
      DecodeTail(b);
    } else if |b| >= 3 {
      var rest := EncodeUnpadded(b[3..]);
      DecodeUnpadded(b[3..]);
      DecodeGroup(b[0], b[1], b[2], rest);
      assert EncodeUnpadded(b) == Group3(b[0], b[1], b[2]) + rest;
      assert b == [b[0], b[1], b[2]] + b[3..];
    }
  }

  lemma StripWhitespaceNoop(s: string)
    requires forall i :: 0 <= i < |s| ==> !IsAsciiWhitespace(s[i])
    ensures StripWhitespace(s) == s
  {
    if s != [] {
      StripWhitespaceNoop(s[1..]);
    }
  }

  lemma StripTwo(u: string)
    requires |u| % 4 == 2
    ensures StripPadding(u + "==") == u
  {
    var e := u + "==";
    assert e[|e| - 2..] == "==";
    assert e[..|e| - 2] == u;
  }

  lemma StripOne(u: string)
    requires |u| % 4 == 3 && AllAlphabet(u)
    ensures StripPadding(u + "=") == u
  {
    var e := u + "=";
    assert e[|e| - 2] == u[|u| - 1];
    assert e[|e| - 2..] != "==";
    assert e[..|e| - 1] == u;
  }

  lemma StripNone(u: string)
    requires |u| % 4 == 0 && AllAlphabet(u)
    ensures StripPadding(u) == u
  {
    if |u| >= 1 {
      assert IsAlphabetChar(u[|u| - 1]);
      assert u[|u| - 2..][1] == u[|u| - 1];
    }
  }

  /** Padding `n` bytes' worth of unpadded alphabet text and stripping it again gives the text back. */
  lemma StripPaddingOf(u: string, n: nat)
    requires |u| == 4 * (n / 3) + (if n % 3 == 0 then 0 else n % 3 + 1)
    requires AllAlphabet(u)
    ensures StripPadding(u + Padding(n)) == u
  {
    var q := n / 3;
    assert (4 * q) % 4 == 0;
    if n % 3 == 1 {
      assert |u| % 4 == 2;
      StripTwo(u);
    } else if n % 3 == 2 {
      assert |u| % 4 == 3;
      StripOne(u);
    } else {
      assert u + Padding(n) == u;
      StripNone(u);
    }
  }

  lemma StripPaddingEncode(b: Bytes)
    ensures StripPadding(Encode(b)) == EncodeUnpadded(b)
  {
    UnpaddedShape(b);
    StripPaddingOf(EncodeUnpadded(b), |b|);
  }

  lemma EncodeHasNoWhitespace(b: Bytes)
    ensures forall i :: 0 <= i < |Encode(b)| ==> !IsAsciiWhitespace(Encode(b)[i])
  {
    var u, e := EncodeUnpadded(b), Encode(b);
    UnpaddedShape(b);
    forall i | 0 <= i < |e| ensures !IsAsciiWhitespace(e[i]) {
      if i < |u| { assert e[i] == u[i]; }
    }
  }

  /** `Decode` inverts `Encode` on every byte string. */
  lemma DecodeEncode(b: Bytes)
    ensures Decode(Encode(b)) == Some(b)
  {
    EncodeHasNoWhitespace(b);
    StripWhitespaceNoop(Encode(b));
    StripPaddingEncode(b);
    DecodeUnpadded(b);
  }

  /** A 256-bit key encodes to 44 characters and decodes back. */
  lemma EncodeKey256(b: Bytes)
    requires |b| == 32
    ensures |Encode(b)| == 44 && Decode(Encode(b)) == Some(b)
  {
    EncodeLength(b);
    assert 4 * ((|b| + 2) / 3) == 44;
    DecodeEncode(b);
  }

  /** The base64 text of `n` bytes is `4 * ceil(n / 3)` characters long. */
  lemma EncodeLength(b: Bytes)
    ensures |Encode(b)| == 4 * ((|b| + 2) / 3)
  {
    UnpaddedShape(b);
    var q, r := |b| / 3, |b| % 3;
    assert |b| + 2 == 3 * q + (r + 2);
    assert (|b| + 2) / 3 == q + (if r == 0 then 0 else 1);
    assert |Padding(|b|)| == (if r == 0 then 0 else 3 - r);
  }
}
