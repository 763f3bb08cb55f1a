/**
 * The recovery key: 32 random bytes shown to the user once, as 64 upper-case
 * hex digits in groups of four. The server keeps only its SHA-256 hash and a
 * copy of the DEK wrapped under it.
 */
module RecoveryKey {
  import opened JsValues
  import Base64
  import Text
  import WebCrypto
  import Crypto
  import Dek

  const RecoveryKeyLength := 32

  /** A recovery key as callers pass it: the bytes, or a string. */
  datatype KeyInput = KeyBytes(bytes: Bytes) | KeyString(text: string)

  /** `generateRecoveryKeyBase64()`, the 32 random bytes given. */
  function GenerateRecoveryKeyBase64(random: Bytes): (encoded: string)
    requires |random| == RecoveryKeyLength
    ensures |encoded| == 44
    ensures Base64.Decode(encoded) == Some(random)
  {
    Base64.EncodeKey256(random);
    Base64.Encode(random)
  }

  /** `hashRecoveryKey(key)`: a string is read as base64; the hash is base64 of SHA-256. */
  function HashRecoveryKey(key: KeyInput): (r: Result<string>)
    ensures key.KeyBytes? ==> r.Ok?
    ensures key.KeyString? ==> (r.Ok? <==> Base64.Decode(key.text).Some?)
    ensures r.Throw? ==> r.error == DomException(InvalidCharacterError)
  {
    var data :- match key
      case KeyBytes(b) => Ok(b)
      case KeyString(s) => if Base64.Decode(s).Some? then Ok(Base64.Decode(s).value) else Throw(DomException(InvalidCharacterError));
    Ok(Base64.Encode(WebCrypto.Digest(data)))
  }

  /** `verifyRecoveryKey(key, storedHash)`: the computed hash string equals the stored one. */
  function VerifyRecoveryKey(key: KeyInput, storedHash: string): (r: Result<bool>)
    ensures r.Ok? <==> HashRecoveryKey(key).Ok?
    ensures r.Ok? ==> (r.value <==> HashRecoveryKey(key).value == storedHash)
  {
    var computed :- HashRecoveryKey(key);
    Ok(computed == storedHash)
  }

  /** A key always verifies against its own hash. */
  lemma VerifyOwnHash(key: Bytes)
    ensures VerifyRecoveryKey(KeyBytes(key), HashRecoveryKey(KeyBytes(key)).value) == Ok(true)
  {
  }

  /** The base64 form of a key hashes exactly like its bytes. */
  lemma HashOfBase64FormIsHashOfBytes(random: Bytes)
    requires |random| == RecoveryKeyLength
    ensures HashRecoveryKey(KeyString(GenerateRecoveryKeyBase64(random))) == HashRecoveryKey(KeyBytes(random))
  {
  }

  /** The displayed (hyphenated) form is not base64: hashing it as a string throws. */
  lemma HashOfFormattedKeyThrows(key: Bytes)
    requires |key| == RecoveryKeyLength
    ensures HashRecoveryKey(KeyString(Format(key))) == Throw(DomException(InvalidCharacterError))
  {
    var hex := Hex(key);
    assert Text.Chunks(hex, 4) == [hex[..4]] + Text.Chunks(hex[4..], 4);
    assert Text.Chunks(hex[4..], 4) != [];
    assert Format(key) == hex[..4] + "-" + Text.Grouped(hex[4..], 4);
    assert Format(key)[4] == '-';
    HyphenIsNotBase64(Format(key), 4);
  }

  /** `atob` rejects any text holding a `-`. */
  lemma HyphenIsNotBase64(s: string, i: nat)
    requires i < |s| && s[i] == '-'
    ensures Base64.Decode(s).None?
  {
    WhitespaceKeeps(s, i);
    var w := Base64.StripWhitespace(s);
    var j :| 0 <= j < |w| && w[j] == '-';
    var t := Base64.StripPadding(w);
    if t != w {
      assert w[|w| - 1] == '=';
      if |t| == |w| - 2 { assert w[|w| - 2] == '='; }
      assert t[j] == w[j];
    }
    assert !Base64.IsAlphabetChar(t[j]);
  }

  lemma {:induction false} WhitespaceKeeps(s: string, i: nat)
    requires i < |s| && !Base64.IsAsciiWhitespace(s[i])
    ensures s[i] in Base64.StripWhitespace(s)
  {
    if i > 0 {
      WhitespaceKeeps(s[1..], i - 1);
    }
  }

  // ---------------------------------------------------------------------
  // Display format

  function HexDigit(v: int): (c: char)
    requires 0 <= v < 16
  {
    if v < 10 then ('0' as int + v) as char else ('A' as int + (v - 10)) as char
  }

  /** `b.toString(16).padStart(2, "0").toUpperCase()`. */
  function ByteHex(b: Byte): string
  {
    [HexDigit(b / 16), HexDigit(b % 16)]
  }

  /** The bytes as upper-case hex, two digits each. */
  function Hex(key: Bytes): (h: string)
    ensures |h| == 2 * |key|
    ensures forall i :: 0 <= i < |h| ==> h[i] != '-'
  {
    if key == [] then [] else ByteHex(key[0]) + Hex(key[1..])
  }

  lemma {:induction false} HexPair(key: Bytes, j: nat)
    requires j < |key|
    ensures Hex(key)[2 * j..2 * j + 2] == ByteHex(key[j])
  {
    if j > 0 {
      HexPair(key[1..], j - 1);
      assert Hex(key)[2..] == Hex(key[1..]);
    }
  }

  /** The display form of a key: hex in groups of four joined by `-`. */
  function Format(key: Bytes): string
  {
    Text.Grouped(Hex(key), 4)
  }

  /** `formatRecoveryKey(recoveryKey)`: pushes `hex.slice(i, i + 4)` for i = 0, 4, 8, … then joins. */
  method FormatRecoveryKey(recoveryKey: array<Byte>) returns (formatted: string)
    ensures formatted == Format(recoveryKey[..])
  {
    var hex := Hex(recoveryKey[..]);
    var groups: seq<string> := [];
    var i := 0;
    assert hex[0..] == hex;
    while i < |hex|
      invariant 0 <= i
      invariant i <= |hex| ==> groups + Text.Chunks(hex[i..], 4) == Text.Chunks(hex, 4)
      invariant i > |hex| ==> groups == Text.Chunks(hex, 4)
      decreases |hex| - i
    {
      var end := if i + 4 <= |hex| then i + 4 else |hex|;
      Text.ChunksLoopStep(hex, 4, groups, i);
      groups := groups + [hex[i..end]];
      i := i + 4;
    }
    formatted := Text.Join(groups, "-");
  }

  /** A 32-byte key displays as 79 characters: 16 groups of four hex digits and 15 hyphens. */
  lemma FormatLayout(key: Bytes)
    requires |key| == RecoveryKeyLength
    ensures |Format(key)| == 79
    ensures forall i :: 0 <= i < 79 ==> (Format(key)[i] == '-' <==> i % 5 == 4)
    ensures forall i :: 0 <= i < 79 && i % 5 != 4 ==> IsHexUpper(Format(key)[i])
  {
    Text.GroupedLayout(Hex(key), 16);
    HexIsUpper(key);
  }

  /** Every character of the hex form is a digit or one of `A` to `F`. */
  lemma HexIsUpper(key: Bytes)
    ensures forall i :: 0 <= i < |Hex(key)| ==> IsHexUpper(Hex(key)[i])
  {
    var hex := Hex(key);
    forall i | 0 <= i < |hex| ensures IsHexUpper(hex[i]) {
      HexPair(key, i / 2);
      assert hex[i] == hex[2 * (i / 2)..2 * (i / 2) + 2][i % 2];
    }
  }

  predicate IsHexUpper(c: char) { IsAsciiDigit(c) || 'A' <= c <= 'F' }

  // ---------------------------------------------------------------------
  // Parsing the display format back

  predicate IsHexChar(c: char) { IsAsciiDigit(c) || 'a' <= c <= 'f' || 'A' <= c <= 'F' }

  function HexCharValue(c: char): (v: int)
    requires IsHexChar(c)
    ensures 0 <= v < 16
  {
    if IsAsciiDigit(c) then c as int - '0' as int
    else if 'a' <= c <= 'f' then c as int - 'a' as int + 10
    else c as int - 'A' as int + 10
  }

  /** The longest prefix of hex digits. */
  function LeadingHexDigits(s: string): (d: string)
    ensures |d| <= |s| && d == s[..|d|]
  {
    if s != [] && IsHexChar(s[0]) then [s[0]] + LeadingHexDigits(s[1..]) else []
  }

  /** The value of a string of hex digits, most significant first. */
  function HexNumber(d: string): (v: nat)
    requires forall i :: 0 <= i < |d| ==> IsHexChar(d[i])
    decreases |d|
  {
    if d == [] then 0 else HexNumber(d[..|d| - 1]) * 16 + HexCharValue(d[|d| - 1])
  }

  lemma LeadingHexDigitsAreHex(s: string)
    ensures forall i :: 0 <= i < |LeadingHexDigits(s)| ==> IsHexChar(LeadingHexDigits(s)[i])
  {
    if s != [] && IsHexChar(s[0]) {
      LeadingHexDigitsAreHex(s[1..]);
    }
  }

  /** `parseInt(s, 16)`; `None` is `NaN`. */
  function ParseInt16(s: string): Option<int>
  {
    ParseTrimmed(Text.TrimStart(s))
  }

  /** `parseInt(t, 16)` once the leading white space is gone: a sign, an optional `0x`, then hex digits. */
  function ParseTrimmed(t: string): Option<int>
  {
    var negative := t != [] && t[0] == '-';
    var unsigned := if t != [] && (t[0] == '-' || t[0] == '+') then t[1..] else t;
    var body := if |unsigned| >= 2 && unsigned[0] == '0' && (unsigned[1] == 'x' || unsigned[1] == 'X') then unsigned[2..] else unsigned;
    var digits := LeadingHexDigits(body);
    LeadingHexDigitsAreHex(body);
    var magnitude: int := if digits == [] then 0 else HexNumber(digits);
    if digits == [] then None
    else Some(if negative then -magnitude else magnitude)
  }

  /** Storing a number into a `Uint8Array` element: `NaN` becomes 0, the rest wraps modulo 256. */
  function ToUint8(v: Option<int>): Byte
  {
    match v
    case None => 0
    case Some(n) => n % 256
  }

  /** `parseInt(pair, 16)` stored into a `Uint8Array` element. */
  function ParsePair(pair: string): Byte
  {
    ToUint8(ParseInt16(pair))
  }

  /** The byte at index `j` of the parsed key: `parseInt(hex.slice(2j, 2j + 2), 16)` stored as a byte. */
  function PairValue(hex: string, j: nat): Byte
    requires 2 * j + 2 <= |hex|
  {
    ParsePair(hex[2 * j..2 * j + 2])
  }

  /** What `parseFormattedRecoveryKey` returns: one byte per hex pair; an odd last digit is dropped. */
  function Parse(formatted: string): (key: Bytes)
    ensures |key| == |Text.RemoveAll(formatted, '-')| / 2
  {
    var hex := Text.RemoveAll(formatted, '-');
    seq(|hex| / 2, j requires 0 <= j < |hex| / 2 => PairValue(hex, j))
  }

  /** `parseFormattedRecoveryKey(formatted)`: fills `new Uint8Array(hex.length / 2)` two digits at a time. */
  method ParseFormattedRecoveryKey(formatted: string) returns (key: Bytes)
    ensures key == Parse(formatted)
  {
    var hex := Text.RemoveAll(formatted, '-');
    var bytes := new Byte[|hex| / 2](_ => 0);
    var i := 0;
    while i < |hex|
      invariant 0 <= i <= |hex| + 1 && i % 2 == 0
      invariant forall j :: 0 <= j < bytes.Length && 2 * j < i ==> bytes[j] == PairValue(hex, j)
    {
      // the write at index `i / 2 == bytes.Length` (odd length) falls outside the array and is dropped
      if i / 2 < bytes.Length {
        bytes[i / 2] := ParsePair(hex[i..i + 2]);
        assert hex[i..i + 2] == hex[2 * (i / 2)..2 * (i / 2) + 2];
      }
      i := i + 2;
    }
    key := bytes[..];
  }

  lemma HexDigitValue(v: int)
    requires 0 <= v < 16
    ensures IsHexChar(HexDigit(v)) && HexCharValue(HexDigit(v)) == v
    ensures HexDigit(v) != 'x' && HexDigit(v) != 'X' && HexDigit(v) != '-' && HexDigit(v) != '+'
    ensures !Text.IsJsWhitespace(HexDigit(v))
  {
  }

  lemma ParseByteHex(b: Byte)
    ensures ParseInt16(ByteHex(b)) == Some(b)
  {
    var s := ByteHex(b);
    HexDigitValue(b / 16);
    HexDigitValue(b % 16);
    assert Text.TrimStart(s) == s;
    assert ParseTrimmed(s) == Some(b) by {
      ParseHexPair(s);
    }
  }

  /** Two hex digits, neither a sign nor an `x`, parse as the number they spell. */
  lemma ParseHexPair(s: string)
    requires |s| == 2 && IsHexChar(s[0]) && IsHexChar(s[1])
    requires s[0] != '-' && s[0] != '+' && s[1] != 'x' && s[1] != 'X'
    ensures ParseTrimmed(s) == Some(HexCharValue(s[0]) * 16 + HexCharValue(s[1]))
  {
    assert HexNumber(s) == HexNumber([s[0]]) * 16 + HexCharValue(s[1]) by {
      assert s[..1] == [s[0]];
    }
    assert HexNumber([s[0]]) == HexCharValue(s[0]) by {
      assert [s[0]][..0] == [];
    }
    assert LeadingHexDigits(s) == s by {
      assert LeadingHexDigits(s[1..]) == s[1..] by {
        assert LeadingHexDigits(s[2..]) == [];
      }
    }
    assert s[..1] == [s[0]];
  }

  /** The pair of digits for byte `j` of a key parses back to that byte. */
  lemma PairValueOfHex(key: Bytes, j: nat)
    requires j < |key|
    ensures 2 * j + 2 <= |Hex(key)| && PairValue(Hex(key), j) == key[j]
  {
    var h := Hex(key);
    assert h[2 * j..2 * j + 2] == ByteHex(key[j]) by {
      HexPair(key, j);
    }
    ParsePairOfByteHex(key[j]);
  }

  /** The two hex digits of a byte, parsed and stored, are the byte. */
  lemma ParsePairOfByteHex(b: Byte)
    ensures ParsePair(ByteHex(b)) == b
  {
    ParseByteHex(b);
  }

  /** Parsing the display form of any key gives the key back. */
  lemma ParseFormat(key: Bytes)
    ensures Parse(Format(key)) == key
  {
    var hex := Hex(key);
    Text.UngroupGrouped(hex, 4);
    var parsed := Parse(Format(key));
    assert |parsed| == |key|;
    forall j | 0 <= j < |key| ensures parsed[j] == key[j] {
      PairValueOfHex(key, j);
    }
  }

  /** An odd number of hex digits drops the last one. */
  lemma ParseDropsOddDigit(hex: string, digit: char)
    requires forall i :: 0 <= i < |hex| ==> hex[i] != '-'
    requires |hex| % 2 == 0 && digit != '-'
    ensures Parse(hex + [digit]) == Parse(hex)
  {
    Text.RemoveAllAbsent(hex, '-');
    Text.RemoveAllAbsent(hex + [digit], '-');
    assert forall j :: 0 <= j < |hex| / 2 ==> (hex + [digit])[2 * j..2 * j + 2] == hex[2 * j..2 * j + 2];
  }

  // ---------------------------------------------------------------------
  // Wrapping the DEK under the recovery key

  /** `encryptDEKWithRecoveryKey(dek, recoveryKey)` with the random IV given. */
  function EncryptDekWithRecoveryKey(dek: WebCrypto.CryptoKey, recoveryKey: Bytes, iv: Bytes): (r: Result<string>)
    requires |iv| == Crypto.IvLength
    ensures r.Ok? <==> WebCrypto.IsAesKeyLength(|recoveryKey|) && dek.extractable
    ensures r.Ok? ==> Crypto.IsFramed(r.value, recoveryKey, iv, dek.material)
  {
    var recoveryKek :- WebCrypto.ImportRawKey(recoveryKey, WebCrypto.AesGcm, false, {WebCrypto.WrapKey});
    var wrapped :- WebCrypto.WrapRawKey(dek, recoveryKek, iv);
    Base64.DecodeEncode(iv + wrapped);
    Crypto.SplitFramed(iv, wrapped);
    Ok(Base64.Encode(iv + wrapped))
  }

  /** The bytes a recovery key input stands for: a string is the display format. */
  function KeyBytesOf(key: KeyInput): Bytes
  {
    match key
    case KeyBytes(b) => b
    case KeyString(s) => Parse(s)
  }

  /** `decryptDEKWithRecoveryKey(encryptedDEK, recoveryKey)`: the DEK comes back extractable. */
  function DecryptDekWithRecoveryKey(encryptedDek: string, key: KeyInput): (r: Result<WebCrypto.CryptoKey>)
    ensures r.Ok? ==> r.value.extractable && r.value.usages == Dek.DekUsages
    ensures !WebCrypto.IsAesKeyLength(|KeyBytesOf(key)|) ==> r == Throw(DomException(DataError))
    ensures WebCrypto.IsAesKeyLength(|KeyBytesOf(key)|) && Base64.Decode(encryptedDek).None? ==>
              r == Throw(DomException(InvalidCharacterError))
    ensures var combined, keyBytes := Base64.Decode(encryptedDek), KeyBytesOf(key);
            WebCrypto.IsAesKeyLength(|keyBytes|) && combined.Some? && |combined.value| >= Crypto.IvLength ==>
              (r.Ok? <==> Crypto.OpenFrame(combined.value, keyBytes).Some?
                          && WebCrypto.IsAesKeyLength(|Crypto.OpenFrame(combined.value, keyBytes).value|))
              && (r.Ok? ==> r.value.material == Crypto.OpenFrame(combined.value, keyBytes).value)
    ensures var combined := Base64.Decode(encryptedDek);
            WebCrypto.IsAesKeyLength(|KeyBytesOf(key)|) && combined.Some? && |combined.value| < Crypto.IvLength ==>
              r == Throw(DomException(OperationError))
  {
    var recoveryKek :- WebCrypto.ImportRawKey(KeyBytesOf(key), WebCrypto.AesGcm, false, {WebCrypto.UnwrapKey});
    match Base64.Decode(encryptedDek)
    case None => Throw(DomException(InvalidCharacterError))
    case Some(combined) =>
      var (iv, wrapped) := Crypto.SplitIv(combined);
      Crypto.OpenEmptyFails(recoveryKek.material, iv);
      WebCrypto.UnwrapRawKey(wrapped, recoveryKek, iv, true, Dek.DekUsages)
  }

  /** The displayed recovery key recovers the DEK it wrapped: same key bytes, extractable. */
  lemma RecoverWithDisplayedKey(dek: WebCrypto.CryptoKey, recoveryKey: Bytes, iv: Bytes)
    requires |iv| == Crypto.IvLength && |recoveryKey| == RecoveryKeyLength
    requires dek.extractable && WebCrypto.IsAesKeyLength(|dek.material|)
    ensures DecryptDekWithRecoveryKey(EncryptDekWithRecoveryKey(dek, recoveryKey, iv).value, KeyString(Format(recoveryKey)))
         == Ok(WebCrypto.CryptoKey(WebCrypto.AesGcm, dek.material, true, Dek.DekUsages))
  {
    var encrypted := EncryptDekWithRecoveryKey(dek, recoveryKey, iv).value;
    ParseFormat(recoveryKey);
    assert KeyBytesOf(KeyString(Format(recoveryKey))) == KeyBytesOf(KeyBytes(recoveryKey));
    DecryptSeesOnlyKeyBytes(encrypted, KeyString(Format(recoveryKey)), KeyBytes(recoveryKey));
    RecoverWithKeyBytes(dek, recoveryKey, iv);
  }

  /** The unwrap reads the recovery key only through the bytes it stands for. */
  lemma DecryptSeesOnlyKeyBytes(encryptedDek: string, key: KeyInput, other: KeyInput)
    requires KeyBytesOf(key) == KeyBytesOf(other)
    ensures DecryptDekWithRecoveryKey(encryptedDek, key) == DecryptDekWithRecoveryKey(encryptedDek, other)
  {
  }

  /** The recovery key's own bytes recover the DEK they wrapped. */
  lemma RecoverWithKeyBytes(dek: WebCrypto.CryptoKey, recoveryKey: Bytes, iv: Bytes)
    requires |iv| == Crypto.IvLength && |recoveryKey| == RecoveryKeyLength
    requires dek.extractable && WebCrypto.IsAesKeyLength(|dek.material|)
    ensures DecryptDekWithRecoveryKey(EncryptDekWithRecoveryKey(dek, recoveryKey, iv).value, KeyBytes(recoveryKey))
         == Ok(WebCrypto.CryptoKey(WebCrypto.AesGcm, dek.material, true, Dek.DekUsages))
  {
    var wrapKek := WebCrypto.CryptoKey(WebCrypto.AesGcm, recoveryKey, false, {WebCrypto.WrapKey});
    var wrapped := WebCrypto.WrapRawKey(dek, wrapKek, iv).value;
    Base64.DecodeEncode(iv + wrapped);
    Crypto.SplitFramed(iv, wrapped);
    WebCrypto.OpenSeal(recoveryKey, iv, dek.material);
  }

  /** A recovery key with other bytes is rejected with `OperationError`. */
  lemma RecoverWithOtherKeyFails(dek: WebCrypto.CryptoKey, recoveryKey: Bytes, iv: Bytes, other: KeyInput)
    requires |iv| == Crypto.IvLength && |recoveryKey| == RecoveryKeyLength && dek.extractable
    requires WebCrypto.IsAesKeyLength(|KeyBytesOf(other)|) && KeyBytesOf(other) != recoveryKey
    ensures DecryptDekWithRecoveryKey(EncryptDekWithRecoveryKey(dek, recoveryKey, iv).value, other)
         == Throw(DomException(OperationError))
  {
    var wrapKek := WebCrypto.CryptoKey(WebCrypto.AesGcm, recoveryKey, false, {WebCrypto.WrapKey});
    var unwrapKek := WebCrypto.CryptoKey(WebCrypto.AesGcm, KeyBytesOf(other), false, {WebCrypto.UnwrapKey});
    var wrapped := WebCrypto.WrapRawKey(dek, wrapKek, iv).value;
    Base64.DecodeEncode(iv + wrapped);
    Crypto.SplitFramed(iv, wrapped);
    WebCrypto.UnwrapWithOtherKeyFails(dek, wrapKek, iv, unwrapKek, iv, true, Dek.DekUsages);
  }
}
