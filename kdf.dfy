/**
 * The key-derivation primitives the browser runs on SHA-256:
 * HMAC (RFC 2104), PBKDF2 (section 5.2 of RFC 8018) and HKDF (RFC 5869).
 */
module Kdf {
  import opened JsValues
  import Sha256

  const BlockSize := 64
  const HashLength := Sha256.DigestLength

  function Xor(a: Byte, b: Byte): Byte
  {
    ((a as bv8) ^ (b as bv8)) as int
  }

  function XorBytes(a: Bytes, b: Bytes): (r: Bytes)
    requires |a| == |b|
    ensures |r| == |a|
  {
    seq(|a|, i requires 0 <= i < |a| => Xor(a[i], b[i]))
  }

  function Repeat(b: Byte, n: nat): (r: Bytes)
    ensures |r| == n
  {
    seq(n, _ => b)
  }

  /** The key padded to the block size, hashed first when longer than a block. */
  function BlockKey(key: Bytes): (k: Bytes)
    ensures |k| == BlockSize
  {
    var short := if |key| > BlockSize then Sha256.Digest(key) else key;
    short + Sha256.Zeros(BlockSize - |short|)
  }

  /** HMAC-SHA-256 (section 2 of RFC 2104). */
  function Hmac(key: Bytes, message: Bytes): (mac: Bytes)
    ensures |mac| == HashLength
  {
    var k := BlockKey(key);
    Sha256.Digest(XorBytes(k, Repeat(0x5c, BlockSize))
      + Sha256.Digest(XorBytes(k, Repeat(0x36, BlockSize)) + message))
  }

  /** U_1 xor … xor U_c of section 5.2 of RFC 8018, `u` being the last U computed. */
  function Pbkdf2Chain(password: Bytes, u: Bytes, acc: Bytes, remaining: nat): (t: Bytes)
    requires |u| == HashLength && |acc| == HashLength
    ensures |t| == HashLength
    decreases remaining
  {
    if remaining == 0 then acc
    else
      var next := Hmac(password, u);
      Pbkdf2Chain(password, next, XorBytes(acc, next), remaining - 1)
  }

  /** Block `i` (from 1) of PBKDF2: F(P, S, c, i). */
  function Pbkdf2Block(password: Bytes, salt: Bytes, iterations: nat, i: nat): (t: Bytes)
    requires iterations >= 1
    ensures |t| == HashLength
  {
    var u1 := Hmac(password, salt + Sha256.BigEndian(i, 4));
    Pbkdf2Chain(password, u1, u1, iterations - 1)
  }

  function Pbkdf2Blocks(password: Bytes, salt: Bytes, iterations: nat, from: nat, count: nat): (t: Bytes)
    requires iterations >= 1
    ensures |t| == count * HashLength
    decreases count
  {
    if count == 0 then []
    else Pbkdf2Block(password, salt, iterations, from) + Pbkdf2Blocks(password, salt, iterations, from + 1, count - 1)
  }

  /** PBKDF2 with HMAC-SHA-256 as its pseudorandom function. */
  function Pbkdf2(password: Bytes, salt: Bytes, iterations: nat, length: nat): (dk: Bytes)
    requires iterations >= 1
    ensures |dk| == length
  {
    var blocks := (length + HashLength - 1) / HashLength;
    Pbkdf2Blocks(password, salt, iterations, 1, blocks)[..length]
  }

  /** T(1) … T(count) of section 2.3 of RFC 5869, `prev` being T(i - 1). */
  function HkdfExpandBlocks(prk: Bytes, info: Bytes, prev: Bytes, i: nat, count: nat): (t: Bytes)
    ensures |t| == count * HashLength
    decreases count
  {
    if count == 0 then []
    else
      var block := Hmac(prk, prev + info + [i % 256]);
      block + HkdfExpandBlocks(prk, info, block, i + 1, count - 1)
  }

  /** HKDF-SHA-256: extract (section 2.2) then expand (section 2.3) of RFC 5869. */
  function Hkdf(ikm: Bytes, salt: Bytes, info: Bytes, length: nat): (okm: Bytes)
    ensures |okm| == length
  {
    var prk := Hmac(if salt == [] then Sha256.Zeros(HashLength) else salt, ikm);
    var blocks := (length + HashLength - 1) / HashLength;
    HkdfExpandBlocks(prk, info, [], 1, blocks)[..length]
  }
}
