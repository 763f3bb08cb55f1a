/**
 * The AES-256-GCM text cipher and the byte/base64 helpers every other
 * crypto module uses: a ciphertext travels as base64 of the 12-byte IV
 * followed by the AES-GCM output. Text is taken here as its UTF-8 bytes.
 */
module Crypto {
  import opened JsValues
  import Base64
  import WebCrypto

  const IvLength := 12
  const SaltLength := 32

  /** `combined.slice(0, 12)` and `combined.slice(12)`: both clamp to the array. */
  function SplitIv(combined: Bytes): (parts: (Bytes, Bytes))
    ensures parts.0 + parts.1 == combined
    ensures |parts.0| == if |combined| < IvLength then |combined| else IvLength
  {
    if |combined| < IvLength then (combined, []) else (combined[..IvLength], combined[IvLength..])
  }

  /** Splitting what was framed as IV followed by body gives back the IV and the body. */
  lemma SplitFramed(iv: Bytes, body: Bytes)
    requires |iv| == IvLength
    ensures SplitIv(iv + body) == (iv, body)
  {
    assert (iv + body)[..IvLength] == iv;
    assert (iv + body)[IvLength..] == body;
  }

  /**
   * The framing every ciphertext travels in: `text` is base64 of `iv`
   * followed by a body that opens under `key` and `iv` to `content`.
   */
  predicate IsFramed(text: string, key: Bytes, iv: Bytes, content: Bytes)
  {
    var combined := Base64.Decode(text);
    combined.Some? && |combined.value| >= IvLength && combined.value[..IvLength] == iv
    && WebCrypto.Open(key, iv, combined.value[IvLength..]) == Some(content)
  }

  /** What AES-GCM authenticates under `key` in a decoded frame: the body after the first 12 bytes, with them as IV. */
  function OpenFrame(combined: Bytes, key: Bytes): Option<Bytes>
    requires |combined| >= IvLength
  {
    WebCrypto.Open(key, combined[..IvLength], combined[IvLength..])
  }

  /** AES-GCM never authenticates an empty body: the tag alone is longer. */
  lemma OpenEmptyFails(key: Bytes, iv: Bytes)
    ensures WebCrypto.Open(key, iv, []) == None
  {
    assert |WebCrypto.Header(key, iv)| >= 2;
  }

  /** `encrypt(plaintext, key)` with the random IV given: base64 of IV followed by ciphertext. */
  function Encrypt(plaintext: Bytes, key: WebCrypto.CryptoKey, iv: Bytes): (r: Result<string>)
    requires |iv| == IvLength
    ensures r.Ok? <==> WebCrypto.CanUse(key, WebCrypto.Encrypt)
    ensures r.Ok? ==> IsFramed(r.value, key.material, iv, plaintext)
  {
    var ciphertext :- WebCrypto.EncryptAesGcm(iv, key, plaintext);
    Base64.DecodeEncode(iv + ciphertext);
    SplitFramed(iv, ciphertext);
    Ok(Base64.Encode(iv + ciphertext))
  }

  /** `decrypt(encrypted, key)`: `atob` may throw, then AES-GCM authentication may fail. */
  function Decrypt(encrypted: string, key: WebCrypto.CryptoKey): (r: Result<Bytes>)
    ensures Base64.Decode(encrypted).None? ==> r == Throw(DomException(InvalidCharacterError))
    ensures var combined := Base64.Decode(encrypted);
            combined.Some? && |combined.value| >= IvLength ==>
              (r.Ok? <==> WebCrypto.CanUse(key, WebCrypto.Decrypt) && OpenFrame(combined.value, key.material).Some?)
              && (r.Ok? ==> r.value == OpenFrame(combined.value, key.material).value)
    ensures var combined := Base64.Decode(encrypted);
            combined.Some? && |combined.value| < IvLength && WebCrypto.CanUse(key, WebCrypto.Decrypt) ==>
              r == Throw(DomException(OperationError))
  {
    match Base64.Decode(encrypted)
    case None => Throw(DomException(InvalidCharacterError))
    case Some(combined) =>
      var (iv, ciphertext) := SplitIv(combined);
      OpenEmptyFails(key.material, iv);
      WebCrypto.DecryptAesGcm(iv, key, ciphertext)
  }

  /** Decryption under the same key inverts encryption, whatever IV was drawn. */
  lemma DecryptEncrypt(plaintext: Bytes, key: WebCrypto.CryptoKey, iv: Bytes)
    requires |iv| == IvLength
    requires WebCrypto.CanUse(key, WebCrypto.Encrypt) && WebCrypto.CanUse(key, WebCrypto.Decrypt)
    ensures Decrypt(Encrypt(plaintext, key, iv).value, key) == Ok(plaintext)
  {
    var ciphertext := WebCrypto.EncryptAesGcm(iv, key, plaintext).value;
    Base64.DecodeEncode(iv + ciphertext);
    SplitFramed(iv, ciphertext);
  }

  /** A ciphertext does not decrypt under a key with other key bytes: `OperationError`. */
  lemma DecryptWithOtherKeyFails(plaintext: Bytes, key: WebCrypto.CryptoKey, iv: Bytes, other: WebCrypto.CryptoKey)
    requires |iv| == IvLength
    requires WebCrypto.CanUse(key, WebCrypto.Encrypt) && WebCrypto.CanUse(other, WebCrypto.Decrypt)
    requires other.material != key.material
    ensures Decrypt(Encrypt(plaintext, key, iv).value, other) == Throw(DomException(OperationError))
  {
    var ciphertext := WebCrypto.EncryptAesGcm(iv, key, plaintext).value;
    assert ciphertext == WebCrypto.Seal(key.material, iv, plaintext);
    Base64.DecodeEncode(iv + ciphertext);
    SplitFramed(iv, ciphertext);
    if WebCrypto.Open(other.material, iv, ciphertext).Some? {
      WebCrypto.OpenOnlyWithSameKey(key.material, iv, plaintext, other.material, iv);
    }
  }

  /** `uint8ArrayToBase64`: builds the binary string char by char, then `btoa`. */
  method Uint8ArrayToBase64(bytes: array<Byte>) returns (encoded: string)
    ensures encoded == Base64.Encode(bytes[..])
  {
    var binary: string := "";
    var i := 0;
    while i < bytes.Length
      invariant 0 <= i <= bytes.Length
      invariant binary == Base64.BinaryString(bytes[..i])
    {
      binary := binary + [bytes[i] as char];
      i := i + 1;
    }
    assert bytes[..i] == bytes[..];
    assert Base64.CharCodes(binary) == bytes[..];
    var r := Base64.Btoa(binary);
    encoded := r.value;
  }

  /** `base64ToUint8Array`: `atob`, then one byte per character code. */
  method Base64ToUint8Array(base64: string) returns (r: Result<Bytes>)
    ensures r.Ok? <==> Base64.Decode(base64).Some?
    ensures r.Ok? ==> r.value == Base64.Decode(base64).value
    ensures r.Throw? ==> r.error == DomException(InvalidCharacterError)
  {
    var decoded := Base64.Atob(base64);
    if decoded.Throw? {
      return Throw(DomException(InvalidCharacterError));
    }
    var binary := decoded.value;
    var bytes := new Byte[|binary|];
    var i := 0;
    while i < |binary|
      invariant 0 <= i <= |binary|
      invariant forall k :: 0 <= k < i ==> bytes[k] == binary[k] as int
    {
      bytes[i] := binary[i] as int;
      i := i + 1;
    }
    assert bytes[..] == Base64.CharCodes(binary);
    r := Ok(bytes[..]);
  }

  /** `compareUint8Arrays`: equal lengths and equal bytes at every index. */
  method CompareUint8Arrays(a: array<Byte>, b: array<Byte>) returns (equal: bool)
    ensures equal <==> a[..] == b[..]
  {
    if a.Length != b.Length {
      return false;
    }
    var i := 0;
    while i < a.Length
      invariant 0 <= i <= a.Length
      invariant a[..i] == b[..i]
    {
      if a[i] != b[i] {
        assert a[..][i] != b[..][i];
        return false;
      }
      i := i + 1;
    }
    assert a[..] == a[..i] && b[..] == b[..i];
    return true;
  }
}
