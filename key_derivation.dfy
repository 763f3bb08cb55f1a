/**
 * PBKDF2 key derivation from a PIN or password: HMAC-SHA-256 over the
 * UTF-8 bytes of the secret, 100000 iterations, 256-bit AES-GCM output.
 * The three variants differ only in the extractability and usages of the
 * derived key.
 */
module KeyDerivation {
  import opened JsValues
  import Base64
  import Utf8
  import Kdf
  import WebCrypto

  const Pbkdf2Iterations := 100000
  const KeyBits := 256
  const SaltLength := 32

  /** `importKey("raw", encoder.encode(secret), "PBKDF2", false, ["deriveKey"])`, then `deriveKey`. */
  function DeriveFromSecret(secret: string, salt: Bytes, extractable: bool, usages: set<WebCrypto.KeyUsage>): Result<WebCrypto.CryptoKey>
  {
    var keyMaterial := WebCrypto.ImportRawKey(Utf8.Encode(secret), WebCrypto.Pbkdf2, false, {WebCrypto.DeriveKey}).value;
    WebCrypto.DeriveKeyPbkdf2(keyMaterial, salt, Pbkdf2Iterations, extractable, usages)
  }

  /** The 32 key bytes PBKDF2-HMAC-SHA-256 derives from a secret and a salt. */
  function Pbkdf2Bytes(secret: string, salt: Bytes): Bytes
  {
    Kdf.Pbkdf2(Utf8.Encode(secret), salt, Pbkdf2Iterations, KeyBits / 8)
  }

  /** `deriveKEK(password, salt)`: a non-extractable key for wrapping and unwrapping. */
  function DeriveKek(password: string, salt: Bytes): (r: Result<WebCrypto.CryptoKey>)
    ensures r.Ok?
    ensures r.value == WebCrypto.CryptoKey(WebCrypto.AesGcm, Pbkdf2Bytes(password, salt), false, {WebCrypto.WrapKey, WebCrypto.UnwrapKey})
  {
    DeriveFromSecret(password, salt, false, {WebCrypto.WrapKey, WebCrypto.UnwrapKey})
  }

  /** `deriveClientKEK(pin, salt)`: extractable, so that its bytes can be fed to HKDF. */
  function DeriveClientKek(pin: string, salt: Bytes): (r: Result<WebCrypto.CryptoKey>)
    ensures r.Ok?
    ensures r.value == WebCrypto.CryptoKey(WebCrypto.AesGcm, Pbkdf2Bytes(pin, salt), true, {WebCrypto.Encrypt, WebCrypto.Decrypt})
  {
    DeriveFromSecret(pin, salt, true, {WebCrypto.Encrypt, WebCrypto.Decrypt})
  }

  /** `deriveKey(password, salt)`: a non-extractable content key. */
  function DeriveKey(password: string, salt: Bytes): (r: Result<WebCrypto.CryptoKey>)
    ensures r.Ok?
    ensures r.value == WebCrypto.CryptoKey(WebCrypto.AesGcm, Pbkdf2Bytes(password, salt), false, {WebCrypto.Encrypt, WebCrypto.Decrypt})
  {
    DeriveFromSecret(password, salt, false, {WebCrypto.Encrypt, WebCrypto.Decrypt})
  }

  /** `deriveKeyFromBase64Salt(password, saltBase64)`: `atob` may throw first. */
  function DeriveKeyFromBase64Salt(password: string, saltBase64: string): (r: Result<WebCrypto.CryptoKey>)
    ensures r.Ok? <==> Base64.Decode(saltBase64).Some?
    ensures r.Throw? ==> r.error == DomException(InvalidCharacterError)
  {
    match Base64.Decode(saltBase64)
    case None => Throw(DomException(InvalidCharacterError))
    case Some(salt) => DeriveKey(password, salt)
  }

  /** The salt round-trips through base64: deriving from the encoded salt is deriving from the salt. */
  lemma DeriveKeyFromEncodedSalt(password: string, salt: Bytes)
    ensures DeriveKeyFromBase64Salt(password, Base64.Encode(salt)) == DeriveKey(password, salt)
  {
    Base64.DecodeEncode(salt);
  }

  /** The module's own `base64ToUint8Array`: `atob`, then one byte per character code. */
  method Base64ToUint8Array(base64: string) returns (r: Result<Bytes>)
    ensures r.Ok? <==> Base64.Decode(base64).Some?
    ensures r.Ok? ==> r.value == Base64.Decode(base64).value
  {
    var decoded := Base64.Atob(base64);
    if decoded.Throw? {
      return Throw(DomException(InvalidCharacterError));
    }
    var binary := decoded.value;
    var bytes := new Byte[|binary|](_ => 0);
    for i := 0 to |binary|
      invariant forall k :: 0 <= k < i ==> bytes[k] == binary[k] as int
    {
      bytes[i] := binary[i] as int;
    }
    assert bytes[..] == Base64.CharCodes(binary);
    r := Ok(bytes[..]);
  }
}
