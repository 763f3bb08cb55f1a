/**
 * The part of the browser's `crypto.subtle` (W3C Web Cryptography API)
 * that the key-custody code calls: raw import and export, AES-GCM encrypt,
 * decrypt, wrapKey and unwrapKey, PBKDF2 and HKDF deriveKey, and the
 * SHA-256 digest, with the checks the API makes before it acts (key usages,
 * extractability, key lengths).
 *
 * AES-GCM itself is a symbolic stand-in: a sealed message carries its key
 * and IV in a self-delimiting header and opens only under exactly that key
 * and IV. This keeps the two facts the application depends on (decryption
 * inverts encryption; any other key or IV is rejected) and drops the one it
 * cannot observe (secrecy).
 */
module WebCrypto {
  import opened JsValues
  import Sha256
  import Kdf

  datatype KeyUsage = Encrypt | Decrypt | WrapKey | UnwrapKey | DeriveKey | DeriveBits

  datatype KeyAlgorithm = AesGcm | Pbkdf2 | Hkdf

  /** A `CryptoKey` and its internal slots. */
  datatype CryptoKey = CryptoKey(algorithm: KeyAlgorithm, material: Bytes, extractable: bool, usages: set<KeyUsage>)

  predicate IsAesKeyLength(n: int) { n == 16 || n == 24 || n == 32 }

  /** The usages an AES-GCM secret key may carry. */
  predicate AesUsagesOk(usages: set<KeyUsage>)
  {
    usages != {} && usages <= {Encrypt, Decrypt, WrapKey, UnwrapKey}
  }

  /** The usages a PBKDF2 or HKDF base key may carry. */
  predicate DerivationUsagesOk(usages: set<KeyUsage>)
  {
    usages != {} && usages <= {DeriveKey, DeriveBits}
  }

  // ---------------------------------------------------------------------
  // The AES-GCM stand-in

  /** Each byte as the pair [1, b], closed by a single 0: no encoding is a proper prefix of another. */
  function SelfDelimit(b: Bytes): (r: Bytes)
    ensures |r| == 2 * |b| + 1
  {
    if b == [] then [0] else [1, b[0]] + SelfDelimit(b[1..])
  }

  function Header(key: Bytes, iv: Bytes): Bytes
  {
    SelfDelimit(key) + SelfDelimit(iv)
  }

  function Seal(key: Bytes, iv: Bytes, plaintext: Bytes): Bytes
  {
    Header(key, iv) + plaintext
  }

  function Open(key: Bytes, iv: Bytes, sealed: Bytes): Option<Bytes>
  {
    var h := Header(key, iv);
    if |h| <= |sealed| && sealed[..|h|] == h then Some(sealed[|h|..]) else None
  }

  lemma {:induction false} SelfDelimitUnique(a: Bytes, b: Bytes, x: Bytes, y: Bytes)
    requires SelfDelimit(a) + x == SelfDelimit(b) + y
    ensures a == b && x == y
    decreases |a|
  {
    var sa, sb := SelfDelimit(a) + x, SelfDelimit(b) + y;
    assert sa[0] == (if a == [] then 0 else 1);
    assert sb[0] == (if b == [] then 0 else 1);
    if a == [] {
      assert sa[1..] == x && sb[1..] == y;
    } else {
      assert sa[1] == a[0] && sb[1] == b[0];
      assert sa[2..] == SelfDelimit(a[1..]) + x;
      assert sb[2..] == SelfDelimit(b[1..]) + y;
      SelfDelimitUnique(a[1..], b[1..], x, y);
      assert a == [a[0]] + a[1..];
      assert b == [b[0]] + b[1..];
    }
  }

  /** Authenticated decryption inverts encryption. */
  lemma OpenSeal(key: Bytes, iv: Bytes, plaintext: Bytes)
    ensures Open(key, iv, Seal(key, iv, plaintext)) == Some(plaintext)
  {
    var h := Header(key, iv);
    assert (h + plaintext)[..|h|] == h;
  }

  /** A sealed message opens only under the key and IV it was sealed with, and then to its plaintext. */
  lemma OpenOnlyWithSameKey(key: Bytes, iv: Bytes, plaintext: Bytes, key': Bytes, iv': Bytes)
    requires Open(key', iv', Seal(key, iv, plaintext)).Some?
    ensures key' == key && iv' == iv
    ensures Open(key', iv', Seal(key, iv, plaintext)) == Some(plaintext)
  {
    var sealed := Seal(key, iv, plaintext);
    var h' := Header(key', iv');
    var rest := sealed[|h'|..];
    assert sealed == h' + rest;
    assert h' + rest == SelfDelimit(key') + (SelfDelimit(iv') + rest);
    assert sealed == SelfDelimit(key) + (SelfDelimit(iv) + plaintext);
    assert SelfDelimit(key') + (SelfDelimit(iv') + rest) == SelfDelimit(key) + (SelfDelimit(iv) + plaintext);
    SelfDelimitUnique(key', key, SelfDelimit(iv') + rest, SelfDelimit(iv) + plaintext);
    SelfDelimitUnique(iv', iv, rest, plaintext);
  }

  // ---------------------------------------------------------------------
  // crypto.subtle

  /** `importKey("raw", data, algorithm, extractable, usages)`. */
  function ImportRawKey(data: Bytes, algorithm: KeyAlgorithm, extractable: bool, usages: set<KeyUsage>): (r: Result<CryptoKey>)
    ensures r.Ok? ==> r.value == CryptoKey(algorithm, data, extractable, usages)
    ensures algorithm == AesGcm ==> (r.Ok? <==> AesUsagesOk(usages) && IsAesKeyLength(|data|))
    ensures algorithm != AesGcm ==> (r.Ok? <==> DerivationUsagesOk(usages) && !extractable)
  {
    match algorithm
    case AesGcm =>
      if !AesUsagesOk(usages) then Throw(DomException(SyntaxError))
      else if !IsAesKeyLength(|data|) then Throw(DomException(DataError))
      else Ok(CryptoKey(AesGcm, data, extractable, usages))
    case _ =>
      if !DerivationUsagesOk(usages) || extractable then Throw(DomException(SyntaxError))
      else Ok(CryptoKey(algorithm, data, false, usages))
  }

  /** `exportKey("raw", key)`. */
  function ExportRawKey(key: CryptoKey): (r: Result<Bytes>)
    ensures r.Ok? <==> key.extractable
    ensures r.Ok? ==> r.value == key.material
    ensures r.Throw? ==> r.error == DomException(InvalidAccessError)
  {
    if key.extractable then Ok(key.material) else Throw(DomException(InvalidAccessError))
  }

  /** `generateKey({ name: "AES-GCM", length: 256 }, …)`, the 32 random bytes given. */
  function GenerateAesKey(random: Bytes, extractable: bool, usages: set<KeyUsage>): (k: CryptoKey)
    requires |random| == 32 && AesUsagesOk(usages)
    ensures k.algorithm == AesGcm && |k.material| == 32
    ensures k.extractable == extractable && k.usages == usages
  {
    CryptoKey(AesGcm, random, extractable, usages)
  }

  predicate CanUse(key: CryptoKey, usage: KeyUsage)
  {
    key.algorithm == AesGcm && usage in key.usages
  }

  /** `encrypt({ name: "AES-GCM", iv }, key, data)`. */
  function EncryptAesGcm(iv: Bytes, key: CryptoKey, data: Bytes): (r: Result<Bytes>)
    ensures r.Ok? <==> CanUse(key, Encrypt)
    ensures r.Ok? ==> Open(key.material, iv, r.value) == Some(data)
  {
    if !CanUse(key, Encrypt) then Throw(DomException(InvalidAccessError))
    else
      OpenSeal(key.material, iv, data);
      Ok(Seal(key.material, iv, data))
  }

  /** `decrypt({ name: "AES-GCM", iv }, key, data)`: `OperationError` when authentication fails. */
  function DecryptAesGcm(iv: Bytes, key: CryptoKey, data: Bytes): (r: Result<Bytes>)
    ensures r.Ok? <==> CanUse(key, Decrypt) && Open(key.material, iv, data).Some?
    ensures r.Ok? ==> r.value == Open(key.material, iv, data).value
    ensures CanUse(key, Decrypt) && r.Throw? ==> r.error == DomException(OperationError)
  {
    if !CanUse(key, Decrypt) then Throw(DomException(InvalidAccessError))
    else
      match Open(key.material, iv, data)
      case Some(pt) => Ok(pt)
      case None => Throw(DomException(OperationError))
  }

  /** `wrapKey("raw", key, wrappingKey, { name: "AES-GCM", iv })`. */
  function WrapRawKey(key: CryptoKey, wrappingKey: CryptoKey, iv: Bytes): (r: Result<Bytes>)
    ensures r.Ok? <==> CanUse(wrappingKey, WrapKey) && key.extractable
    ensures r.Throw? ==> r.error == DomException(InvalidAccessError)
    ensures r.Ok? ==> Open(wrappingKey.material, iv, r.value) == Some(key.material)
  {
    if !CanUse(wrappingKey, WrapKey) || !key.extractable then Throw(DomException(InvalidAccessError))
    else
      OpenSeal(wrappingKey.material, iv, key.material);
      Ok(Seal(wrappingKey.material, iv, key.material))
  }

  /**
   * `unwrapKey("raw", wrapped, unwrappingKey, { name: "AES-GCM", iv },
   * "AES-GCM", extractable, usages)`: decrypts, then imports the bytes.
   */
  function UnwrapRawKey(wrapped: Bytes, unwrappingKey: CryptoKey, iv: Bytes, extractable: bool, usages: set<KeyUsage>): (r: Result<CryptoKey>)
    ensures r.Ok? <==> (CanUse(unwrappingKey, UnwrapKey) && Open(unwrappingKey.material, iv, wrapped).Some?
                        && ImportRawKey(Open(unwrappingKey.material, iv, wrapped).value, AesGcm, extractable, usages).Ok?)
    ensures r.Ok? ==> r.value == CryptoKey(AesGcm, Open(unwrappingKey.material, iv, wrapped).value, extractable, usages)
  {
    if !CanUse(unwrappingKey, UnwrapKey) then Throw(DomException(InvalidAccessError))
    else
      match Open(unwrappingKey.material, iv, wrapped)
      case None => Throw(DomException(OperationError))
      case Some(raw) => ImportRawKey(raw, AesGcm, extractable, usages)
  }

  /** Unwrapping what `WrapKey` produced, under the same key and IV, restores the key bytes. */
  lemma UnwrapWrapped(key: CryptoKey, wrappingKey: CryptoKey, iv: Bytes, extractable: bool, usages: set<KeyUsage>)
    requires WrapRawKey(key, wrappingKey, iv).Ok?
    requires UnwrapKey in wrappingKey.usages && AesUsagesOk(usages) && IsAesKeyLength(|key.material|)
    ensures UnwrapRawKey(WrapRawKey(key, wrappingKey, iv).value, wrappingKey, iv, extractable, usages)
         == Ok(CryptoKey(AesGcm, key.material, extractable, usages))
  {
  }

  /** Unwrapping under any other key material or IV is rejected with `OperationError`. */
  lemma UnwrapWithOtherKeyFails(key: CryptoKey, wrappingKey: CryptoKey, iv: Bytes, other: CryptoKey, iv': Bytes,
                                extractable: bool, usages: set<KeyUsage>)
    requires WrapRawKey(key, wrappingKey, iv).Ok?
    requires CanUse(other, UnwrapKey)
    requires other.material != wrappingKey.material || iv' != iv
    ensures UnwrapRawKey(WrapRawKey(key, wrappingKey, iv).value, other, iv', extractable, usages)
         == Throw(DomException(OperationError))
  {
    if Open(other.material, iv', Seal(wrappingKey.material, iv, key.material)).Some? {
      OpenOnlyWithSameKey(wrappingKey.material, iv, key.material, other.material, iv');
    }
  }

  /** `deriveKey({ name: "PBKDF2", salt, iterations, hash: "SHA-256" }, baseKey, { name: "AES-GCM", length: 256 }, …)`. */
  function DeriveKeyPbkdf2(baseKey: CryptoKey, salt: Bytes, iterations: nat, extractable: bool, usages: set<KeyUsage>): (r: Result<CryptoKey>)
    ensures r.Ok? <==> baseKey.algorithm == Pbkdf2 && DeriveKey in baseKey.usages && iterations >= 1 && AesUsagesOk(usages)
    ensures r.Ok? ==> (r.value.algorithm == AesGcm && |r.value.material| == 32
                       && r.value.extractable == extractable && r.value.usages == usages)
  {
    if baseKey.algorithm != Pbkdf2 || DeriveKey !in baseKey.usages then Throw(DomException(InvalidAccessError))
    else if iterations == 0 then Throw(DomException(OperationError))
    else if !AesUsagesOk(usages) then Throw(DomException(SyntaxError))
    else Ok(CryptoKey(AesGcm, Kdf.Pbkdf2(baseKey.material, salt, iterations, 32), extractable, usages))
  }

  /** `deriveKey({ name: "HKDF", hash: "SHA-256", salt, info }, baseKey, { name: "AES-GCM", length: 256 }, …)`. */
  function DeriveKeyHkdf(baseKey: CryptoKey, salt: Bytes, info: Bytes, extractable: bool, usages: set<KeyUsage>): (r: Result<CryptoKey>)
    ensures r.Ok? <==> baseKey.algorithm == Hkdf && DeriveKey in baseKey.usages && AesUsagesOk(usages)
    ensures r.Ok? ==> (r.value.algorithm == AesGcm && |r.value.material| == 32
                       && r.value.extractable == extractable && r.value.usages == usages)
  {
    if baseKey.algorithm != Hkdf || DeriveKey !in baseKey.usages then Throw(DomException(InvalidAccessError))
    else if !AesUsagesOk(usages) then Throw(DomException(SyntaxError))
    else Ok(CryptoKey(AesGcm, Kdf.Hkdf(baseKey.material, salt, info, 32), extractable, usages))
  }

  /** `digest("SHA-256", data)`. */
  function Digest(data: Bytes): (d: Bytes)
    ensures |d| == 32
  {
    Sha256.Digest(data)
  }
}
