/**
 * `useCrypto()`: the encryption store's DEK behind two calls that refuse to
 * run while the vault is locked, and the store's `isUnlocked` flag passed
 * through as it is. The plaintext is the UTF-8 bytes of the string the
 * caller gives.
 */
module UseCrypto {
  import opened JsValues
  import WebCrypto
  import Crypto
  import EncryptionStore

  /** The `isUnlocked` the hook returns: the store's flag, not a test of `dek`. */
  function IsUnlocked(state: EncryptionStore.EncryptionState): (unlocked: bool)
    ensures state.Valid() ==> (unlocked <==> state.dek.Some?)
  {
    state.isUnlocked
  }

  /** `encryptData(plaintext)` with the random IV given. */
  function EncryptData(dek: Option<WebCrypto.CryptoKey>, plaintext: Bytes, iv: Bytes): (r: Result<string>)
    requires |iv| == Crypto.IvLength
    ensures dek.None? ==> r == Throw(JsError(EncryptionStore.NotUnlockedMessage))
    ensures dek.Some? ==> r == Crypto.Encrypt(plaintext, dek.value, iv)
    ensures r.Ok? <==> dek.Some? && WebCrypto.CanUse(dek.value, WebCrypto.Encrypt)
  {
    match dek
    case None => Throw(JsError(EncryptionStore.NotUnlockedMessage))
    case Some(key) => Crypto.Encrypt(plaintext, key, iv)
  }

  /** `decryptData(ciphertext)`. */
  function DecryptData(dek: Option<WebCrypto.CryptoKey>, ciphertext: string): (r: Result<Bytes>)
    ensures dek.None? ==> r == Throw(JsError(EncryptionStore.NotUnlockedMessage))
    ensures dek.Some? ==> r == Crypto.Decrypt(ciphertext, dek.value)
  {
    match dek
    case None => Throw(JsError(EncryptionStore.NotUnlockedMessage))
    case Some(key) => Crypto.Decrypt(ciphertext, key)
  }

  /** In a consistent store, the calls get past their guard and succeed exactly when the hook says unlocked. */
  lemma UsableExactlyWhenUnlocked(state: EncryptionStore.EncryptionState, plaintext: Bytes, iv: Bytes, ciphertext: string)
    requires |iv| == Crypto.IvLength && state.Valid()
    ensures IsUnlocked(state) <==> EncryptData(state.dek, plaintext, iv).Ok?
    ensures !IsUnlocked(state) ==> DecryptData(state.dek, ciphertext) == Throw(JsError(EncryptionStore.NotUnlockedMessage))
  {
  }

  /** Under one held DEK, `decryptData` gives back what `encryptData` was given. */
  lemma DecryptDataEncryptData(dek: WebCrypto.CryptoKey, plaintext: Bytes, iv: Bytes)
    requires |iv| == Crypto.IvLength && EncryptionStore.IsDek(dek)
    ensures EncryptData(Some(dek), plaintext, iv).Ok?
    ensures DecryptData(Some(dek), EncryptData(Some(dek), plaintext, iv).value) == Ok(plaintext)
  {
    Crypto.DecryptEncrypt(plaintext, dek, iv);
  }

  /** Data encrypted under one DEK does not decrypt under another: AES-GCM authentication fails. */
  lemma DecryptDataWithOtherDekFails(dek: WebCrypto.CryptoKey, plaintext: Bytes, iv: Bytes, other: WebCrypto.CryptoKey)
    requires |iv| == Crypto.IvLength && EncryptionStore.IsDek(dek) && EncryptionStore.IsDek(other)
    requires other.material != dek.material
    ensures DecryptData(Some(other), EncryptData(Some(dek), plaintext, iv).value) == Throw(DomException(OperationError))
  {
    Crypto.DecryptWithOtherKeyFails(plaintext, dek, iv, other);
  }
}
