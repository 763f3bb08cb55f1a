/**
 * The data encryption key (DEK): a random AES-256-GCM key that encrypts the
 * user's content and is stored on the server only wrapped under a key
 * encryption key (KEK), as base64 of IV followed by the wrapped key.
 */
module Dek {
  import opened JsValues
  import Base64
  import WebCrypto
  import Crypto

  const DekBits := 256

  const DekUsages: set<WebCrypto.KeyUsage> := {WebCrypto.Encrypt, WebCrypto.Decrypt}

  /** `generateDEK()`, the 32 random key bytes given. */
  function GenerateDek(random: Bytes): (dek: WebCrypto.CryptoKey)
    requires |random| == DekBits / 8
    ensures dek.algorithm == WebCrypto.AesGcm && |dek.material| == 32
    ensures dek.extractable && dek.usages == DekUsages
  {
    WebCrypto.GenerateAesKey(random, true, DekUsages)
  }

  /** `encryptDEK(dek, kek)` with the random IV given. */
  function EncryptDek(dek: WebCrypto.CryptoKey, kek: WebCrypto.CryptoKey, iv: Bytes): (r: Result<string>)
    requires |iv| == Crypto.IvLength
    ensures r.Ok? <==> dek.extractable && WebCrypto.CanUse(kek, WebCrypto.WrapKey)
    ensures r.Throw? ==> r.error == DomException(InvalidAccessError)
    ensures r.Ok? ==> Crypto.IsFramed(r.value, kek.material, iv, dek.material)
  {
    var wrapped :- WebCrypto.WrapRawKey(dek, kek, iv);
    Base64.DecodeEncode(iv + wrapped);
    Crypto.SplitFramed(iv, wrapped);
    Ok(Base64.Encode(iv + wrapped))
  }

  /** `decryptDEK(encryptedDEK, kek)`: the DEK comes back non-extractable. */
  function DecryptDek(encryptedDek: string, kek: WebCrypto.CryptoKey): (r: Result<WebCrypto.CryptoKey>)
    ensures r.Ok? ==> !r.value.extractable && r.value.usages == DekUsages && r.value.algorithm == WebCrypto.AesGcm
    ensures r.Ok? ==> WebCrypto.IsAesKeyLength(|r.value.material|)
    ensures Base64.Decode(encryptedDek).None? ==> r == Throw(DomException(InvalidCharacterError))
    ensures var combined := Base64.Decode(encryptedDek);
            combined.Some? && |combined.value| >= Crypto.IvLength ==>
              (r.Ok? <==> WebCrypto.CanUse(kek, WebCrypto.UnwrapKey) && Crypto.OpenFrame(combined.value, kek.material).Some?
                          && WebCrypto.IsAesKeyLength(|Crypto.OpenFrame(combined.value, kek.material).value|))
              && (r.Ok? ==> r.value.material == Crypto.OpenFrame(combined.value, kek.material).value)
    ensures var combined := Base64.Decode(encryptedDek);
            combined.Some? && |combined.value| < Crypto.IvLength && WebCrypto.CanUse(kek, WebCrypto.UnwrapKey) ==>
              r == Throw(DomException(OperationError))
  {
    UnwrapDek(encryptedDek, kek, false)
  }

  /** `unwrapKey` of the framed DEK under `kek`, with the extractability as a parameter. */
  function UnwrapDek(encryptedDek: string, kek: WebCrypto.CryptoKey, extractable: bool): (r: Result<WebCrypto.CryptoKey>)
    ensures r.Ok? ==> r.value.extractable == extractable && r.value.usages == DekUsages && r.value.algorithm == WebCrypto.AesGcm
    ensures r.Ok? ==> WebCrypto.IsAesKeyLength(|r.value.material|)
    ensures Base64.Decode(encryptedDek).None? ==> r == Throw(DomException(InvalidCharacterError))
    ensures var combined := Base64.Decode(encryptedDek);
            combined.Some? && |combined.value| >= Crypto.IvLength ==>
              (r.Ok? <==> WebCrypto.CanUse(kek, WebCrypto.UnwrapKey) && Crypto.OpenFrame(combined.value, kek.material).Some?
                          && WebCrypto.IsAesKeyLength(|Crypto.OpenFrame(combined.value, kek.material).value|))
              && (r.Ok? ==> r.value.material == Crypto.OpenFrame(combined.value, kek.material).value)
    ensures var combined := Base64.Decode(encryptedDek);
            combined.Some? && |combined.value| < Crypto.IvLength && WebCrypto.CanUse(kek, WebCrypto.UnwrapKey) ==>
              r == Throw(DomException(OperationError))
  {
    match Base64.Decode(encryptedDek)
    case None => Throw(DomException(InvalidCharacterError))
    case Some(combined) =>
      var (iv, wrapped) := Crypto.SplitIv(combined);
      Crypto.OpenEmptyFails(kek.material, iv);
      WebCrypto.UnwrapRawKey(wrapped, kek, iv, extractable, DekUsages)
  }

  /** A DEK wrapped under a KEK unwraps under that KEK to the same key bytes, whatever the IV. */
  lemma UnwrapDekRoundTrip(dek: WebCrypto.CryptoKey, kek: WebCrypto.CryptoKey, iv: Bytes, extractable: bool)
    requires |iv| == Crypto.IvLength
    requires EncryptDek(dek, kek, iv).Ok?
    requires WebCrypto.UnwrapKey in kek.usages && WebCrypto.IsAesKeyLength(|dek.material|)
    ensures UnwrapDek(EncryptDek(dek, kek, iv).value, kek, extractable)
         == Ok(WebCrypto.CryptoKey(WebCrypto.AesGcm, dek.material, extractable, DekUsages))
  {
    var wrapped := WebCrypto.WrapRawKey(dek, kek, iv).value;
    Base64.DecodeEncode(iv + wrapped);
    Crypto.SplitFramed(iv, wrapped);
    WebCrypto.UnwrapWrapped(dek, kek, iv, extractable, DekUsages);
  }

  /** `decryptDEK` inverts `encryptDEK` under the same KEK; the result is a non-extractable copy. */
  lemma DecryptEncryptDek(dek: WebCrypto.CryptoKey, kek: WebCrypto.CryptoKey, iv: Bytes)
    requires |iv| == Crypto.IvLength
    requires EncryptDek(dek, kek, iv).Ok?
    requires WebCrypto.UnwrapKey in kek.usages && WebCrypto.IsAesKeyLength(|dek.material|)
    ensures DecryptDek(EncryptDek(dek, kek, iv).value, kek)
         == Ok(WebCrypto.CryptoKey(WebCrypto.AesGcm, dek.material, false, DekUsages))
  {
    UnwrapDekRoundTrip(dek, kek, iv, false);
  }

  /** Under a KEK with other key bytes the wrapped DEK is rejected with `OperationError`. */
  lemma DecryptDekWithOtherKekFails(dek: WebCrypto.CryptoKey, kek: WebCrypto.CryptoKey, iv: Bytes, other: WebCrypto.CryptoKey, extractable: bool)
    requires |iv| == Crypto.IvLength
    requires EncryptDek(dek, kek, iv).Ok?
    requires WebCrypto.CanUse(other, WebCrypto.UnwrapKey) && other.material != kek.material
    ensures UnwrapDek(EncryptDek(dek, kek, iv).value, other, extractable) == Throw(DomException(OperationError))
  {
    var wrapped := WebCrypto.WrapRawKey(dek, kek, iv).value;
    Base64.DecodeEncode(iv + wrapped);
    Crypto.SplitFramed(iv, wrapped);
    WebCrypto.UnwrapWithOtherKeyFails(dek, kek, iv, other, iv, extractable, DekUsages);
  }

  /** `exportDEK(dek)`: the raw key bytes, for an extractable key only. */
  function ExportDek(dek: WebCrypto.CryptoKey): (r: Result<Bytes>)
    ensures r.Ok? <==> dek.extractable
    ensures r.Ok? ==> r.value == dek.material
  {
    WebCrypto.ExportRawKey(dek)
  }

  /** `importDEK(dekBytes, extractable)`: AES-GCM with the DEK usages. */
  function ImportDek(dekBytes: Bytes, extractable: bool := false): (r: Result<WebCrypto.CryptoKey>)
    ensures r.Ok? <==> WebCrypto.IsAesKeyLength(|dekBytes|)
    ensures r.Ok? ==> r.value.material == dekBytes && r.value.extractable == extractable && r.value.usages == DekUsages
  {
    WebCrypto.ImportRawKey(dekBytes, WebCrypto.AesGcm, extractable, DekUsages)
  }

  /** Importing an exported DEK gives back a key with the same bytes and usages. */
  lemma ImportExportDek(dek: WebCrypto.CryptoKey, extractable: bool)
    requires dek.extractable && WebCrypto.IsAesKeyLength(|dek.material|)
    ensures ImportDek(ExportDek(dek).value, extractable) == Ok(WebCrypto.CryptoKey(WebCrypto.AesGcm, dek.material, extractable, DekUsages))
  {
  }
}
