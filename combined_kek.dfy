/**
 * The combined KEK: HKDF-SHA-256 over the client KEK's bytes followed by
 * the server key's bytes, salted with the user's salt, with the info string
 * "selah-combined-kek". Neither the PIN alone nor the server alone can
 * rebuild it.
 */
module CombinedKek {
  import opened JsValues
  import Base64
  import Utf8
  import Kdf
  import WebCrypto

  /** The HKDF info: the bytes of "selah-combined-kek". */
  const Info: Bytes := [0x73, 0x65, 0x6c, 0x61, 0x68, 0x2d, 0x63, 0x6f, 0x6d, 0x62, 0x69, 0x6e, 0x65, 0x64, 0x2d, 0x6b, 0x65, 0x6b]

  /** `new TextEncoder().encode("selah-combined-kek")` is `Info`. */
  lemma InfoIsUtf8(text: string)
    requires text == "selah-combined-kek"
    ensures Utf8.Encode(text) == Info
  {
    assert forall i :: 0 <= i < |text| ==> text[i] as int < 0x80;
    Utf8.EncodeAscii(text);
    assert forall i :: 0 <= i < |text| ==> text[i] as int == Info[i];
  }

  const KekUsages: set<WebCrypto.KeyUsage> := {WebCrypto.WrapKey, WebCrypto.UnwrapKey}

  /** The HKDF input key material: client KEK bytes, then server key bytes. */
  function InputKeyMaterial(clientKekBytes: Bytes, serverKeyBytes: Bytes): (ikm: Bytes)
    ensures |ikm| == |clientKekBytes| + |serverKeyBytes|
    ensures ikm[..|clientKekBytes|] == clientKekBytes && ikm[|clientKekBytes|..] == serverKeyBytes
  {
    clientKekBytes + serverKeyBytes
  }

  /** `deriveCombinedKEK(clientKEK, serverKeyBase64, salt)`. */
  function DeriveCombinedKek(clientKek: WebCrypto.CryptoKey, serverKeyBase64: string, salt: Bytes): (r: Result<WebCrypto.CryptoKey>)
    ensures r.Ok? <==> clientKek.extractable && Base64.Decode(serverKeyBase64).Some?
    ensures !clientKek.extractable ==> r == Throw(DomException(InvalidAccessError))
    ensures r.Ok? ==> r.value == WebCrypto.CryptoKey(WebCrypto.AesGcm,
                        Kdf.Hkdf(InputKeyMaterial(clientKek.material, Base64.Decode(serverKeyBase64).value), salt, Info, 32),
                        false, KekUsages)
  {
    var clientKekBytes :- WebCrypto.ExportRawKey(clientKek);
    match Base64.Decode(serverKeyBase64)
    case None => Throw(DomException(InvalidCharacterError))
    case Some(serverKeyBytes) =>
      var keyMaterial := WebCrypto.ImportRawKey(InputKeyMaterial(clientKekBytes, serverKeyBytes), WebCrypto.Hkdf, false, {WebCrypto.DeriveKey}).value;
      WebCrypto.DeriveKeyHkdf(keyMaterial, salt, Info, false, KekUsages)
  }

  /** The combined KEK can wrap and unwrap but never be exported. */
  lemma CombinedKekIsWrapOnly(clientKek: WebCrypto.CryptoKey, serverKeyBase64: string, salt: Bytes)
    requires DeriveCombinedKek(clientKek, serverKeyBase64, salt).Ok?
    ensures WebCrypto.CanUse(DeriveCombinedKek(clientKek, serverKeyBase64, salt).value, WebCrypto.WrapKey)
    ensures WebCrypto.CanUse(DeriveCombinedKek(clientKek, serverKeyBase64, salt).value, WebCrypto.UnwrapKey)
    ensures WebCrypto.ExportRawKey(DeriveCombinedKek(clientKek, serverKeyBase64, salt).value).Throw?
  {
  }
}
