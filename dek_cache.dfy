/**
 * The DEK cache that spares a PIN prompt on page reload. The DEK is wrapped
 * under a fresh random AES-256-GCM wrap key; IV followed by the wrapped DEK
 * goes to the IndexedDB object store "dek-cache" (database
 * "selah-encryption") under "wrapped-dek", and the wrap key goes, base64,
 * to sessionStorage under "selah-wrap-key". Only with both can the DEK come
 * back, and it comes back non-extractable.
 *
 * IndexedDB is shared by every tab of the origin, sessionStorage is per tab.
 * Storage failures are the parameters `idbFails` (the database cannot be
 * opened or the request errors) and `sessionFails` (`setItem` throws).
 */
module DekCache {
  import opened JsValues
  import Base64
  import WebCrypto
  import Crypto
  import Dek

  const DbName := "selah-encryption"
  const DbVersion := 1
  const StoreName := "dek-cache"
  const CacheKey := "wrapped-dek"
  const SessionKey := "selah-wrap-key"

  const WrapKeyUsages: set<WebCrypto.KeyUsage> := {WebCrypto.WrapKey, WebCrypto.UnwrapKey}

  /** The two browser stores the cache lives in. */
  class BrowserStorage {
    /** sessionStorage of this tab. */
    var session: map<string, string>
    /** The "dek-cache" object store. */
    var idb: map<string, Bytes>

    constructor(session: map<string, string>, idb: map<string, Bytes>)
      ensures this.session == session && this.idb == idb
    {
      this.session := session;
      this.idb := idb;
    }
  }

  /** What `cacheDEK` stores under "wrapped-dek": the IV, then the key bytes sealed under the wrap key. */
  function Blob(dekMaterial: Bytes, wrapKeyBytes: Bytes, iv: Bytes): (blob: Bytes)
    requires |iv| == Crypto.IvLength
    ensures Crypto.SplitIv(blob) == (iv, WebCrypto.Seal(wrapKeyBytes, iv, dekMaterial))
  {
    Crypto.SplitFramed(iv, WebCrypto.Seal(wrapKeyBytes, iv, dekMaterial));
    iv + WebCrypto.Seal(wrapKeyBytes, iv, dekMaterial)
  }

  /**
   * `cacheDEK(dek)` with the 32 wrap-key bytes and the IV drawn at random.
   * Every failure is caught and logged; the IndexedDB write comes before the
   * sessionStorage write, so a failing `setItem` leaves the new blob beside
   * the old session entry.
   */
  method CacheDek(storage: BrowserStorage, dek: WebCrypto.CryptoKey, wrapRandom: Bytes, iv: Bytes,
                  idbFails: bool, sessionFails: bool)
    requires |wrapRandom| == 32 && |iv| == Crypto.IvLength
    modifies storage
    ensures !dek.extractable || idbFails ==> storage.session == old(storage.session) && storage.idb == old(storage.idb)
    ensures dek.extractable && !idbFails ==> storage.idb == old(storage.idb)[CacheKey := Blob(dek.material, wrapRandom, iv)]
    ensures dek.extractable && !idbFails && !sessionFails ==>
              storage.session == old(storage.session)[SessionKey := Base64.Encode(wrapRandom)]
    ensures sessionFails ==> storage.session == old(storage.session)
    ensures dek.extractable && WebCrypto.IsAesKeyLength(|dek.material|) && !idbFails && !sessionFails ==>
              LoadCachedDek(storage.session, storage.idb, false)
              == Some(WebCrypto.CryptoKey(WebCrypto.AesGcm, dek.material, false, Dek.DekUsages))
  {
    if dek.extractable && WebCrypto.IsAesKeyLength(|dek.material|) {
      LoadAfterCache(storage.session, storage.idb, dek, wrapRandom, iv);
    }
    var wrapKey := WebCrypto.GenerateAesKey(wrapRandom, true, WrapKeyUsages);
    var wrapped := WebCrypto.WrapRawKey(dek, wrapKey, iv);
    if wrapped.Throw? {
      return;
    }
    var combined := iv + wrapped.value;
    if idbFails {
      return;
    }
    storage.idb := storage.idb[CacheKey := combined];
    var exported := WebCrypto.ExportRawKey(wrapKey).value;
    Base64.CharCodesOfBinaryString(exported);
    var encoded := Base64.Btoa(Base64.BinaryString(exported)).value;
    if !sessionFails {
      storage.session := storage.session[SessionKey := encoded];
    }
  }

  /**
   * `loadWrapKeyFromSession()`: `Ok(None)` for a missing or empty entry and
   * when `atob` throws; the key import rejects on a wrong key length.
   */
  function LoadWrapKeyFromSession(session: map<string, string>): (r: Result<Option<WebCrypto.CryptoKey>>)
    ensures SessionKey !in session || session[SessionKey] == "" ==> r == Ok(None)
    ensures r.Ok? && r.value.Some? <==>
              (SessionKey in session && session[SessionKey] != "" && Base64.Decode(session[SessionKey]).Some?
               && WebCrypto.IsAesKeyLength(|Base64.Decode(session[SessionKey]).value|))
    ensures r.Ok? && r.value.Some? ==>
              r.value.value == WebCrypto.CryptoKey(WebCrypto.AesGcm, Base64.Decode(session[SessionKey]).value, true, WrapKeyUsages)
  {
    if SessionKey !in session || session[SessionKey] == "" then Ok(None)
    else
      match Base64.Decode(session[SessionKey])
      case None => Ok(None)
      case Some(keyBytes) =>
        var imported := WebCrypto.ImportRawKey(keyBytes, WebCrypto.AesGcm, true, WrapKeyUsages);
        if imported.Ok? then Ok(Some(imported.value)) else Throw(imported.error)
  }

  /**
   * `loadCachedDEK()` as written: the unwrap promise is returned without
   * `await`, so its rejection escapes the `try` and the call rejects.
   */
  function LoadCachedDekAsWritten(session: map<string, string>, idb: map<string, Bytes>, idbFails: bool)
    : (r: Result<Option<WebCrypto.CryptoKey>>)
    ensures r.Throw? ==> (SessionKey in session && !idbFails && CacheKey in idb)
  {
    match LoadWrapKeyFromSession(session)
    case Throw(_) => Ok(None)
    case Ok(None) => Ok(None)
    case Ok(Some(wrapKey)) =>
      if idbFails || CacheKey !in idb then Ok(None)
      else
        var (iv, wrapped) := Crypto.SplitIv(idb[CacheKey]);
        var unwrapped := WebCrypto.UnwrapRawKey(wrapped, wrapKey, iv, false, Dek.DekUsages);
        if unwrapped.Ok? then Ok(Some(unwrapped.value)) else Throw(unwrapped.error)
  }

  /**
   * `loadCachedDEK()` with the unwrap awaited inside the `try`: every
   * failure resolves to `None`, as the function's `catch` intends.
   */
  function LoadCachedDek(session: map<string, string>, idb: map<string, Bytes>, idbFails: bool)
    : (r: Option<WebCrypto.CryptoKey>)
    ensures r == (var w := LoadCachedDekAsWritten(session, idb, idbFails); if w.Ok? then w.value else None)
    ensures r.Some? ==> HasCachedDek(session) && CacheKey in idb && !idbFails
    ensures r.Some? ==> (r.value.algorithm == WebCrypto.AesGcm && !r.value.extractable
                         && r.value.usages == Dek.DekUsages && WebCrypto.IsAesKeyLength(|r.value.material|))
  {
    match LoadWrapKeyFromSession(session)
    case Throw(_) => None
    case Ok(None) => None
    case Ok(Some(wrapKey)) =>
      if idbFails || CacheKey !in idb then None
      else
        var (iv, wrapped) := Crypto.SplitIv(idb[CacheKey]);
        var unwrapped := WebCrypto.UnwrapRawKey(wrapped, wrapKey, iv, false, Dek.DekUsages);
        if unwrapped.Ok? then Some(unwrapped.value) else None
  }

  /** `clearDEKCache()`: the session entry goes first and always; the blob only if IndexedDB works. */
  method ClearDekCache(storage: BrowserStorage, idbFails: bool)
    modifies storage
    ensures storage.session == old(storage.session) - {SessionKey}
    ensures storage.idb == if idbFails then old(storage.idb) else old(storage.idb) - {CacheKey}
  {
    storage.session := storage.session - {SessionKey};
    if !idbFails {
      storage.idb := storage.idb - {CacheKey};
    }
  }

  /** `hasCachedDEK()`: only the session entry is looked at. */
  predicate HasCachedDek(session: map<string, string>)
  {
    SessionKey in session
  }

  /** The session entry `cacheDEK` writes reads back as the wrap key it encoded. */
  lemma LoadEncodedWrapKey(session: map<string, string>, wrapRandom: Bytes)
    requires |wrapRandom| == 32
    ensures LoadWrapKeyFromSession(session[SessionKey := Base64.Encode(wrapRandom)])
         == Ok(Some(WebCrypto.CryptoKey(WebCrypto.AesGcm, wrapRandom, true, WrapKeyUsages)))
  {
    Base64.DecodeEncode(wrapRandom);
    Base64.EncodeLength(wrapRandom);
  }

  /**
   * What one `cacheDEK` stored, `loadCachedDEK` restores: the same key
   * bytes, now non-extractable with the DEK usages.
   */
  lemma LoadAfterCache(session: map<string, string>, idb: map<string, Bytes>, dek: WebCrypto.CryptoKey, wrapRandom: Bytes, iv: Bytes)
    requires |wrapRandom| == 32 && |iv| == Crypto.IvLength
    requires dek.extractable && WebCrypto.IsAesKeyLength(|dek.material|)
    ensures LoadCachedDekAsWritten(session[SessionKey := Base64.Encode(wrapRandom)], idb[CacheKey := Blob(dek.material, wrapRandom, iv)], false)
         == Ok(Some(WebCrypto.CryptoKey(WebCrypto.AesGcm, dek.material, false, Dek.DekUsages)))
    ensures LoadCachedDek(session[SessionKey := Base64.Encode(wrapRandom)], idb[CacheKey := Blob(dek.material, wrapRandom, iv)], false)
         == Some(WebCrypto.CryptoKey(WebCrypto.AesGcm, dek.material, false, Dek.DekUsages))
  {
    LoadEncodedWrapKey(session, wrapRandom);
    WebCrypto.OpenSeal(wrapRandom, iv, dek.material);
  }

  /**
   * A blob written by another tab under its own wrap key, beside this tab's
   * session entry: the as-written load rejects with `OperationError`
   * instead of resolving to `null`; the corrected load gives `None`.
   */
  lemma LoadForeignBlobRejects(session: map<string, string>, idb: map<string, Bytes>, dek: WebCrypto.CryptoKey,
                               ownWrapRandom: Bytes, otherWrapRandom: Bytes, iv: Bytes)
    requires |ownWrapRandom| == 32 && |otherWrapRandom| == 32 && ownWrapRandom != otherWrapRandom
    requires |iv| == Crypto.IvLength
    ensures LoadCachedDekAsWritten(session[SessionKey := Base64.Encode(ownWrapRandom)],
                                   idb[CacheKey := Blob(dek.material, otherWrapRandom, iv)], false)
         == Throw(DomException(OperationError))
    ensures LoadCachedDek(session[SessionKey := Base64.Encode(ownWrapRandom)],
                          idb[CacheKey := Blob(dek.material, otherWrapRandom, iv)], false)
         == None
  {
    LoadEncodedWrapKey(session, ownWrapRandom);
    if WebCrypto.Open(ownWrapRandom, iv, WebCrypto.Seal(otherWrapRandom, iv, dek.material)).Some? {
      WebCrypto.OpenOnlyWithSameKey(otherWrapRandom, iv, dek.material, ownWrapRandom, iv);
    }
  }

  /** After `clearDEKCache` nothing is cached and nothing loads, whether or not IndexedDB worked. */
  lemma ClearedCacheLoadsNothing(session: map<string, string>, idb: map<string, Bytes>, idbFails: bool)
    ensures !HasCachedDek(session - {SessionKey})
    ensures LoadCachedDekAsWritten(session - {SessionKey}, idb, idbFails) == Ok(None)
    ensures LoadCachedDek(session - {SessionKey}, idb, idbFails) == None
  {
  }
}
