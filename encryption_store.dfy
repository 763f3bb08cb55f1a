/**
 * The encryption session store: whether the vault is unlocked, the DEK held
 * in memory, whether a cache restore is running, and the recovery key
 * waiting to be shown once. Its actions set the DEK up at signup, unlock it
 * with the PIN, restore it from the DEK cache, re-wrap it for a new PIN or a
 * new recovery key, recover it with the recovery key, and lock.
 *
 * Server replies, random values and storage failures are inputs; every
 * action also returns the requests it sent, in order. Each action runs to
 * completion before the next starts.
 */
module EncryptionStore {
  import opened JsValues
  import Base64
  import WebCrypto
  import Crypto
  import Dek
  import KeyDerivation
  import CombinedKek
  import RecoveryKey
  import DekCache
  import opened EncryptionApi

  const NotUnlockedMessage := "암호화가 해제되지 않았습니다"
  const SetupFailedMessage := "암호화 설정 실패"
  const SettingsNotFoundMessage := "암호화 설정을 찾을 수 없습니다"
  const CurrentSettingsFailedMessage := "현재 설정 조회 실패"
  const RecoverySettingsNotFoundMessage := "복구 설정을 찾을 수 없습니다"
  const WrongRecoveryKeyMessage := "복구 키가 올바르지 않습니다"
  const SettingsLookupFailedMessage := "암호화 설정 조회 실패"
  const NotImplementedMessage := "Not implemented"

  /**
   * The two copies of the store: the shared one, and the older one under
   * the encryption feature, which sends no `rotateServerKey` with its
   * updates and has no recovery.
   */
  datatype Variant = Shared | Legacy

  /** The `rotateServerKey` field of the updates that keep the server key. */
  function KeepServerKey(variant: Variant): (flag: Option<bool>)
    ensures flag != Some(true)
    ensures flag.None? <==> variant == Legacy
  {
    match variant
    case Shared => Some(false)
    case Legacy => None
  }

  /** The random values one `cacheDEK` draws: the wrap key and the IV. */
  datatype CacheRandomness = CacheRandomness(wrapKey: Bytes, iv: Bytes)
  {
    predicate WellSized() { |wrapKey| == 32 && |iv| == Crypto.IvLength }
  }

  /** The random values one `setupEncryption` draws. */
  datatype SetupRandomness = SetupRandomness(dek: Bytes, salt: Bytes, recoveryKey: Bytes, recoveryIv: Bytes,
                                             dekIv: Bytes, cache: CacheRandomness)
  {
    predicate WellSized()
    {
      |dek| == Dek.DekBits / 8 && |salt| == Crypto.SaltLength && |recoveryKey| == RecoveryKey.RecoveryKeyLength
      && |recoveryIv| == Crypto.IvLength && |dekIv| == Crypto.IvLength && cache.WellSized()
    }
  }

  /** Whether the IndexedDB and the sessionStorage writes of one action fail. */
  datatype StorageFaults = StorageFaults(idbFails: bool, sessionFails: bool)

  /** A key fit to be the DEK: AES-256-GCM with the encrypt and decrypt usages. */
  predicate IsDek(k: WebCrypto.CryptoKey)
  {
    k.algorithm == WebCrypto.AesGcm && k.usages == Dek.DekUsages && WebCrypto.IsAesKeyLength(|k.material|)
  }

  // ---------------------------------------------------------------------
  // The key chains the actions run

  /** `deriveClientKEK(pin, salt)`, then `deriveCombinedKEK` with the server key. */
  function CombinedKekFor(pin: string, salt: Bytes, serverKey: string): (r: Result<WebCrypto.CryptoKey>)
    ensures r.Ok? <==> Base64.Decode(serverKey).Some?
    ensures r.Throw? ==> r.error == DomException(InvalidCharacterError)
    ensures r.Ok? ==> WebCrypto.CanUse(r.value, WebCrypto.WrapKey) && WebCrypto.CanUse(r.value, WebCrypto.UnwrapKey)
  {
    CombinedKek.DeriveCombinedKek(KeyDerivation.DeriveClientKek(pin, salt).value, serverKey, salt)
  }

  /** The chain of `unlockWithPIN`: the salt from base64, the combined KEK, then `decryptDEK`. */
  function UnlockDek(pin: string, settings: EncryptionSettings): (r: Result<WebCrypto.CryptoKey>)
    ensures r.Ok? ==> IsDek(r.value) && !r.value.extractable
    ensures Base64.Decode(settings.salt).None? ==> r == Throw(DomException(InvalidCharacterError))
  {
    match Base64.Decode(settings.salt)
    case None => Throw(DomException(InvalidCharacterError))
    case Some(salt) =>
      var kek :- CombinedKekFor(pin, salt, settings.serverKey);
      Dek.DecryptDek(settings.encryptedDek, kek)
  }

  /** The combined KEK, then `encryptDEK`: what setup, PIN change and recovery upload. */
  function WrapDekFor(dek: WebCrypto.CryptoKey, pin: string, salt: Bytes, serverKey: string, iv: Bytes): (r: Result<string>)
    requires |iv| == Crypto.IvLength
    ensures r.Ok? <==> Base64.Decode(serverKey).Some? && dek.extractable
    ensures Base64.Decode(serverKey).Some? && !dek.extractable ==> r == Throw(DomException(InvalidAccessError))
  {
    var kek :- CombinedKekFor(pin, salt, serverKey);
    Dek.EncryptDek(dek, kek, iv)
  }

  /** What was uploaded for a PIN unlocks with that PIN, salt and server key to the same key bytes. */
  lemma UnlockWrapped(dek: WebCrypto.CryptoKey, pin: string, salt: Bytes, serverKey: string, iv: Bytes)
    requires |iv| == Crypto.IvLength
    requires WrapDekFor(dek, pin, salt, serverKey, iv).Ok? && WebCrypto.IsAesKeyLength(|dek.material|)
    ensures UnlockDek(pin, EncryptionSettings(Base64.Encode(salt), WrapDekFor(dek, pin, salt, serverKey, iv).value, serverKey))
         == Ok(WebCrypto.CryptoKey(WebCrypto.AesGcm, dek.material, false, Dek.DekUsages))
  {
    Base64.DecodeEncode(salt);
    Dek.DecryptEncryptDek(dek, CombinedKekFor(pin, salt, serverKey).value, iv);
  }

  /**
   * A PIN whose combined KEK differs (PBKDF2 and HKDF are taken to separate
   * PINs; that is not proved here) fails to unlock with `OperationError`.
   */
  lemma UnlockWithOtherPinFails(dek: WebCrypto.CryptoKey, pin: string, salt: Bytes, serverKey: string, iv: Bytes, otherPin: string)
    requires |iv| == Crypto.IvLength
    requires WrapDekFor(dek, pin, salt, serverKey, iv).Ok?
    requires CombinedKekFor(otherPin, salt, serverKey).value.material != CombinedKekFor(pin, salt, serverKey).value.material
    ensures UnlockDek(otherPin, EncryptionSettings(Base64.Encode(salt), WrapDekFor(dek, pin, salt, serverKey, iv).value, serverKey))
         == Throw(DomException(OperationError))
  {
    Base64.DecodeEncode(salt);
    Dek.DecryptDekWithOtherKekFails(dek, CombinedKekFor(pin, salt, serverKey).value, iv,
                                    CombinedKekFor(otherPin, salt, serverKey).value, false);
  }

  /**
   * A DEK unlocked with the PIN cannot be wrapped again: `decryptDEK`
   * returns it non-extractable, so the re-wrap of a PIN change and the
   * wrap under a new recovery key reject with `InvalidAccessError`.
   */
  lemma UnlockedDekCannotBeRewrapped(pin: string, settings: EncryptionSettings, newPin: string, newSalt: Bytes,
                                     serverKey: string, iv: Bytes, recoveryKey: Bytes)
    requires |iv| == Crypto.IvLength
    requires UnlockDek(pin, settings).Ok? && Base64.Decode(serverKey).Some?
    ensures WrapDekFor(UnlockDek(pin, settings).value, newPin, newSalt, serverKey, iv) == Throw(DomException(InvalidAccessError))
    ensures RecoveryKey.EncryptDekWithRecoveryKey(UnlockDek(pin, settings).value, recoveryKey, iv).Throw?
  {
  }

  /** Steps 1 to 4 of `setupEncryption`: the first request, sent with no wrapped DEK yet. */
  function SetupRequest(rnd: SetupRandomness): (req: Request)
    requires rnd.WellSized()
    ensures req.Setup? && req.salt == Base64.Encode(rnd.salt) && req.initialEncryptedDek == None
  {
    var dek := Dek.GenerateDek(rnd.dek);
    RecoveryKey.RecoverWithDisplayedKey(dek, rnd.recoveryKey, rnd.recoveryIv);
    Setup(Base64.Encode(rnd.salt), None,
          RecoveryKey.EncryptDekWithRecoveryKey(dek, rnd.recoveryKey, rnd.recoveryIv).value,
          RecoveryKey.HashRecoveryKey(RecoveryKey.KeyBytes(rnd.recoveryKey)).value)
  }

  /**
   * The recovery half of the setup request: the wrapped DEK opens with the
   * recovery key as displayed, and the hash verifies the key's bytes.
   */
  lemma SetupRequestRecoverable(rnd: SetupRandomness)
    requires rnd.WellSized()
    ensures RecoveryKey.DecryptDekWithRecoveryKey(SetupRequest(rnd).recoveryEncryptedDek,
                                                  RecoveryKey.KeyString(RecoveryKey.Format(rnd.recoveryKey)))
         == Ok(WebCrypto.CryptoKey(WebCrypto.AesGcm, rnd.dek, true, Dek.DekUsages))
    ensures RecoveryKey.VerifyRecoveryKey(RecoveryKey.KeyBytes(rnd.recoveryKey), SetupRequest(rnd).recoveryKeyHash) == Ok(true)
  {
    RecoveryKey.RecoverWithDisplayedKey(Dek.GenerateDek(rnd.dek), rnd.recoveryKey, rnd.recoveryIv);
  }

  /** Steps 1 and 2 of `recoverWithKey`: the recovery settings, then the unwrap with the key typed in. */
  function RecoverDek(recoveryKey: string, recoveryReply: ApiResult<RecoverySettings>): (r: Result<WebCrypto.CryptoKey>)
    ensures r.Ok? ==> IsDek(r.value) && r.value.extractable
    ensures recoveryReply.error.Some? ==> r == Throw(JsError(recoveryReply.error.value.message))
    ensures recoveryReply.error.None? && recoveryReply.data.None? ==> r == Throw(JsError(RecoverySettingsNotFoundMessage))
    ensures recoveryReply.error.None? && recoveryReply.data.Some? && r.Throw? ==> r.error == JsError(WrongRecoveryKeyMessage)
  {
    var settings :- RequireData(recoveryReply, RecoverySettingsNotFoundMessage);
    var recovered := RecoveryKey.DecryptDekWithRecoveryKey(settings.recoveryEncryptedDek, RecoveryKey.KeyString(recoveryKey));
    if recovered.Ok? then recovered else Throw(JsError(WrongRecoveryKeyMessage))
  }

  /** The recovery key shown at setup recovers the DEK from what setup sent. */
  lemma RecoverAfterSetup(rnd: SetupRandomness)
    requires rnd.WellSized()
    ensures RecoverDek(RecoveryKey.Format(rnd.recoveryKey),
                       ApiResult(Some(RecoverySettings(SetupRequest(rnd).recoveryEncryptedDek, SetupRequest(rnd).recoveryKeyHash)), None))
         == Ok(WebCrypto.CryptoKey(WebCrypto.AesGcm, rnd.dek, true, Dek.DekUsages))
  {
    SetupRequestRecoverable(rnd);
  }

  /** Steps 4 to 6 of `setupEncryption`: the setup reply, then the DEK wrapped for the PIN under its server key. */
  function SetupWrap(pin: string, rnd: SetupRandomness, setupReply: ApiResult<SetupResponse>): (r: Result<string>)
    requires rnd.WellSized()
    ensures r.Ok? <==> setupReply.error.None? && setupReply.data.Some? && Base64.Decode(setupReply.data.value.serverKey).Some?
    ensures setupReply.error.Some? ==> r == Throw(JsError(setupReply.error.value.message))
    ensures setupReply.error.None? && setupReply.data.None? ==> r == Throw(JsError(SetupFailedMessage))
  {
    var data :- RequireData(setupReply, SetupFailedMessage);
    WrapDekFor(Dek.GenerateDek(rnd.dek), pin, rnd.salt, data.serverKey, rnd.dekIv)
  }

  /** The DEK set up for a PIN unlocks with that PIN, the salt sent and the server key received. */
  lemma UnlockAfterSetup(pin: string, rnd: SetupRandomness, setupReply: ApiResult<SetupResponse>)
    requires rnd.WellSized() && SetupWrap(pin, rnd, setupReply).Ok?
    ensures UnlockDek(pin, EncryptionSettings(SetupRequest(rnd).salt, SetupWrap(pin, rnd, setupReply).value, setupReply.data.value.serverKey))
         == Ok(WebCrypto.CryptoKey(WebCrypto.AesGcm, rnd.dek, false, Dek.DekUsages))
  {
    UnlockWrapped(Dek.GenerateDek(rnd.dek), pin, rnd.salt, setupReply.data.value.serverKey, rnd.dekIv);
  }

  /** `unlockWithPIN` up to its `set`: the settings reply, then the unwrap chain. */
  function UnlockOutcome(pin: string, settingsReply: ApiResult<EncryptionSettings>): (r: Result<WebCrypto.CryptoKey>)
    ensures r.Ok? ==> IsDek(r.value) && !r.value.extractable
    ensures settingsReply.error.Some? ==> r == Throw(JsError(settingsReply.error.value.message))
    ensures settingsReply.error.None? && settingsReply.data.None? ==> r == Throw(JsError(SettingsNotFoundMessage))
  {
    var settings :- RequireData(settingsReply, SettingsNotFoundMessage);
    UnlockDek(pin, settings)
  }

  /**
   * `changePIN` and `recoverWithKey` up to their upload: the settings reply,
   * then the DEK wrapped for the new PIN and salt under the current server key.
   */
  function RewrapOutcome(dek: WebCrypto.CryptoKey, newPin: string, newSalt: Bytes, iv: Bytes,
                         settingsReply: ApiResult<EncryptionSettings>, fallback: string): (r: Result<string>)
    requires |iv| == Crypto.IvLength
    ensures r.Ok? <==> (settingsReply.error.None? && settingsReply.data.Some?
                        && Base64.Decode(settingsReply.data.value.serverKey).Some? && dek.extractable)
    ensures settingsReply.error.Some? ==> r == Throw(JsError(settingsReply.error.value.message))
    ensures settingsReply.error.None? && settingsReply.data.None? ==> r == Throw(JsError(fallback))
  {
    var settings :- RequireData(settingsReply, fallback);
    WrapDekFor(dek, newPin, newSalt, settings.serverKey, iv)
  }

  /** What a PIN change or a recovery uploads unlocks with the new PIN to the same key bytes. */
  lemma UnlockAfterRewrap(dek: WebCrypto.CryptoKey, newPin: string, newSalt: Bytes, iv: Bytes,
                          settingsReply: ApiResult<EncryptionSettings>, fallback: string)
    requires |iv| == Crypto.IvLength && IsDek(dek)
    requires RewrapOutcome(dek, newPin, newSalt, iv, settingsReply, fallback).Ok?
    ensures UnlockDek(newPin, EncryptionSettings(Base64.Encode(newSalt), RewrapOutcome(dek, newPin, newSalt, iv, settingsReply, fallback).value,
                                                 settingsReply.data.value.serverKey))
         == Ok(WebCrypto.CryptoKey(WebCrypto.AesGcm, dek.material, false, Dek.DekUsages))
  {
    UnlockWrapped(dek, newPin, newSalt, settingsReply.data.value.serverKey, iv);
  }

  // ---------------------------------------------------------------------
  // The store

  /** The store's state; `set` merges the fields it is given into it. */
  datatype EncryptionState = EncryptionState(isUnlocked: bool, dek: Option<WebCrypto.CryptoKey>,
                                             isRestoring: bool, pendingRecoveryKey: Option<string>)
  {
    /** Unlocked exactly when a DEK is held, and a held DEK is an AES-256-GCM content key. */
    predicate Valid()
    {
      (isUnlocked <==> dek.Some?) && (dek.Some? ==> IsDek(dek.value))
    }
  }

  /** The state a page load starts from, and the one `lock` returns to. */
  const InitialState := EncryptionState(false, None, false, None)

  class Store {
    var state: EncryptionState
    /** The browser storage the DEK cache lives in. */
    const storage: DekCache.BrowserStorage
    /** Which copy of the store this is. */
    const variant: Variant

    constructor(storage: DekCache.BrowserStorage, variant: Variant)
      ensures state == InitialState && state.Valid()
      ensures this.storage == storage && this.variant == variant
    {
      state := InitialState;
      this.storage := storage;
      this.variant := variant;
    }

    /**
     * `setupEncryption(pin)`: posts the salt, the recovery-wrapped DEK and
     * the recovery key hash; wraps the DEK under the combined KEK built with
     * the server key from the reply and puts it back; then unlocks, keeps
     * the formatted recovery key to show, and caches the DEK.
     */
    method SetupEncryption(pin: string, rnd: SetupRandomness, setupReply: ApiResult<SetupResponse>,
                           updateReply: ApiResult<UpdateEncryptionResponse>, faults: StorageFaults)
      returns (r: Result<string>, sent: seq<Request>)
      requires rnd.WellSized()
      modifies this, storage
      ensures old(state.Valid()) ==> state.Valid()
      ensures var wrapped := SetupWrap(pin, rnd, setupReply); var request := SetupRequest(rnd);
              && (wrapped.Throw? ==> r == Throw(wrapped.error) && sent == [request])
              && (wrapped.Ok? ==> sent == [request, UpdateEncryption(request.salt, wrapped.value, KeepServerKey(variant))])
              && (wrapped.Ok? && updateReply.error.Some? ==> r == Throw(JsError(updateReply.error.value.message)))
              && (r.Ok? <==> wrapped.Ok? && updateReply.error.None?)
      ensures r.Ok? ==> r.value == RecoveryKey.Format(rnd.recoveryKey)
      ensures r.Ok? ==> state == old(state).(isUnlocked := true, dek := Some(Dek.GenerateDek(rnd.dek)), pendingRecoveryKey := Some(r.value))
      ensures r.Throw? ==> state == old(state) && storage.session == old(storage.session) && storage.idb == old(storage.idb)
    {
      var newDek := Dek.GenerateDek(rnd.dek);
      var request := SetupRequest(rnd);
      sent := [request];
      var encryptedDek := SetupWrap(pin, rnd, setupReply);
      if encryptedDek.Throw? {
        return Throw(encryptedDek.error), sent;
      }
      sent := [request, UpdateEncryption(request.salt, encryptedDek.value, KeepServerKey(variant))];
      var updated := RequireNoError(updateReply);
      if updated.Throw? {
        return Throw(updated.error), sent;
      }
      var formatted := RecoveryKey.Format(rnd.recoveryKey);
      var before := state;
      DekCache.CacheDek(storage, newDek, rnd.cache.wrapKey, rnd.cache.iv, faults.idbFails, faults.sessionFails);
      state := before.(isUnlocked := true, dek := Some(newDek), pendingRecoveryKey := Some(formatted));
      r := Ok(formatted);
    }

    /**
     * `unlockWithPIN(pin)`: fetches the settings, unwraps the DEK under the
     * combined KEK and unlocks. The DEK it holds is non-extractable, so the
     * `cacheDEK` that follows caches nothing.
     */
    method UnlockWithPin(pin: string, settingsReply: ApiResult<EncryptionSettings>, cache: CacheRandomness, faults: StorageFaults)
      returns (r: Result<()>, sent: seq<Request>)
      requires cache.WellSized()
      modifies this, storage
      ensures old(state.Valid()) ==> state.Valid()
      ensures sent == [GetSettings]
      ensures r.Ok? <==> UnlockOutcome(pin, settingsReply).Ok?
      ensures r.Throw? ==> r.error == UnlockOutcome(pin, settingsReply).error && state == old(state)
      ensures r.Ok? ==> state == old(state).(isUnlocked := true, dek := Some(UnlockOutcome(pin, settingsReply).value))
      ensures storage.session == old(storage.session) && storage.idb == old(storage.idb)
    {
      sent := [GetSettings];
      var unlocked := UnlockOutcome(pin, settingsReply);
      if unlocked.Throw? {
        return Throw(unlocked.error), sent;
      }
      var before := state;
      DekCache.CacheDek(storage, unlocked.value, cache.wrapKey, cache.iv, faults.idbFails, faults.sessionFails);
      state := before.(isUnlocked := true, dek := Some(unlocked.value));
      r := Ok(());
    }

    /**
     * `restoreFromCache()`: true at once when already unlocked; otherwise
     * true exactly when the cache gives back a DEK, which is then held.
     * `isRestoring` is false again on every exit.
     */
    method RestoreFromCache(idbFails: bool) returns (restored: bool)
      modifies this
      ensures old(state.Valid()) ==> state.Valid()
      ensures old(state.isUnlocked) ==> restored && state == old(state)
      ensures !old(state.isUnlocked) ==>
                restored == DekCache.LoadCachedDek(storage.session, storage.idb, idbFails).Some?
      ensures !old(state.isUnlocked) && restored ==>
                state == old(state).(isUnlocked := true, dek := DekCache.LoadCachedDek(storage.session, storage.idb, idbFails),
                                     isRestoring := false)
      ensures !old(state.isUnlocked) && !restored ==> state == old(state).(isRestoring := false)
    {
      if state.isUnlocked {
        return true;
      }
      state := state.(isRestoring := true);
      var cached := DekCache.LoadCachedDek(storage.session, storage.idb, idbFails);
      if cached.Some? {
        state := state.(isUnlocked := true, dek := cached, isRestoring := false);
        return true;
      }
      state := state.(isRestoring := false);
      return false;
    }

    /** `hasCachedSession()`: whether the session half of the cache is there. */
    function HasCachedSession(): (r: bool)
      reads storage
      ensures r <==> DekCache.SessionKey in storage.session
    {
      DekCache.HasCachedDek(storage.session)
    }

    /**
     * `changePIN(newPIN)`: re-wraps the held DEK under the combined KEK of
     * the new PIN, a new salt and the current server key, and uploads it.
     * The store itself is not changed.
     */
    method ChangePin(newPin: string, newSalt: Bytes, iv: Bytes,
                     settingsReply: ApiResult<EncryptionSettings>, updateReply: ApiResult<UpdateEncryptionResponse>)
      returns (r: Result<()>, sent: seq<Request>)
      requires |newSalt| == Crypto.SaltLength && |iv| == Crypto.IvLength
      ensures state.dek.None? ==> r == Throw(JsError(NotUnlockedMessage)) && sent == []
      ensures state.dek.Some? && RewrapOutcome(state.dek.value, newPin, newSalt, iv, settingsReply, CurrentSettingsFailedMessage).Throw? ==>
                r == Throw(RewrapOutcome(state.dek.value, newPin, newSalt, iv, settingsReply, CurrentSettingsFailedMessage).error)
                && sent == [GetSettings]
      ensures state.dek.Some? && RewrapOutcome(state.dek.value, newPin, newSalt, iv, settingsReply, CurrentSettingsFailedMessage).Ok? ==>
                sent == [GetSettings, UpdateEncryption(Base64.Encode(newSalt),
                           RewrapOutcome(state.dek.value, newPin, newSalt, iv, settingsReply, CurrentSettingsFailedMessage).value, KeepServerKey(variant))]
      ensures r.Ok? <==> (state.dek.Some? && RewrapOutcome(state.dek.value, newPin, newSalt, iv, settingsReply, CurrentSettingsFailedMessage).Ok?
                          && updateReply.error.None?)
    {
      if state.dek.None? {
        return Throw(JsError(NotUnlockedMessage)), [];
      }
      sent := [GetSettings];
      var encryptedDek := RewrapOutcome(state.dek.value, newPin, newSalt, iv, settingsReply, CurrentSettingsFailedMessage);
      if encryptedDek.Throw? {
        return Throw(encryptedDek.error), sent;
      }
      sent := [GetSettings, UpdateEncryption(Base64.Encode(newSalt), encryptedDek.value, KeepServerKey(variant))];
      var updated := RequireNoError(updateReply);
      if updated.Throw? {
        return Throw(updated.error), sent;
      }
      r := Ok(());
    }

    /**
     * `recoverWithKey(recoveryKey, newPIN)`: unwraps the DEK with the
     * recovery key, re-wraps it for the new PIN under the current server
     * key, uploads it, caches the DEK and unlocks. No DEK needs to be held.
     * The legacy copy rejects at once.
     */
    method RecoverWithKey(recoveryKey: string, newPin: string, recoveryReply: ApiResult<RecoverySettings>,
                          settingsReply: ApiResult<EncryptionSettings>, newSalt: Bytes, iv: Bytes,
                          updateReply: ApiResult<UpdateEncryptionResponse>, cache: CacheRandomness, faults: StorageFaults)
      returns (r: Result<()>, sent: seq<Request>)
      requires |newSalt| == Crypto.SaltLength && |iv| == Crypto.IvLength && cache.WellSized()
      modifies this, storage
      ensures old(state.Valid()) ==> state.Valid()
      ensures variant == Legacy ==> r == Throw(JsError(NotImplementedMessage)) && sent == []
      ensures variant == Shared && RecoverDek(recoveryKey, recoveryReply).Throw? ==>
                r == Throw(RecoverDek(recoveryKey, recoveryReply).error) && sent == [GetRecoverySettings]
      ensures variant == Shared && RecoverDek(recoveryKey, recoveryReply).Ok? ==>
                (var rewrap := RewrapOutcome(RecoverDek(recoveryKey, recoveryReply).value, newPin, newSalt, iv, settingsReply,
                                             SettingsLookupFailedMessage);
                 (rewrap.Throw? ==> r == Throw(rewrap.error) && sent == [GetRecoverySettings, GetSettings])
                 && (rewrap.Ok? ==> sent == [GetRecoverySettings, GetSettings,
                                             UpdateEncryption(Base64.Encode(newSalt), rewrap.value, Some(false))])
                 && (r.Ok? <==> rewrap.Ok? && updateReply.error.None?))
      ensures r.Ok? ==> state == old(state).(isUnlocked := true, dek := Some(RecoverDek(recoveryKey, recoveryReply).value))
      ensures r.Throw? ==> state == old(state) && storage.session == old(storage.session) && storage.idb == old(storage.idb)
    {
      if variant == Legacy {
        return Throw(JsError(NotImplementedMessage)), [];
      }
      sent := [GetRecoverySettings];
      var recovered := RecoverDek(recoveryKey, recoveryReply);
      if recovered.Throw? {
        return Throw(recovered.error), sent;
      }
      sent := [GetRecoverySettings, GetSettings];
      var encryptedDek := RewrapOutcome(recovered.value, newPin, newSalt, iv, settingsReply, SettingsLookupFailedMessage);
      if encryptedDek.Throw? {
        return Throw(encryptedDek.error), sent;
      }
      sent := [GetRecoverySettings, GetSettings, UpdateEncryption(Base64.Encode(newSalt), encryptedDek.value, Some(false))];
      var updated := RequireNoError(updateReply);
      if updated.Throw? {
        return Throw(updated.error), sent;
      }
      var before := state;
      DekCache.CacheDek(storage, recovered.value, cache.wrapKey, cache.iv, faults.idbFails, faults.sessionFails);
      state := before.(isUnlocked := true, dek := Some(recovered.value));
      r := Ok(());
    }

    /**
     * `regenerateRecoveryKey()`: wraps the held DEK under a new recovery
     * key, uploads it with the new key's hash, and returns the new key
     * formatted. The store itself is not changed.
     */
    method RegenerateRecoveryKey(newRecoveryKey: Bytes, iv: Bytes, updateReply: ApiResult<UpdateRecoveryKeyResponse>)
      returns (r: Result<string>, sent: seq<Request>)
      requires |newRecoveryKey| == RecoveryKey.RecoveryKeyLength && |iv| == Crypto.IvLength
      requires state.Valid()
      ensures state.dek.None? ==> r == Throw(JsError(NotUnlockedMessage)) && sent == []
      ensures state.dek.Some? && !state.dek.value.extractable ==> r == Throw(DomException(InvalidAccessError)) && sent == []
      ensures r.Ok? <==> state.dek.Some? && state.dek.value.extractable && updateReply.error.None?
      ensures state.dek.Some? && state.dek.value.extractable ==>
                (|sent| == 1 && sent[0].UpdateRecoveryKey?
                 && RecoveryKey.DecryptDekWithRecoveryKey(sent[0].recoveryEncryptedDek,
                                                          RecoveryKey.KeyString(RecoveryKey.Format(newRecoveryKey)))
                    == Ok(WebCrypto.CryptoKey(WebCrypto.AesGcm, state.dek.value.material, true, Dek.DekUsages))
                 && RecoveryKey.VerifyRecoveryKey(RecoveryKey.KeyBytes(newRecoveryKey), sent[0].recoveryKeyHash) == Ok(true))
      ensures r.Ok? ==> r.value == RecoveryKey.Format(newRecoveryKey)
    {
      if state.dek.None? {
        return Throw(JsError(NotUnlockedMessage)), [];
      }
      var current := state.dek.value;
      var recoveryEncryptedDek := RecoveryKey.EncryptDekWithRecoveryKey(current, newRecoveryKey, iv);
      if recoveryEncryptedDek.Throw? {
        return Throw(recoveryEncryptedDek.error), [];
      }
      RecoveryKey.RecoverWithDisplayedKey(current, newRecoveryKey, iv);
      var recoveryKeyHash := RecoveryKey.HashRecoveryKey(RecoveryKey.KeyBytes(newRecoveryKey)).value;
      sent := [UpdateRecoveryKey(recoveryEncryptedDek.value, recoveryKeyHash)];
      var updated := RequireNoError(updateReply);
      if updated.Throw? {
        return Throw(updated.error), sent;
      }
      r := Ok(RecoveryKey.Format(newRecoveryKey));
    }

    /**
     * `lock()`: back to the initial state, and the DEK cache cleared without
     * waiting; the session half goes at once, so nothing can be restored.
     */
    method Lock(idbFails: bool)
      modifies this, storage
      ensures state == InitialState && state.Valid()
      ensures !HasCachedSession()
      ensures DekCache.LoadCachedDek(storage.session, storage.idb, false) == None
      ensures storage.session == old(storage.session) - {DekCache.SessionKey}
      ensures storage.idb == if idbFails then old(storage.idb) else old(storage.idb) - {DekCache.CacheKey}
    {
      state := InitialState;
      DekCache.ClearDekCache(storage, idbFails);
      DekCache.ClearedCacheLoadsNothing(old(storage.session), storage.idb, false);
    }

    /** `clearPendingRecoveryKey()`: forgets the recovery key once it has been shown. */
    method ClearPendingRecoveryKey()
      modifies this
      ensures state == old(state).(pendingRecoveryKey := None)
      ensures old(state.Valid()) ==> state.Valid()
    {
      state := state.(pendingRecoveryKey := None);
    }
  }
}
