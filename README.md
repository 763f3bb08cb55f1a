# Selah web client: key custody and page logic, in Dafny

Selah is a prayer journal. Prayers are encrypted in the browser before they
are sent to the server. A random data encryption key (DEK) encrypts the
content with AES-256-GCM. The DEK is stored on the server wrapped twice:

- once under a Combined KEK, which HKDF-SHA-256 derives from a PIN-derived
  Client KEK (PBKDF2-HMAC-SHA-256, 100 000 iterations) and a server key;
- once under a 32-byte recovery key, which is shown to the user once as 64
  upper-case hex digits in groups of four.

Between page loads in one tab, the unwrapped DEK is kept in a DEK cache: a
blob in IndexedDB, plus a random wrap key in `sessionStorage`.

This project models that key custody:

- the byte framing (`IV(12) ‖ ciphertext`, Base64 per RFC 4648 section 4);
- the DEK, key-derivation and recovery-key functions;
- the DEK cache;
- both copies of the encryption store (the shared one and the older one
  under the encryption feature);
- the `useCrypto` facade.

It also models the page logic around the keys and the session:

- the six-box PIN input and the two PIN forms;
- the recovery-key input;
- the member form rules and the password strength meter;
- the terms agreement;
- the two session stores and the session gate (`AuthProvider`);
- the prayer and prayer-topic helpers, the topic selector and the related
  prayers section;
- the `isActive` rule of the bottom navigation and the sidebar.

Code that updates state step by step is modelled as Dafny classes with
`modifies` clauses, or as methods with loops:

- the stores, the forms, the PIN input and the cache;
- the byte loops of `crypto.ts` and `recoveryKey.ts`;
- the grouping loops of `prayer.utils.ts`.

Each method is proved against a specification function. The partner
properties are proved as lemmas: round trips, wrong-key rejection,
idempotence, invariants the actions keep, and "nothing else changes".

Server replies, random bytes, storage failures, the clock and the time zone
are parameters. Each store action returns the requests it sent, in order.

AES-GCM is replaced by a symbolic seal. `Seal(k, iv, p)` carries a
self-delimiting encoding of the key and IV in front of `p`. Opening succeeds
exactly under the same key and IV. This gives the exact round trip and the
exact wrong-key failure the code relies on; it says nothing about secrecy.
SHA-256, HMAC, PBKDF2 and HKDF are written out after FIPS 180-4, RFC 2104,
RFC 8018 and RFC 5869; the proofs use only their lengths and determinism.

A DEK unlocked by PIN is non-extractable. `decryptDEK` unwraps it with
`extractable: false` (src/shared/lib/crypto/dek.ts:67), and every later
re-wrap needs an extractable key. So after `unlockWithPIN`:

- `changePIN` rejects with `InvalidAccessError`;
- `regenerateRecoveryKey` rejects with `InvalidAccessError`;
- `cacheDEK` logs the failure and caches nothing.

After `setupEncryption` or `recoverWithKey` the DEK is extractable, and
all three work. `EncryptionStore.UnlockedDekCannotBeRewrapped` proves this.
The store contracts state both cases. There is no row for it under
"Findings", because the code does not show whether the fix is an
extractable unwrap or a change to the re-wrap paths.

## Model

| member | source | states |
|---|---|---|
| Base64.Btoa | src/shared/lib/crypto/crypto.ts:70-76 | `btoa` succeeds exactly on a binary string (every char code below 256) and returns the RFC 4648 encoding of its char codes |
| Base64.Atob | src/shared/lib/crypto/crypto.ts:81-88 | `atob` succeeds exactly when the text decodes, after skipping ASCII whitespace and at most two padding `=`; its char codes are the decoded bytes |
| Base64.CharCodesOfBinaryString | src/shared/lib/crypto/crypto.ts:71-74 | one char per byte on the way in, one byte per char on the way back: the binary string of `b` reads back as `b` |
| Base64.DecodeEncode | src/shared/lib/crypto/crypto.ts:70-88 | decoding the encoding of any byte sequence gives it back |
| Base64.EncodeLength | src/shared/lib/crypto/crypto.ts:70-76 | the encoding of n bytes has 4·⌈n/3⌉ characters |
| WebCrypto.OpenSeal | src/shared/lib/crypto/crypto.ts:18-56 | what is sealed under a key and IV opens under the same key and IV to the same plaintext |
| WebCrypto.OpenOnlyWithSameKey | src/shared/lib/crypto/crypto.ts:44-56 | a sealed message opens only under the key and IV it was sealed with |
| WebCrypto.ImportRawKey | src/shared/lib/crypto/dek.ts:90-105 | `importKey("raw")` keeps the bytes, extractability and usages; AES-GCM needs 16, 24 or 32 bytes and AES usages; PBKDF2 and HKDF base keys need non-extractable `deriveKey` |
| WebCrypto.ExportRawKey | src/shared/lib/crypto/dek.ts:78-81 | `exportKey("raw")` gives the key's bytes exactly when the key is extractable, and `InvalidAccessError` otherwise |
| WebCrypto.GenerateAesKey | src/shared/lib/crypto/dek.ts:18-24 | a generated AES key has 32 bytes and the requested extractability and usages |
| WebCrypto.EncryptAesGcm | src/shared/lib/crypto/crypto.ts:18-34 | encryption succeeds exactly when the key allows `encrypt`, and its output opens under the same key and IV |
| WebCrypto.DecryptAesGcm | src/shared/lib/crypto/crypto.ts:44-56 | decryption succeeds exactly when the key allows `decrypt` and the data opens under it, giving the sealed plaintext; a key that may decrypt but does not open the data fails with `OperationError` |
| WebCrypto.WrapRawKey | src/shared/lib/crypto/dek.ts:33-47 | `wrapKey` needs a `wrapKey` wrapping key and an extractable key (else `InvalidAccessError`); the result opens to the key's bytes |
| WebCrypto.UnwrapRawKey | src/shared/lib/crypto/dek.ts:56-70 | `unwrapKey` succeeds exactly when the key allows `unwrapKey`, the data opens and the bytes import; the new key has the requested extractability and usages |
| WebCrypto.UnwrapWrapped | src/shared/lib/crypto/dek.ts:33-70 | unwrapping a wrapped key under the same key and IV gives back its bytes, with the extractability asked for at unwrap time |
| WebCrypto.UnwrapWithOtherKeyFails | src/shared/lib/crypto/dek.ts:56-70 | unwrapping under another key or IV fails with `OperationError` |
| WebCrypto.DeriveKeyPbkdf2 | src/shared/lib/crypto/keyDerivation.ts:37-65 | PBKDF2 `deriveKey` needs a PBKDF2 base key with `deriveKey`; it yields a 32-byte AES-GCM key with the requested extractability and usages |
| WebCrypto.DeriveKeyHkdf | src/shared/lib/crypto/hkdf.ts:38-59 | HKDF `deriveKey` needs an HKDF base key with `deriveKey`; it yields a 32-byte AES-GCM key with the requested extractability and usages |
| WebCrypto.Digest | src/shared/lib/crypto/recoveryKey.ts:41-46 | `digest("SHA-256")` is 32 bytes |
| Sha256.Digest | src/shared/lib/crypto/recoveryKey.ts:41-46 | the SHA-256 of FIPS 180-4 gives 32 bytes for every message |
| Kdf.Pbkdf2 | src/shared/lib/crypto/keyDerivation.ts:52-64 | PBKDF2-HMAC-SHA-256 of RFC 8018 section 5.2 gives exactly the requested number of bytes |
| Kdf.Hkdf | src/shared/lib/crypto/hkdf.ts:47-59 | HKDF-SHA-256 of RFC 5869 section 2 gives exactly the requested number of bytes |
| Utf8.Encode | src/shared/lib/crypto/keyDerivation.ts:41-46 | `TextEncoder.encode` gives at least one byte per character |
| Utf8.EncodeAscii | src/shared/lib/crypto/keyDerivation.ts:41-46 | an ASCII string, such as a PIN, encodes to its char codes one for one |
| Crypto.SplitIv | src/shared/lib/crypto/crypto.ts:46-47 | `slice(0, 12)` and `slice(12)` cut the buffer into two parts that concatenate back to it; the IV part is 12 bytes, or all of a shorter buffer |
| Crypto.SplitFramed | src/shared/lib/crypto/crypto.ts:44-56 | splitting `iv ‖ body` with a 12-byte IV gives back `iv` and `body` |
| Crypto.Encrypt | src/shared/lib/crypto/crypto.ts:18-34 | `encrypt` succeeds exactly when the key allows `encrypt`; the text is Base64 of the 12-byte IV followed by a body that opens under the key and that IV to the plaintext |
| Crypto.Decrypt | src/shared/lib/crypto/crypto.ts:44-56 | text that is not Base64 rejects with `InvalidCharacterError`; for 12 or more decoded bytes, succeeds exactly when the key allows `decrypt` and the bytes after the 12th open under the key with the first 12 as IV, giving the opened bytes; fewer than 12 bytes reject with `OperationError` |
| Crypto.DecryptEncrypt | src/shared/lib/crypto/crypto.ts:18-56 | `decrypt(encrypt(p, k), k) == p` for every plaintext and IV |
| Crypto.DecryptWithOtherKeyFails | src/shared/lib/crypto/crypto.ts:44-56 | decrypting under a key with other bytes rejects with `OperationError` |
| Crypto.Uint8ArrayToBase64 | src/shared/lib/crypto/crypto.ts:70-76 | the char-by-char loop and `btoa` produce the RFC 4648 encoding of the array |
| Crypto.Base64ToUint8Array | src/shared/lib/crypto/crypto.ts:81-88 | the byte loop returns the decoded bytes exactly when the text decodes, and `InvalidCharacterError` otherwise |
| Crypto.CompareUint8Arrays | src/shared/lib/crypto/crypto.ts:93-99 | the early-exit loop returns true exactly when both arrays hold the same bytes |
| Dek.GenerateDek | src/shared/lib/crypto/dek.ts:18-24 | the DEK is a 256-bit AES-GCM key, extractable, with encrypt and decrypt usages |
| Dek.EncryptDek | src/shared/lib/crypto/dek.ts:33-47 | wrapping succeeds exactly when the DEK is extractable and the KEK allows `wrapKey`, and otherwise fails with `InvalidAccessError`; the text is Base64 of the IV followed by a body that opens under the KEK to the DEK's bytes |
| Dek.DecryptDek | src/shared/lib/crypto/dek.ts:56-70 | the unwrapped DEK is non-extractable AES-GCM with encrypt and decrypt usages and a 128-, 192- or 256-bit key; text that is not Base64 rejects with `InvalidCharacterError`; for 12 or more decoded bytes, succeeds exactly when the KEK allows `unwrapKey` and the bytes after the 12th open under it (first 12 as IV) to an AES-length key, which is the DEK's bytes; fewer bytes reject with `OperationError` |
| Dek.UnwrapDek | src/shared/lib/crypto/dek.ts:56-70 | the same unwrap and the same split at byte 12, with the extractability as a parameter |
| Dek.UnwrapDekRoundTrip | src/shared/lib/crypto/dek.ts:33-70 | unwrapping a wrapped DEK under the same KEK gives a key with the same bytes |
| Dek.DecryptEncryptDek | src/shared/lib/crypto/dek.ts:33-70 | `decryptDEK(encryptDEK(d, K), K)` has the bytes of `d` and is non-extractable |
| Dek.DecryptDekWithOtherKekFails | src/shared/lib/crypto/dek.ts:56-70 | a KEK with other bytes makes the unwrap reject with `OperationError` |
| Dek.ExportDek | src/shared/lib/crypto/dek.ts:78-81 | export gives the DEK's bytes exactly when it is extractable |
| Dek.ImportDek | src/shared/lib/crypto/dek.ts:90-105 | import keeps the given bytes, is non-extractable by default, has encrypt and decrypt usages, and needs an AES key length |
| Dek.ImportExportDek | src/shared/lib/crypto/dek.ts:78-105 | importing an exported DEK gives a key with the same bytes |
| CombinedKek.InputKeyMaterial | src/shared/lib/crypto/hkdf.ts:32-36 | the input key material is the Client KEK bytes followed by the server key bytes; its length is the sum |
| CombinedKek.DeriveCombinedKek | src/shared/lib/crypto/hkdf.ts:16-60 | succeeds exactly when the Client KEK is extractable and the server key is Base64; the result is the HKDF of the joined bytes under the salt and "selah-combined-kek", non-extractable, wrap and unwrap only |
| CombinedKek.InfoIsUtf8 | src/shared/lib/crypto/hkdf.ts:53 | the HKDF info bytes are the UTF-8 encoding of "selah-combined-kek" |
| CombinedKek.CombinedKekIsWrapOnly | src/shared/lib/crypto/hkdf.ts:55-58 | the Combined KEK can wrap and unwrap, and its bytes cannot be exported |
| KeyDerivation.DeriveKek | src/shared/lib/crypto/keyDerivation.ts:37-65 | PBKDF2 of the password bytes, non-extractable, wrap and unwrap usages |
| KeyDerivation.DeriveClientKek | src/shared/lib/crypto/keyDerivation.ts:76-104 | PBKDF2 of the PIN bytes, extractable, encrypt and decrypt usages |
| KeyDerivation.DeriveKey | src/shared/lib/crypto/keyDerivation.ts:114-142 | PBKDF2 of the password bytes, non-extractable, encrypt and decrypt usages |
| KeyDerivation.DeriveKeyFromBase64Salt | src/shared/lib/crypto/keyDerivation.ts:151-157 | succeeds exactly when the salt text decodes, and otherwise rejects with `InvalidCharacterError` |
| KeyDerivation.DeriveKeyFromEncodedSalt | src/shared/lib/crypto/keyDerivation.ts:151-157 | `deriveKeyFromBase64Salt(p, encode(s)) == deriveKey(p, s)` |
| KeyDerivation.Base64ToUint8Array | src/shared/lib/crypto/keyDerivation.ts:162-169 | the byte loop returns the decoded bytes exactly when the text decodes |
| RecoveryKey.GenerateRecoveryKeyBase64 | src/shared/lib/crypto/recoveryKey.ts:28-31 | the Base64 form of 32 random bytes has 44 characters and decodes back to them |
| RecoveryKey.HashRecoveryKey | src/shared/lib/crypto/recoveryKey.ts:41-46 | bytes always hash; a string is read as Base64 and hashes exactly when it decodes |
| RecoveryKey.VerifyRecoveryKey | src/shared/lib/crypto/recoveryKey.ts:57-63 | true exactly when the key's hash equals the stored hash |
| RecoveryKey.VerifyOwnHash | src/shared/lib/crypto/recoveryKey.ts:41-63 | a key verifies against its own hash |
| RecoveryKey.HashOfBase64FormIsHashOfBytes | src/shared/lib/crypto/recoveryKey.ts:28-46 | the Base64 form of a key hashes to the same value as its bytes |
| RecoveryKey.HashOfFormattedKeyThrows | src/shared/lib/crypto/recoveryKey.ts:41-46 | the hyphenated display form is not Base64, so hashing it rejects with `InvalidCharacterError` |
| RecoveryKey.Hex | src/shared/lib/crypto/recoveryKey.ts:75-78 | two characters per byte, none of them a hyphen |
| RecoveryKey.HexIsUpper | src/shared/lib/crypto/recoveryKey.ts:75-78 | every hex digit is `0-9` or `A-F` |
| RecoveryKey.FormatRecoveryKey | src/shared/lib/crypto/recoveryKey.ts:74-85 | the group loop over the array produces the grouped upper-case hex of its bytes |
| RecoveryKey.FormatLayout | src/shared/lib/crypto/recoveryKey.ts:74-85 | a 32-byte key shows as 79 characters, with a hyphen exactly at every fifth position and upper-case hex elsewhere |
| RecoveryKey.Parse | src/shared/lib/crypto/recoveryKey.ts:93-102 | one byte per pair of characters that remain once the hyphens are removed |
| RecoveryKey.ParseFormattedRecoveryKey | src/shared/lib/crypto/recoveryKey.ts:93-102 | the byte loop computes the parse of the text |
| RecoveryKey.ParseByteHex | src/shared/lib/crypto/recoveryKey.ts:96-100 | `parseInt(…, 16)` reads back every byte's two hex digits |
| RecoveryKey.ParseFormat | src/shared/lib/crypto/recoveryKey.ts:74-102 | parsing the formatted key gives back the key, for every byte sequence |
| RecoveryKey.ParseDropsOddDigit | src/shared/lib/crypto/recoveryKey.ts:94-101 | a trailing odd digit is dropped |
| RecoveryKey.EncryptDekWithRecoveryKey | src/shared/lib/crypto/recoveryKey.ts:111-137 | wrapping succeeds exactly when the recovery key has an AES length and the DEK is extractable; the text is Base64 of the IV followed by a body that opens under the recovery key to the DEK's bytes |
| RecoveryKey.DecryptDekWithRecoveryKey | src/shared/lib/crypto/recoveryKey.ts:146-176 | the recovered DEK is extractable with encrypt and decrypt usages; a key of the wrong length rejects with `DataError`, then non-Base64 text with `InvalidCharacterError`; for 12 or more decoded bytes, succeeds exactly when the bytes after the 12th open under the key's bytes (first 12 as IV) to an AES-length key, which it returns; fewer bytes reject with `OperationError` |
| RecoveryKey.RecoverWithDisplayedKey | src/shared/lib/crypto/recoveryKey.ts:111-176 | the displayed (hyphenated) key unwraps what the key's bytes wrapped, and gives the DEK's bytes, extractable |
| RecoveryKey.RecoverWithKeyBytes | src/shared/lib/crypto/recoveryKey.ts:111-176 | the key given as its raw bytes unwraps what those bytes wrapped, and gives the DEK's bytes, extractable |
| RecoveryKey.RecoverWithOtherKeyFails | src/shared/lib/crypto/recoveryKey.ts:146-176 | another key of AES length makes the unwrap reject with `OperationError` |
| EncryptionApi.RequireData | src/shared/stores/encryptionStore.ts:155-158 | `if (error \|\| !data) throw`: the data comes through exactly when there is no error and there is data; the error message, or else the fallback, is thrown |
| EncryptionApi.RequireNoError | src/shared/stores/encryptionStore.ts:141-143 | only an error reply throws, with its message |
| DekCache.Blob | src/shared/lib/dekCache.ts:93-95 | the stored blob splits at byte 12 into the IV and the DEK sealed under the wrap key |
| DekCache.CacheDek | src/shared/lib/dekCache.ts:80-112 | a non-extractable DEK or a failed IndexedDB write changes nothing; the session half is written only after the durable half; with both writes done, loading returns the DEK's bytes |
| DekCache.LoadWrapKeyFromSession | src/shared/lib/dekCache.ts:59-75 | no entry, or an empty one, gives none; otherwise a key exactly when the entry decodes to an AES key length, made of those bytes |
| DekCache.LoadCachedDekAsWritten | src/shared/lib/dekCache.ts:117-153 | as written, the load can reject only when the wrap key, the IndexedDB and the entry are all there, because the unwrap rejection escapes the `try` |
| DekCache.LoadCachedDek | src/shared/lib/dekCache.ts:117-153 | never rejects; a hit needs the session half and the durable entry, and gives a non-extractable AES-GCM DEK with encrypt and decrypt usages |
| DekCache.ClearDekCache | src/shared/lib/dekCache.ts:158-176 | removes the session half, then the durable entry unless IndexedDB fails |
| DekCache.LoadEncodedWrapKey | src/shared/lib/dekCache.ts:59-108 | the wrap key stored by `cacheDEK` reads back as the same bytes |
| DekCache.LoadAfterCache | src/shared/lib/dekCache.ts:80-153 | after a successful cache, the load returns a key with the cached DEK's bytes |
| DekCache.LoadForeignBlobRejects | src/shared/lib/dekCache.ts:141-149 | a blob sealed under another tab's wrap key makes the as-written load reject with `OperationError`; the corrected load returns none |
| DekCache.ClearedCacheLoadsNothing | src/shared/lib/dekCache.ts:158-183 | after a clear, `hasCachedDEK` is false and the load returns none, even if the IndexedDB delete failed |
| EncryptionStore.KeepServerKey | src/shared/stores/encryptionStore.ts:135-139 | the updates never ask for a server key rotation; the older store sends no flag at all |
| EncryptionStore.CombinedKekFor | src/shared/stores/encryptionStore.ts:161-169 | the PIN-and-server-key KEK exists exactly when the server key is Base64, and it can wrap and unwrap |
| EncryptionStore.UnlockDek | src/shared/stores/encryptionStore.ts:160-172 | an unlocked DEK is a non-extractable AES-256-GCM content key; a salt that is not Base64 rejects with `InvalidCharacterError` |
| EncryptionStore.WrapDekFor | src/shared/stores/encryptionStore.ts:219-227 | the re-wrap succeeds exactly when the server key is Base64 and the DEK is extractable |
| EncryptionStore.UnlockWrapped | src/shared/stores/encryptionStore.ts:154-177 | a DEK wrapped for a PIN, salt and server key unlocks with the same PIN, as a non-extractable key with its bytes |
| EncryptionStore.UnlockWithOtherPinFails | src/shared/stores/encryptionStore.ts:154-177 | a PIN whose Combined KEK differs makes the unlock reject with `OperationError` |
| EncryptionStore.UnlockedDekCannotBeRewrapped | src/shared/stores/encryptionStore.ts:172-176 | a PIN-unlocked DEK cannot be re-wrapped for a new PIN (`InvalidAccessError`) nor for a new recovery key |
| EncryptionStore.SetupRequest | src/shared/stores/encryptionStore.ts:113-118 | the first setup request carries the Base64 salt and no wrapped DEK |
| EncryptionStore.SetupRequestRecoverable | src/shared/stores/encryptionStore.ts:104-118 | the recovery-wrapped DEK in the setup request unwraps with the displayed recovery key, and the key verifies against the hash sent |
| EncryptionStore.RecoverDek | src/shared/stores/encryptionStore.ts:241-259 | the recovered DEK is extractable; an error reply, a missing reply and a failed unwrap each reject with their own message |
| EncryptionStore.RecoverAfterSetup | src/shared/stores/encryptionStore.ts:95-152 | recovering with the recovery key that setup returned gives back the set-up DEK |
| EncryptionStore.SetupWrap | src/shared/stores/encryptionStore.ts:113-132 | the setup wrap succeeds exactly when the reply has data and no error and its server key is Base64; an error reply and a missing reply reject with their messages |
| EncryptionStore.UnlockAfterSetup | src/shared/stores/encryptionStore.ts:95-177 | the settings that setup stores unlock with the same PIN to the set-up DEK |
| EncryptionStore.UnlockOutcome | src/shared/stores/encryptionStore.ts:154-172 | an unlocked DEK is non-extractable; an error reply and a missing reply reject with their messages |
| EncryptionStore.RewrapOutcome | src/shared/stores/encryptionStore.ts:208-227 | the re-wrap for a new PIN succeeds exactly when the settings reply has data, its server key is Base64 and the DEK is extractable |
| EncryptionStore.UnlockAfterRewrap | src/shared/stores/encryptionStore.ts:202-239 | after a PIN change, the new PIN and salt unlock the same DEK |
| EncryptionStore.Store.constructor | src/shared/stores/encryptionStore.ts:90-93 | locked, no DEK, not restoring, no pending recovery key |
| EncryptionStore.Store.SetupEncryption | src/shared/stores/encryptionStore.ts:95-152 | sends the setup request, then the wrapped DEK under the same salt; on success unlocks with the new DEK and returns the formatted recovery key, kept as pending; a rejection changes neither the store nor the cache; the older store (src/features/encryption/stores/encryptionStore.ts:95-151) sends no `rotateServerKey` |
| EncryptionStore.Store.UnlockWithPin | src/shared/stores/encryptionStore.ts:154-177 | sends one settings request; unlocks exactly when the PIN unwraps the DEK, and otherwise rejects leaving the store as it was; the cache is never written, because the DEK is non-extractable |
| EncryptionStore.Store.RestoreFromCache | src/shared/stores/encryptionStore.ts:179-196 | returns true at once, unchanged, when unlocked; otherwise true exactly on a cache hit, which unlocks with the cached DEK; `isRestoring` is false on every exit |
| EncryptionStore.Store.HasCachedSession | src/shared/stores/encryptionStore.ts:198-200 | true exactly when the session half of the cache is there |
| EncryptionStore.Store.ChangePin | src/shared/stores/encryptionStore.ts:202-239 | rejects without a DEK; otherwise sends the settings request and, when the re-wrap succeeds, the update with the new salt and wrapped DEK; never changes the store |
| EncryptionStore.Store.RecoverWithKey | src/shared/stores/encryptionStore.ts:241-296 | needs no DEK; a failed unwrap rejects with the wrong-key message; on success re-wraps for the new PIN under the current server key, caches and unlocks; a rejection changes nothing; the older store (src/features/encryption/stores/encryptionStore.ts:239-242) always rejects with "Not implemented" and sends nothing |
| EncryptionStore.Store.RegenerateRecoveryKey | src/shared/stores/encryptionStore.ts:298-322 | rejects without a DEK, and with `InvalidAccessError` for a non-extractable one; otherwise the request unwraps with the new displayed key to the DEK, and the formatted key is returned; never changes the store |
| EncryptionStore.Store.Lock | src/shared/stores/encryptionStore.ts:324-333 | back to the initial state; the session entry is deleted and the IndexedDB entry too unless that delete fails, everything else in both stores is kept, so nothing loads |
| EncryptionStore.Store.ClearPendingRecoveryKey | src/shared/stores/encryptionStore.ts:335-337 | only the pending recovery key is cleared |
| UseCrypto.IsUnlocked | src/shared/hooks/useCrypto.ts:15 | the flag is passed through from the store; it agrees with holding a DEK under the store's invariant |
| UseCrypto.EncryptData | src/shared/hooks/useCrypto.ts:24-32 | without a DEK rejects with "암호화가 해제되지 않았습니다"; with one it is `encrypt(p, dek)` |
| UseCrypto.DecryptData | src/shared/hooks/useCrypto.ts:42-50 | without a DEK rejects with the same message; with one it is `decrypt(c, dek)` |
| UseCrypto.UsableExactlyWhenUnlocked | src/shared/hooks/useCrypto.ts:15-56 | encryption works exactly when the store is unlocked; a locked store rejects decryption |
| UseCrypto.DecryptDataEncryptData | src/shared/hooks/useCrypto.ts:24-50 | for a fixed DEK, `decryptData(encryptData(p)) == p` |
| UseCrypto.DecryptDataWithOtherDekFails | src/shared/hooks/useCrypto.ts:42-50 | data encrypted under one DEK does not decrypt under another |
| RecoveryKeyInput.Upper | src/features/encryption/components/RecoveryKeyInput.tsx:47-60 | `toUpperCase` on ASCII, character for character |
| RecoveryKeyInput.RemoveHyphens | src/features/encryption/components/RecoveryKeyInput.tsx:32-34 | no hyphen is left, and the text gets no longer |
| RecoveryKeyInput.KeepHex | src/features/encryption/components/RecoveryKeyInput.tsx:36-38 | only characters of `[0-9A-Fa-f]` are kept |
| RecoveryKeyInput.Digits | src/features/encryption/components/RecoveryKeyInput.tsx:47-60 | at most 64 digits survive |
| RecoveryKeyInput.FormatWithHyphens | src/features/encryption/components/RecoveryKeyInput.tsx:24-30 | the loop that pushes groups of four produces the digits joined in fours by hyphens |
| RecoveryKeyInput.HandleChange | src/features/encryption/components/RecoveryKeyInput.tsx:47-60 | the new value is the normalised input |
| RecoveryKeyInput.HandlePaste | src/features/encryption/components/RecoveryKeyInput.tsx:62-77 | paste prevents the default and applies the same normalisation |
| RecoveryKeyInput.NormalizedShape | src/features/encryption/components/RecoveryKeyInput.tsx:7-60 | the value holds at most 64 upper-case hex digits in at most 16 groups, all but the last of four, and removing its hyphens gives the digits back |
| RecoveryKeyInput.NormalizeIdempotent | src/features/encryption/components/RecoveryKeyInput.tsx:24-60 | a normalised value passes through unchanged |
| RecoveryKeyInput.RemoveHyphensOfGrouped | src/features/encryption/components/RecoveryKeyInput.tsx:24-34 | `removeHyphens(formatWithHyphens(h)) == upper(h)` for every hyphen-free `h` |
| RecoveryKeyInput.CompleteExactlyWhenEnoughDigits | src/features/encryption/components/RecoveryKeyInput.tsx:79-80 | the normalised value is complete exactly when the input held at least 64 hex digits |
| RecoveryKeyInput.DisplayedKeyAccepted | src/features/encryption/components/RecoveryKeyInput.tsx:47-80 | the key exactly as it was displayed passes through unchanged and is complete |
| PinInput.LastDigit | src/features/encryption/components/PinInput.tsx:89 | the last digit of the input, or "" when there is none |
| PinInput.KeyDownTarget | src/features/encryption/components/PinInput.tsx:125-139 | Backspace on an empty box moves left except at box 0; the arrows move within 0..5; other keys do nothing |
| PinInput.Pasted | src/features/encryption/components/PinInput.tsx:148-151 | pasting keeps six boxes |
| PinInput.PinInput.constructor | src/features/encryption/components/PinInput.tsx:43-44 | six empty boxes, none revealed |
| PinInput.PinInput.FocusInput | src/features/encryption/components/PinInput.tsx:80-84 | focus moves only to an index in 0..5 |
| PinInput.PinInput.Clear | src/features/encryption/components/PinInput.tsx:70-74 | six empty boxes, none revealed, focus on the first |
| PinInput.PinInput.MaskTimeout | src/features/encryption/components/PinInput.tsx:106-108 | the timer only hides the revealed box |
| PinInput.PinInput.HandleChange | src/features/encryption/components/PinInput.tsx:86-123 | writes the last digit at the index and leaves the other five boxes; a digit reveals the box and moves focus right; completes exactly when all six boxes are filled, with their concatenation |
| PinInput.PinInput.HandleKeyDown | src/features/encryption/components/PinInput.tsx:125-139 | only the focus changes, to the key's target |
| PinInput.PinInput.HandlePaste | src/features/encryption/components/PinInput.tsx:141-165 | the first n ≤ 6 digits fill boxes 0..n-1; focus goes to n-1; completes exactly when six digits were pasted |
| PinInput.PinInput.DisplayValue | src/features/encryption/components/PinInput.tsx:173-181 | "" for an empty box, the digit in the revealed box, "•" otherwise |
| PinInput.BoxesConcat | src/features/encryption/components/PinInput.tsx:117-120 | for one-digit boxes, "six characters and no empty box" is the same as "every box filled" |
| PinInput.PastedSixConcat | src/features/encryption/components/PinInput.tsx:155-161 | after six pasted digits, the boxes concatenate to them |
| ChangePinForm.ChangePinForm.constructor | src/features/encryption/components/ChangePinForm.tsx:23-25 | step "new", empty PIN, no error |
| ChangePinForm.ChangePinForm.NewPinComplete | src/features/encryption/components/ChangePinForm.tsx:29-33 | keeps the PIN, moves to "confirm", clears the error, with empty confirmation boxes |
| ChangePinForm.ChangePinForm.ConfirmPinComplete | src/features/encryption/components/ChangePinForm.tsx:35-52 | a mismatch shows the error, clears the boxes and keeps the step and PIN; a match submits the kept PIN; a failed submit goes back to "new" with the thrown message |
| ChangePinForm.ChangePinForm.Back | src/features/encryption/components/ChangePinForm.tsx:54-58 | step "new", empty PIN, no error |
| ChangePinForm.SubmitsOnlyConfirmedPin | src/features/encryption/components/ChangePinForm.tsx:29-52 | entering a PIN then a confirmation submits the PIN exactly when the two agree |
| PinSetupForm.PinSetupForm.constructor | src/features/encryption/components/PinSetupForm.tsx:25-27 | step "enter", empty PIN, no error |
| PinSetupForm.PinSetupForm.PinEnter | src/features/encryption/components/PinSetupForm.tsx:29-33 | keeps the PIN, moves to "confirm", clears the error |
| PinSetupForm.PinSetupForm.PinConfirm | src/features/encryption/components/PinSetupForm.tsx:35-49 | the step and PIN stay; a mismatch shows the error and submits nothing; a match submits the PIN; a failed submit shows the thrown message |
| PinSetupForm.PinSetupForm.Back | src/features/encryption/components/PinSetupForm.tsx:51-55 | step "enter", empty PIN, no error |
| PinSetupForm.RetryAfterFailure | src/features/encryption/components/PinSetupForm.tsx:35-49 | after a failed submit, confirming again submits the same PIN |
| Schemas.FirstLine | src/features/member/utils/schemas.ts:13-16 | the prefix before the first line terminator, which is all `^.*` can see |
| Schemas.PasswordIssues | src/features/member/utils/schemas.ts:9-16 | accepted exactly when at least 8 characters long with an ASCII letter and a digit on the first line; an empty password reports "required" |
| Schemas.NicknameIssues | src/features/member/utils/schemas.ts:18-22 | accepted exactly when 2 to 20 characters long |
| Schemas.EmailIssues | src/features/member/utils/schemas.ts:4-7 | accepted exactly when non-empty and matching the e-mail pattern; this is the whole forgot-password form (schemas.ts:48-50) |
| Schemas.ConfirmIssues | src/features/member/utils/schemas.ts:37 | the confirmation is accepted exactly when non-empty |
| Schemas.MatchIssues | src/features/member/utils/schemas.ts:40-43 | a mismatch is exactly one issue, on `passwordConfirm` |
| Schemas.LoginIssues | src/features/member/utils/schemas.ts:25-28 | accepted exactly when the e-mail passes and the password is non-empty |
| Schemas.SignupIssues | src/features/member/utils/schemas.ts:33-43 | accepted exactly when every field rule passes and the passwords match; a mismatch is reported on `passwordConfirm` |
| Schemas.ResetPasswordIssues | src/features/member/utils/schemas.ts:55-63 | accepted exactly when the password rule passes and the passwords match; a mismatch is reported on `passwordConfirm` |
| Schemas.SignupCredentialsPassLogin | src/features/member/utils/schemas.ts:25-43 | signup credentials pass the login form |
| Schemas.LoginIsLaxerThanSignup | src/features/member/utils/schemas.ts:9-28 | login accepts a password the password rule rejects |
| Schemas.StrengthScore | src/features/member/utils/schemas.ts:74-77 | the score lies in 0..4 |
| Schemas.CalculatePasswordStrength | src/features/member/utils/schemas.ts:68-84 | the counter ends at the score and the label is the score's label |
| Schemas.ScoreMonotone | src/features/member/utils/schemas.ts:74-77 | appending characters never lowers the score |
| Schemas.AcceptedPasswordScore | src/features/member/utils/schemas.ts:9-77 | a password the rule accepts scores at least 2 |
| Schemas.PatternStopsAtLineBreak | src/features/member/utils/schemas.ts:13-16 | "abcdefg\n1" has a letter and a digit yet fails the pattern, because `.` stops at the line break |
| PasswordStrengthMeter.FillColor | src/features/member/components/PasswordStrengthMeter.tsx:17-20 | a filled colour is never the empty colour |
| PasswordStrengthMeter.BarColor | src/features/member/components/PasswordStrengthMeter.tsx:13-21 | a bar is filled exactly when the score is positive and the bar's index is below it, and then in the score's colour |
| PasswordStrengthMeter.LabelColor | src/features/member/components/PasswordStrengthMeter.tsx:42-44 | red up to 1, gold at 2, green from 3 |
| PasswordStrengthMeter.Meter | src/features/member/components/PasswordStrengthMeter.tsx:23-49 | nothing for an empty password; otherwise four bars by score and a label exactly when the score is positive |
| PasswordStrengthMeter.FilledBarsShowScore | src/features/member/components/PasswordStrengthMeter.tsx:28 | exactly `score` of the four bars are filled, all in one colour |
| PasswordStrengthMeter.AcceptedPasswordFillsTwoBars | src/features/member/components/PasswordStrengthMeter.tsx:13-49 | a password the form accepts fills at least two bars |
| TermsAgreement.Agreed | src/features/member/components/TermsAgreement.tsx:41-43 | a term is agreed exactly when it is present and true |
| TermsAgreement.Toggle | src/features/member/components/TermsAgreement.tsx:45-47 | flips only the chosen term |
| TermsAgreement.TermIds | src/features/member/components/TermsAgreement.tsx:20-38 | the ids of the three terms, in order |
| TermsAgreement.TermsAgreement.constructor | src/features/member/components/TermsAgreement.tsx:41 | nothing agreed |
| TermsAgreement.TermsAgreement.HandleToggle | src/features/member/components/TermsAgreement.tsx:45-47 | the state becomes the toggle of the term |
| TermsAgreement.TermsAgreement.HandleToggleAll | src/features/member/components/TermsAgreement.tsx:49-56 | every term becomes false when all were checked, and true otherwise |
| TermsAgreement.TermsAgreement.NextEnabled | src/features/member/components/TermsAgreement.tsx:140-143 | "Next" is enabled exactly when all required terms are agreed |
| TermsAgreement.AllRequiredIsAllChecked | src/features/member/components/TermsAgreement.tsx:43-58 | every term is required, so "all required" equals "all checked" |
| TermsAgreement.InitiallyDisabled | src/features/member/components/TermsAgreement.tsx:41-43 | "Next" starts disabled |
| TermsAgreement.ToggleTwice | src/features/member/components/TermsAgreement.tsx:45-47 | toggling twice restores every term |
| TermsAgreement.ToggleEachEnablesNext | src/features/member/components/TermsAgreement.tsx:20-47 | ticking the three terms one by one enables "Next" |
| TermsAgreement.ToggleAllFlips | src/features/member/components/TermsAgreement.tsx:49-58 | "agree to all" flips "all checked", and pressing it twice restores it |
| AuthStore.MemberAuthStore.constructor | src/features/member/stores/authStore.ts:22-25 | no user, not authenticated, start-up check running, no login pending |
| AuthStore.MemberAuthStore.SetUser | src/features/member/stores/authStore.ts:27-33 | authenticated exactly when there is a user; start-up and login both over |
| AuthStore.MemberAuthStore.SetAuthenticated | src/features/member/stores/authStore.ts:35-39 | both flags become the argument; user and start-up flag stay |
| AuthStore.MemberAuthStore.SetInitialized | src/features/member/stores/authStore.ts:41-44 | only the start-up flag changes, to false |
| AuthStore.MemberAuthStore.Logout | src/features/member/stores/authStore.ts:46-51 | user, authentication and login cleared; start-up flag kept |
| AuthStore.AuthStore.constructor | src/features/auth/stores/authStore.ts:19-21 | no user, not authenticated, no login pending |
| AuthStore.AuthStore.SetUser | src/features/auth/stores/authStore.ts:23-28 | authenticated exactly when there is a user; no login pending |
| AuthStore.AuthStore.SetAuthenticated | src/features/auth/stores/authStore.ts:30-34 | both flags become the argument; the user stays |
| AuthStore.AuthStore.Logout | src/features/auth/stores/authStore.ts:36-41 | back to the initial state |
| AuthStore.MemberLoginThenLogout | src/features/member/stores/authStore.ts:27-51 | login pending, then signed in, then signed out with the start-up check over |
| AuthStore.AuthLoginThenLogout | src/features/auth/stores/authStore.ts:23-41 | the same sequence ends in the initial state |
| AuthProvider.AnyUnder | src/shared/providers/AuthProvider.tsx:19-23 | `some` finds a listed path that is the pathname or a parent of it |
| AuthProvider.IsPublicPath | src/shared/providers/AuthProvider.tsx:16-23 | public exactly when the pathname is one of the three public pages, or below one |
| AuthProvider.RedirectTarget | src/shared/providers/AuthProvider.tsx:69-82 | none while initialising; "/login" exactly for a signed-out visitor of a protected page; "/" exactly for a signed-in visitor of a public page other than the OAuth landing |
| AuthProvider.SessionProfile | src/shared/providers/AuthProvider.tsx:46-53 | a usable session is a reply with a profile and no error |
| AuthProvider.AuthProvider.constructor | src/shared/providers/AuthProvider.tsx:28 | not yet initialised |
| AuthProvider.AuthProvider.InitializeEffect | src/shared/providers/AuthProvider.tsx:36-66 | the first run asks once and either stores the user or only ends the start-up check; every outcome clears `isInitializing`; later runs change nothing |
| AuthProvider.AuthProvider.ShowsSpinner | src/shared/providers/AuthProvider.tsx:85-91 | the spinner shows exactly while initialising |
| AuthProvider.AuthProvider.Redirect | src/shared/providers/AuthProvider.tsx:69-82 | no redirect while the spinner shows |
| AuthProvider.AuthProviderAsWritten.InitializeEffect | src/shared/providers/AuthProvider.tsx:30-66 | as written, against the auth store: a good session stores the user; a failed one throws "setInitialized is not a function" and changes nothing |
| AuthProvider.AuthProviderAsWritten.Redirect | src/shared/providers/AuthProvider.tsx:30-33 | as written, `isInitializing` is undefined, so the redirect never waits |
| AuthProvider.PublicPathExamples | src/shared/providers/AuthProvider.tsx:16-23 | "/login", "/login/reset" and the OAuth landing are public; "/loginx", "/" and "/prayer-topics" are not |
| AuthProvider.RedirectSettles | src/shared/providers/AuthProvider.tsx:69-82 | a redirect target is not redirected again under the same session |
| AuthProvider.SignedInDeepLinkAsWritten | src/shared/providers/AuthProvider.tsx:7 | as written, a signed-in visitor of a protected page is sent to "/login", then "/" |
| AuthProvider.SignedInDeepLinkKept | src/shared/providers/AuthProvider.tsx:30-82 | with the member store, the same visitor stays on the page |
| AuthProvider.StartupEndsSpinner | src/shared/providers/AuthProvider.tsx:36-91 | the spinner shows first and is gone after the first start-up run, whatever the reply; a second run asks nothing |
| PrayerTopicUtils.StatusLabel | src/features/prayer-topic/utils/prayerTopic.utils.ts:26-35 | PRAYING shows "기도 중", ANSWERED shows "응답됨", anything else shows itself |
| PrayerTopicUtils.StatusColorClass | src/features/prayer-topic/utils/prayerTopic.utils.ts:43-52 | a class for each status, with a default |
| PrayerTopicUtils.OfStatus | src/features/prayer-topic/utils/prayerTopic.utils.ts:111-119 | the filter keeps exactly the topics of the status |
| PrayerTopicUtils.GroupByStatus | src/features/prayer-topic/utils/prayerTopic.utils.ts:111-119 | exactly the PRAYING topics and exactly the ANSWERED topics, each the list's filter by status |
| PrayerTopicUtils.GroupByStatusPartition | src/features/prayer-topic/utils/prayerTopic.utils.ts:111-119 | when every status is known, the two groups together are the input, as a multiset and by count |
| PrayerTopicUtils.AnsweredCount | src/features/prayer-topic/utils/prayerTopic.utils.ts:61-63 | at most the number of topics |
| PrayerTopicUtils.AnsweredRate | src/features/prayer-topic/utils/prayerTopic.utils.ts:60-64 | 0 for no topics, otherwise 100·answered/n rounded half up |
| PrayerTopicUtils.AnsweredRateBounds | src/features/prayer-topic/utils/prayerTopic.utils.ts:60-64 | within 0..100; 0 when nothing is answered; 100 when everything is |
| PrayerTopicUtils.RelativeTime | src/features/prayer-topic/utils/prayerTopic.utils.ts:72-103 | the buckets in order: under a minute (also the future), minutes, hours, days, weeks = ⌊days/7⌋, months = ⌊days/30⌋, years = ⌊days/365⌋ |
| PrayerTopicUtils.RelativeTimeNumbers | src/features/prayer-topic/utils/prayerTopic.utils.ts:84-102 | the number shown is at least 1; weeks 1..4, months 1..12 |
| PrayerTopicUtils.RelativeTimeMonotone | src/features/prayer-topic/utils/prayerTopic.utils.ts:72-103 | more time elapsed never gives an earlier bucket |
| PrayerTopicUtils.RelativeTimeText | src/features/prayer-topic/utils/prayerTopic.utils.ts:72-103 | "방금 전" under a minute; otherwise the text starts with a digit |
| PrayerTopicUtils.ReadsAsNumeral | src/features/prayer-topic/utils/prayerTopic.utils.ts:84-102 | a template `${n}unit` is a decimal numeral that reads back as `n`, followed by the unit |
| PrayerTopicUtils.RelativeTimeTextReadsBack | src/features/prayer-topic/utils/prayerTopic.utils.ts:76-102 | past a minute the text is the floor of the elapsed time in the bucket's unit, as a decimal numeral, followed by "분 전", "시간 전", "일 전", "주 전", "개월 전" or "년 전", each on its own range of milliseconds |
| PrayerTopicUtils.RelativeTimeExamples | src/features/prayer-topic/utils/prayerTopic.utils.ts:72-103 | 90 minutes is "1시간 전", the future is "방금 전", 45 days is "1개월 전" |
| PrayerTopicUtils.Pad2 | src/features/prayer-topic/utils/prayerTopic.utils.ts:15-16 | `padStart(2, "0")`: two digits that read back as the number, below 100 |
| PrayerTopicUtils.FormatDate | src/features/prayer-topic/utils/prayerTopic.utils.ts:12-18 | an invalid date gives "NaN.NaN.NaN" |
| PrayerTopicUtils.FormatDateFields | src/features/prayer-topic/utils/prayerTopic.utils.ts:12-18 | "YYYY.MM.DD": ten characters whose fields read back as the year, month and day |
| Text.TrimStartCuts | src/features/prayer/utils/prayer.utils.ts:35 | drops exactly the leading whitespace |
| Text.TrimEndCuts | src/features/prayer/utils/prayer.utils.ts:35 | drops exactly the trailing whitespace |
| Text.TrimCuts | src/features/prayer/utils/prayer.utils.ts:35 | a slice of the text with whitespace only around it and none at its ends |
| Text.TrimIdempotent | src/features/prayer/utils/prayer.utils.ts:35 | trimming twice is trimming once |
| PrayerUtils.PreviewText | src/features/prayer/utils/prayer.utils.ts:31-37 | the trimmed text when it fits; otherwise its first `maxLength` characters and "..."; never longer than `maxLength` + 3 |
| PrayerUtils.PreviewIgnoresSurroundingSpace | src/features/prayer/utils/prayer.utils.ts:31-37 | surrounding whitespace does not change the preview |
| PrayerUtils.ShortPreviewStable | src/features/prayer/utils/prayer.utils.ts:31-37 | the preview of a preview that fits is itself |
| PrayerUtils.FilterPrayersByDate | src/features/prayer/utils/prayer.utils.ts:57-64 | keeps exactly the prayers of that day, and no more of them than the list holds |
| PrayerUtils.FilterAppend | src/features/prayer/utils/prayer.utils.ts:57-64 | the filter of a concatenation is the concatenation of the filters, so the list's order is kept |
| PrayerUtils.GroupPrayersByDate | src/features/prayer/utils/prayer.utils.ts:42-52 | the keys are the days that occur; each group is that day's filter of the whole list |
| PrayerUtils.GroupStep | src/features/prayer/utils/prayer.utils.ts:45-49 | one loop step keeps the invariant: keys are the days seen, groups are the filters of the prefix |
| PrayerUtils.GetPrayerDates | src/features/prayer/utils/prayer.utils.ts:69-75 | the set of days that occur, the key set of the grouping |
| PrayerUtils.GroupSizesSum | src/features/prayer/utils/prayer.utils.ts:42-52 | the group sizes add up to the number of prayers |
| PrayerUtils.GroupsFiltersAndDatesAgree | src/features/prayer/utils/prayer.utils.ts:42-75 | for any day, the group, the filter and the date set agree |
| PrayerTopicSelector.Remove | src/features/prayer/components/PrayerTopicSelector.tsx:45-47 | every occurrence of the id goes, and the others keep their counts |
| PrayerTopicSelector.Toggle | src/features/prayer/components/PrayerTopicSelector.tsx:37-43 | a selected id is removed everywhere; an unselected one is appended; no other id changes membership |
| PrayerTopicSelector.SelectedTopics | src/features/prayer/components/PrayerTopicSelector.tsx:49-51 | exactly the topics whose id is selected |
| PrayerTopicSelector.RemoveAppend | src/features/prayer/components/PrayerTopicSelector.tsx:45-47 | `filter` keeps the list's order and repeats: removal distributes over concatenation, drops a single entry equal to the id and keeps any other |
| PrayerTopicSelector.SelectedTopicsAppend | src/features/prayer/components/PrayerTopicSelector.tsx:49-51 | chips come in topic-list order, once per offered topic: the chips of `a + b` are those of `a` followed by those of `b`, and a single topic gives its chip exactly when its id is selected |
| PrayerTopicSelector.ButtonCaption | src/features/prayer/components/PrayerTopicSelector.tsx:93-99 | loading, empty, or the count followed by "개 선택됨" |
| PrayerTopicSelector.CaptionCountsSelection | src/features/prayer/components/PrayerTopicSelector.tsx:93-98 | the number in the caption reads back as `selectedIds.length` |
| PrayerTopicSelector.ToggleOnOff | src/features/prayer/components/PrayerTopicSelector.tsx:37-43 | toggling an unselected id twice restores the list |
| PrayerTopicSelector.ToggleTwiceSameSet | src/features/prayer/components/PrayerTopicSelector.tsx:37-43 | toggling any id twice restores the set of ids |
| PrayerTopicSelector.RemoveDropsChip | src/features/prayer/components/PrayerTopicSelector.tsx:45-51 | removing an id drops exactly its chips |
| PrayerTopicSelector.ToggleAddsChip | src/features/prayer/components/PrayerTopicSelector.tsx:37-51 | toggling an unselected topic makes its chip appear |
| RelatedPrayersSection.PreviewText | src/features/prayer-topic/components/RelatedPrayersSection.tsx:32-35 | the text when it fits, otherwise its first `maxLength` characters and "...", untrimmed |
| RelatedPrayersSection.QueryEnabled | src/features/prayer-topic/components/RelatedPrayersSection.tsx:66 | the query runs exactly when unlocked and the topic id is non-empty |
| RelatedPrayersSection.DecryptAll | src/features/prayer-topic/components/RelatedPrayersSection.tsx:54-59 | succeeds exactly when every content decrypts, replacing each content in place; a failure is one of the prayers' errors |
| RelatedPrayersSection.FetchRelated | src/features/prayer-topic/components/RelatedPrayersSection.tsx:45-65 | an error reply rejects with its message; no data is an empty page; otherwise the decrypted page with its total |
| RelatedPrayersSection.Render | src/features/prayer-topic/components/RelatedPrayersSection.tsx:72-146 | skeleton while loading; the invitation link when empty; otherwise one card per prayer, linking to it with an 80-character preview, and "전체보기" exactly when the total exceeds 5 |
| RelatedPrayersSection.PreviewMatchesPrayerPreview | src/features/prayer-topic/components/RelatedPrayersSection.tsx:32-35 | on trimmed text it agrees with the prayer list's preview |
| RelatedPrayersSection.FetchedPageIsListed | src/features/prayer-topic/components/RelatedPrayersSection.tsx:45-146 | a page that decrypts is listed card for card, with its total |
| RelatedPrayersSection.LockedShowsInvitation | src/features/prayer-topic/components/RelatedPrayersSection.tsx:66-109 | a locked vault runs no query and shows the invitation |
| Navigation.BeforeQuery | src/shared/components/BottomNavigation.tsx:31 | the part of the href before the first '?' |
| Navigation.IsActive | src/shared/components/BottomNavigation.tsx:27-32 | "/" is active exactly on "/"; any other href exactly when the path starts with its part before '?'; the sidebar (src/shared/components/Sidebar.tsx:61-66) applies the same rule |
| Navigation.AnsweredTabPath | src/shared/components/BottomNavigation.tsx:19 | the answered tab matches on "/prayer-topics" |
| Navigation.AnsweredTabFollowsTopics | src/shared/components/BottomNavigation.tsx:13-32 | the answered tab is active exactly where the topics section is |
| Navigation.SubPagesStayActive | src/shared/components/Sidebar.tsx:61-66 | a section stays active on its sub-pages; home does not |
| Navigation.NotBothActive | src/shared/components/Sidebar.tsx:61-66 | two hrefs other than "/", without a query, that differ at a position both have, are never active together |
| Navigation.SectionsExclusive | src/shared/components/Sidebar.tsx:61-66 | no two sections are active together |
| Navigation.BottomNavAtMostOneActive | src/shared/components/BottomNavigation.tsx:13-32 | at most one bottom tab is active |
| Navigation.SidebarAtMostOneActive | src/shared/components/Sidebar.tsx:61-118 | at most one sidebar item is active |

## Left out

- Randomness: `crypto.getRandomValues`, `generateKey`, `generateSalt` and the recovery-key generator become parameters of the stated lengths. `generateSalt` is then the identity on its parameter, so it has no member.
- AES-GCM secrecy and authentication strength: the symbolic seal gives round trips and wrong-key failure only.
- `TextEncoder`/`TextDecoder` and the UTF-16 view of strings: plaintexts are bytes; lengths of UI strings are counted in characters, not UTF-16 code units.
- IndexedDB and `sessionStorage` mechanics: two maps and a failure flag per write; `openDB` upgrades and transactions are not modelled.
- The older store imports a DEK cache module that is not in the repository (features/encryption/lib/dekCache); it is modelled by the shared cache.
- Async interleaving: each store action runs to completion; `lock` does not wait for its cache clear, and the model performs the clear at once.
- HTTP plumbing and React Query hooks: replies are `{data, error}` parameters.
- Rendering, timers, focus and toast: the PIN input's mask timer is the separate `MaskTimeout` step; focus is the index last focused.
- Date handling: the day of a prayer (`dayOf`), the calendar date of `formatDate` and the elapsed milliseconds of `getRelativeTime` are parameters; time zones are not modelled; `RelatedPrayersSection`'s `toLocaleDateString` is not modelled. `dayOf` is total: `format(parseISO(s), …)` throws a RangeError for an unparsable date string in `groupPrayersByDate`, `filterPrayersByDate` and `getPrayerDates`, and the model does not have that error path.
- PrayerTopicUtils.AnsweredRate: rounds half up on integers; JavaScript's float `Math.round` may differ only at an exact .5.
- RelatedPrayersSection.DecryptAll: with several failures `Promise.all` rejects with whichever settles first, so only "one of the errors" is stated.
- zod's e-mail regular expression: whether the address matches it is a parameter.
- RecoveryKeyInput.Upper: models `toUpperCase` on ASCII letters only and keeps every other character as it is. JavaScript also maps some non-ASCII characters to ASCII letters that survive the hex filter: U+FB00 (ﬀ) becomes "FF", and U+FB01 to U+FB04 become "FI", "FL", "FFI" and "FFL". Pasting those ligatures adds F digits in the source; the model drops them with the other non-hex characters.
- PrayerTopicSelector: the dropdown's `isOpen` state and its rendering are not modelled.
- Navigation: the action buttons of the bottom bar and sidebar are not modelled.
- `getPreviewText` with a negative `maxLength`: `maxLength` is a natural number.
- EncryptionStore.Store.SetupEncryption: on success the contract does not state the cache contents, only the store state and the requests.
- EncryptionStore.Store.RecoverWithKey: on success the contract does not state the cache contents.

## Findings

| source | as written | input that shows it | evidently intended | confidence | as-written member | corrected member |
|---|---|---|---|---|---|---|
| src/shared/lib/dekCache.ts:141-149 | `return crypto.subtle.unwrapKey(…)` inside `try` without `await`, so a rejected unwrap escapes the `catch` and `loadCachedDEK` rejects | a session wrap key from one cache write and an IndexedDB blob sealed under another | `loadCachedDEK` never rejects; a failed unwrap gives `null` | not executed | DekCache.LoadCachedDekAsWritten (shown by DekCache.LoadForeignBlobRejects) | DekCache.LoadCachedDek |
| src/shared/providers/AuthProvider.tsx:7 | the provider reads the features/auth store, which has neither `isInitializing` nor `setInitialized` | a signed-in visitor opening "/prayer-topics": sent to "/login", then to "/"; a failed profile check throws "setInitialized is not a function" | read the member store, wait for the start-up check, keep the visitor on the page | not executed (type-checking the build would likely reject it) | AuthProvider.SignedInDeepLinkAsWritten (with AuthProvider.AuthProviderAsWritten.InitializeEffect) | AuthProvider.SignedInDeepLinkKept (with AuthProvider.AuthProvider.InitializeEffect) |
