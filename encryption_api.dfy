/**
 * The encryption endpoints as the stores see them: every call resolves to
 * `{ data, error }`, never rejects, and the store decides what to throw.
 * Replies are inputs of the model; the requests a store action sends are
 * among its outputs.
 */
module EncryptionApi {
  import opened JsValues

  datatype ApiError = ApiError(code: string, message: string)

  /** `ApiResult<T>`: `data` and `error` are each present or `null`. */
  datatype ApiResult<T> = ApiResult(data: Option<T>, error: Option<ApiError>)

  datatype EncryptionSettings = EncryptionSettings(salt: string, encryptedDek: string, serverKey: string)

  datatype RecoverySettings = RecoverySettings(recoveryEncryptedDek: string, recoveryKeyHash: string)

  datatype SetupResponse = SetupResponse(serverKey: string, createdAt: string)

  datatype UpdateEncryptionResponse = UpdateEncryptionResponse(serverKey: string, updatedAt: string)

  datatype UpdateRecoveryKeyResponse = UpdateRecoveryKeyResponse(recoveryKeyHash: string, updatedAt: string)

  /** The requests the stores send, with their bodies. */
  datatype Request =
    | Setup(salt: string, initialEncryptedDek: Option<string>, recoveryEncryptedDek: string, recoveryKeyHash: string)
    | GetSettings
    | GetRecoverySettings
    | UpdateEncryption(salt: string, encryptedDek: string, rotateServerKey: Option<bool>)
    | UpdateRecoveryKey(recoveryEncryptedDek: string, recoveryKeyHash: string)

  /** `if (error || !data) throw new Error(error?.message ?? fallback)`, else the data. */
  function RequireData<T>(reply: ApiResult<T>, fallback: string): (r: Result<T>)
    ensures r.Ok? <==> reply.error.None? && reply.data.Some?
    ensures r.Ok? ==> r.value == reply.data.value
    ensures reply.error.Some? ==> r == Throw(JsError(reply.error.value.message))
    ensures reply.error.None? && reply.data.None? ==> r == Throw(JsError(fallback))
  {
    match reply.error
    case Some(e) => Throw(JsError(e.message))
    case None =>
      match reply.data
      case None => Throw(JsError(fallback))
      case Some(d) => Ok(d)
  }

  /** `if (error) throw new Error(error.message)`: the data is not looked at. */
  function RequireNoError<T>(reply: ApiResult<T>): (r: Result<()>)
    ensures r.Ok? <==> reply.error.None?
    ensures reply.error.Some? ==> r == Throw(JsError(reply.error.value.message))
  {
    match reply.error
    case Some(e) => Throw(JsError(e.message))
    case None => Ok(())
  }
}
