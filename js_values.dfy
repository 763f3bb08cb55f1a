/**
 * Values shared by every part of the model: bytes, JavaScript-style
 * optional values, and the outcome of a call that may throw (or of a
 * promise that may reject).
 */
module JsValues {

  /** One element of a `Uint8Array`. */
  type Byte = b: int | 0 <= b < 256

  type Bytes = seq<Byte>

  datatype Option<T> = None | Some(value: T)

  /** The `name` of a `DOMException` raised by the platform. */
  datatype DomErrorName =
    | InvalidAccessError     // key used for an operation its usages or extractability forbid
    | OperationError         // authenticated decryption failed
    | DataError              // key material of the wrong length for the algorithm
    | SyntaxError            // usages not allowed for the algorithm
    | InvalidCharacterError  // `atob`/`btoa` input outside their alphabet

  /** What a failed call throws: an application `Error` or a platform `DOMException`. */
  datatype Thrown = JsError(message: string) | DomException(name: DomErrorName)

  /** A call that returns a value or throws (an awaited promise that resolves or rejects). */
  datatype Result<T> = Ok(value: T) | Throw(error: Thrown)
  {
    predicate IsFailure() { Throw? }
    function PropagateFailure<U>(): Result<U> requires Throw? { Throw(error) }
    function Extract(): T requires Ok? { value }
  }

  /** What a `catch (e)` receives: an `Error` with its message, or any other thrown value. */
  datatype Caught = CaughtError(message: string) | CaughtOther

  /** `e instanceof Error ? e.message : fallback`. */
  function MessageOr(e: Caught, fallback: string): (m: string)
    ensures e.CaughtError? ==> m == e.message
    ensures e.CaughtOther? ==> m == fallback
  {
    match e
    case CaughtError(message) => message
    case CaughtOther => fallback
  }

  /** The ASCII letters and digits, as JavaScript regular expressions see them. */
  predicate IsAsciiDigit(c: char) { '0' <= c <= '9' }
  predicate IsAsciiLower(c: char) { 'a' <= c <= 'z' }
  predicate IsAsciiUpper(c: char) { 'A' <= c <= 'Z' }

  /** `String.prototype.startsWith`. */
  predicate StartsWith(s: string, prefix: string) { |prefix| <= |s| && s[..|prefix|] == prefix }

  /** `String.prototype.toUpperCase` restricted to ASCII letters. */
  function AsciiUpper(c: char): (u: char)
    ensures IsAsciiLower(c) ==> IsAsciiUpper(u)
    ensures !IsAsciiLower(c) ==> u == c
  {
    if IsAsciiLower(c) then (c as int - 32) as char else c
  }

  /** The decimal digits of a natural number, as `String(n)` writes them. */
  function NatToString(n: nat): (s: string)
    ensures |s| >= 1
    ensures forall i :: 0 <= i < |s| ==> IsAsciiDigit(s[i])
    decreases n
  {
    if n < 10 then [('0' as int + n) as char]
    else NatToString(n / 10) + [('0' as int + n % 10) as char]
  }

  /** The number a string of decimal digits denotes, leading zeros allowed. */
  function DecimalValue(s: string): nat
    requires forall i :: 0 <= i < |s| ==> IsAsciiDigit(s[i])
  {
    if s == [] then 0
    else
      assert IsAsciiDigit(s[|s| - 1]);
      10 * DecimalValue(s[..|s| - 1]) + (s[|s| - 1] as int - '0' as int)
  }

  /** `String(n)` reads back as `n`, and has as many digits as `n` needs. */
  lemma {:induction false} NatToStringValue(n: nat)
    ensures DecimalValue(NatToString(n)) == n
    ensures n < 10 ==> |NatToString(n)| == 1
    ensures 10 <= n < 100 ==> |NatToString(n)| == 2
    ensures 1000 <= n < 10000 ==> |NatToString(n)| == 4
    decreases n
  {
    if n >= 10 {
      NatToStringValue(n / 10);
      var s := NatToString(n);
      assert s[..|s| - 1] == NatToString(n / 10);
      if n >= 1000 {
        NatToStringValue(n / 100);
        NatToStringValue(n / 1000);
      }
    }
  }
}
