/** The binding's exception type: its thirteen error-code constants, its four
    constructors and its code-to-message table (`TidesDBException.java`). */
module Errors {
  import opened Primitives

  const ERR_SUCCESS: Int32 := 0
  const ERR_MEMORY: Int32 := -1
  const ERR_INVALID_ARGS: Int32 := -2
  const ERR_NOT_FOUND: Int32 := -3
  const ERR_IO: Int32 := -4
  const ERR_CORRUPTION: Int32 := -5
  const ERR_EXISTS: Int32 := -6
  const ERR_CONFLICT: Int32 := -7
  const ERR_TOO_LARGE: Int32 := -8
  const ERR_MEMORY_LIMIT: Int32 := -9
  const ERR_INVALID_DB: Int32 := -10
  const ERR_UNKNOWN: Int32 := -11
  const ERR_LOCKED: Int32 := -12

  const UNKNOWN_ERROR: string := "unknown error"

  /** The kinds the code constants name, in declaration order. */
  datatype ErrorKind =
    | Success | Memory | InvalidArgs | NotFound | Io | Corruption | Exists
    | Conflict | TooLarge | MemoryLimit | InvalidDb | Unknown | Locked

  function Code(k: ErrorKind): Int32
  {
    match k
    case Success => ERR_SUCCESS
    case Memory => ERR_MEMORY
    case InvalidArgs => ERR_INVALID_ARGS
    case NotFound => ERR_NOT_FOUND
    case Io => ERR_IO
    case Corruption => ERR_CORRUPTION
    case Exists => ERR_EXISTS
    case Conflict => ERR_CONFLICT
    case TooLarge => ERR_TOO_LARGE
    case MemoryLimit => ERR_MEMORY_LIMIT
    case InvalidDb => ERR_INVALID_DB
    case Unknown => ERR_UNKNOWN
    case Locked => ERR_LOCKED
  }

  /** The kind a code constant names, if any. */
  function KindOf(code: int): (r: Option<ErrorKind>)
    ensures r.Some? <==> -12 <= code <= 0
    ensures r.Some? ==> Code(r.value) == code
  {
    if code == ERR_SUCCESS then Some(Success)
    else if code == ERR_MEMORY then Some(Memory)
    else if code == ERR_INVALID_ARGS then Some(InvalidArgs)
    else if code == ERR_NOT_FOUND then Some(NotFound)
    else if code == ERR_IO then Some(Io)
    else if code == ERR_CORRUPTION then Some(Corruption)
    else if code == ERR_EXISTS then Some(Exists)
    else if code == ERR_CONFLICT then Some(Conflict)
    else if code == ERR_TOO_LARGE then Some(TooLarge)
    else if code == ERR_MEMORY_LIMIT then Some(MemoryLimit)
    else if code == ERR_INVALID_DB then Some(InvalidDb)
    else if code == ERR_UNKNOWN then Some(Unknown)
    else if code == ERR_LOCKED then Some(Locked)
    else None
  }

  /** The thirteen constants are pairwise distinct and span exactly 0 down to -12. */
  lemma CodesDistinctAndDense()
    ensures forall k1, k2 :: Code(k1) == Code(k2) ==> k1 == k2
    ensures forall k :: -12 <= Code(k) <= 0
    ensures forall c :: -12 <= c <= 0 ==> KindOf(c).Some? && Code(KindOf(c).value) == c
    ensures forall k :: KindOf(Code(k)) == Some(k)
  {
    forall k ensures KindOf(Code(k)) == Some(k) {
      match k
      case Success =>
      case Memory =>
      case InvalidArgs =>
      case NotFound =>
      case Io =>
      case Corruption =>
      case Exists =>
      case Conflict =>
      case TooLarge =>
      case MemoryLimit =>
      case InvalidDb =>
      case Unknown =>
      case Locked =>
    }
  }

  /** An exception the binding raises. A cause, when given, is kept as an opaque description. */
  datatype TidesDBException = TidesDBException(message: string, errorCode: Int32, cause: Option<string>)

  /** `new TidesDBException(message)`: no code given, so the code is ERR_UNKNOWN. */
  function WithMessage(message: string): (e: TidesDBException)
    ensures e.message == message && e.errorCode == ERR_UNKNOWN && e.cause.None?
  {
    TidesDBException(message, ERR_UNKNOWN, None)
  }

  /** `new TidesDBException(message, errorCode)`: the code is stored as given. */
  function WithCode(message: string, errorCode: Int32): (e: TidesDBException)
    ensures e.message == message && e.errorCode == errorCode && e.cause.None?
  {
    TidesDBException(message, errorCode, None)
  }

  /** `new TidesDBException(message, cause)`: no code given, so the code is ERR_UNKNOWN. */
  function WithCause(message: string, cause: string): (e: TidesDBException)
    ensures e.message == message && e.errorCode == ERR_UNKNOWN && e.cause == Some(cause)
  {
    TidesDBException(message, ERR_UNKNOWN, Some(cause))
  }

  /** `new TidesDBException(message, errorCode, cause)`: the code is stored as given. */
  function WithCodeAndCause(message: string, errorCode: Int32, cause: string): (e: TidesDBException)
    ensures e.message == message && e.errorCode == errorCode && e.cause == Some(cause)
  {
    TidesDBException(message, errorCode, Some(cause))
  }

  /** The human-readable message for a code (the `switch` of `getErrorMessage`). */
  function ErrorMessage(code: int): (m: string)
    ensures m == "success" <==> code == ERR_SUCCESS
    ensures m == UNKNOWN_ERROR <==> KindOf(code).None? || code == ERR_UNKNOWN
  {
    if code == ERR_SUCCESS then "success"
    else if code == ERR_MEMORY then "memory allocation failed"
    else if code == ERR_INVALID_ARGS then "invalid arguments"
    else if code == ERR_NOT_FOUND then "not found"
    else if code == ERR_IO then "I/O error"
    else if code == ERR_CORRUPTION then "data corruption"
    else if code == ERR_EXISTS then "already exists"
    else if code == ERR_CONFLICT then "transaction conflict"
    else if code == ERR_TOO_LARGE then "key or value too large"
    else if code == ERR_MEMORY_LIMIT then "memory limit exceeded"
    else if code == ERR_INVALID_DB then "invalid database handle"
    else if code == ERR_LOCKED then "database is locked"
    else UNKNOWN_ERROR
  }

  /** `getErrorCode()`: the code given at construction, or ERR_UNKNOWN when none was. */
  function GetErrorCode(e: TidesDBException): (c: Int32)
    ensures e.cause.None? ==> e == WithCode(e.message, c)
    ensures e.cause.Some? ==> e == WithCodeAndCause(e.message, c, e.cause.value)
  {
    e.errorCode
  }

  /** `getErrorMessage()` of an exception: the table entry for its stored code. */
  function GetErrorMessage(e: TidesDBException): (m: string)
    ensures m == "success" <==> GetErrorCode(e) == ERR_SUCCESS
    ensures m == UNKNOWN_ERROR <==> KindOf(GetErrorCode(e)).None? || GetErrorCode(e) == ERR_UNKNOWN
  {
    ErrorMessage(e.errorCode)
  }

  /** The twelve codes other than ERR_UNKNOWN have pairwise different messages, so a
      message identifies its code. */
  lemma MessagesDistinct(k1: ErrorKind, k2: ErrorKind)
    requires k1 != Unknown && k2 != Unknown
    requires ErrorMessage(Code(k1)) == ErrorMessage(Code(k2))
    ensures k1 == k2
  {
    var m := ErrorMessage(Code(k1));
    assert |m| == |ErrorMessage(Code(k2))|;
    if |m| > 0 {
      assert m[0] == ErrorMessage(Code(k2))[0];
    }
    if |m| > 1 {
      assert m[1] == ErrorMessage(Code(k2))[1];
    }
  }

  /** Constructors that take no code and constructors that take one, as seen through
      the getters. */
  lemma ConstructorCodes(message: string, code: Int32, cause: string)
    ensures GetErrorCode(WithMessage(message)) == ERR_UNKNOWN
    ensures GetErrorCode(WithCause(message, cause)) == ERR_UNKNOWN
    ensures GetErrorCode(WithCode(message, code)) == code
    ensures GetErrorCode(WithCodeAndCause(message, code, cause)) == code
    ensures GetErrorMessage(WithMessage(message)) == UNKNOWN_ERROR
    ensures GetErrorMessage(WithCode(message, code)) == ErrorMessage(code)
    ensures GetErrorMessage(WithCause(message, cause)) == UNKNOWN_ERROR
    ensures GetErrorMessage(WithCodeAndCause(message, code, cause)) == ErrorMessage(code)
  {
  }
}
