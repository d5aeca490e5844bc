/** The binding's own logic in `com_tidesdb_TidesDB.c`: how a native status becomes a
    `TidesDBException`, which statuses the movement calls let through, how a missing
    column family is reported, and how the comparator name is copied into the
    fixed-size field of the engine's configuration. The engine's status codes are the
    numbers of the Java constants, which the C layer relays unchanged. */
module Jni {
  import opened Primitives
  import opened Errors
  import opened Outcomes

  /** `getErrorMessage` of the C layer: eleven named statuses, everything else unknown.
      It has no case for success, which it is never asked about. */
  function CMessage(code: int): (m: string)
    ensures m == UNKNOWN_ERROR <==> KindOf(code).None? || code == ERR_UNKNOWN || code == ERR_SUCCESS
  {
    if code == ERR_MEMORY then "memory allocation failed"
    else if code == ERR_INVALID_ARGS then "invalid arguments"
    else if code == ERR_NOT_FOUND then "not found"
    else if code == ERR_IO then "I/O error"
    else if code == ERR_CORRUPTION then "data corruption"
    else if code == ERR_EXISTS then "already exists"
    else if code == ERR_CONFLICT then "transaction conflict"
    else if code == ERR_TOO_LARGE then "key or value too large"
    else if code == ERR_MEMORY_LIMIT then "memory limit exceeded"
    else if code == ERR_INVALID_DB then "invalid database handle"
    else if code == ERR_LOCKED then "database is locked"
    else UNKNOWN_ERROR
  }

  /** The C table and the Java table agree on every status the C layer can raise, so
      `getErrorMessage()` of a raised exception repeats its message. They differ only at
      success, where C falls to "unknown error" and Java says "success". */
  lemma MessageTablesAgree(code: int)
    ensures code != ERR_SUCCESS ==> CMessage(code) == ErrorMessage(code)
    ensures CMessage(ERR_SUCCESS) == UNKNOWN_ERROR && ErrorMessage(ERR_SUCCESS) == "success"
  {
  }

  /** `throwTidesDBException(env, code, message)`: builds the exception through the
      `(String, int)` constructor, so the code arrives unchanged. When that constructor
      cannot be found it falls back to `ThrowNew`, the message-only constructor, and the
      code is lost to ERR_UNKNOWN. */
  function ThrowTidesDBException(codeConstructorFound: bool, code: Int32, message: string): (e: TidesDBException)
    ensures e.message == message && e.cause.None?
    ensures e.errorCode == (if codeConstructorFound then code else ERR_UNKNOWN)
  {
    if codeConstructorFound then WithCode(message, code) else WithMessage(message)
  }

  /** The exception a failing engine status produces: the status as code, the C table's
      message for it. */
  function StatusException(status: Int32): (e: TidesDBException)
    ensures e.errorCode == status && e.message == CMessage(status) && e.cause.None?
  {
    ThrowTidesDBException(true, status, CMessage(status))
  }

  /** The pattern `if (result != TDB_SUCCESS) throwTidesDBException(...)` that ends
      almost every native: success returns the value, anything else raises. */
  function StatusReply<T>(status: Int32, value: T): (r: NativeReply<T>)
    ensures r.Ok? <==> status == ERR_SUCCESS
    ensures r.Ok? ==> r.value == value
    ensures r.Raised? ==> r.exception.errorCode == status && GetErrorMessage(r.exception) == r.exception.message
  {
    if status == ERR_SUCCESS then Ok(value)
    else
      MessageTablesAgree(status);
      Raised(StatusException(status))
  }

  /** `nativeNext` and `nativePrev`: running off either end reports NOT_FOUND, which is
      not an error for the caller; every other failing status raises. */
  function MoveReply(status: Int32): (r: NativeReply<()>)
    ensures r.Ok? <==> status == ERR_SUCCESS || status == ERR_NOT_FOUND
    ensures r.Raised? ==> r.exception == StatusException(status)
  {
    if status == ERR_SUCCESS || status == ERR_NOT_FOUND then Ok(())
    else Raised(StatusException(status))
  }

  /** The movement filter differs from the general pattern in exactly one status. */
  lemma MoveReplyFiltersOnlyNotFound(status: Int32)
    ensures status != ERR_NOT_FOUND ==> MoveReply(status) == StatusReply(status, ())
    ensures StatusReply(ERR_NOT_FOUND, ()).Raised? && MoveReply(ERR_NOT_FOUND).Ok?
  {
  }

  const CF_NOT_FOUND: string := "Column family not found"

  /** `nativeGetColumnFamily`: the engine's lookup returns a column family or null; null
      is raised as NOT_FOUND with its own message rather than the table's. */
  function LookupReply(found: Option<Int64>): (r: NativeReply<Int64>)
    ensures r.Ok? <==> found.Some?
    ensures r.Ok? ==> r.value == found.value
    ensures r.Raised? ==> r.exception.errorCode == ERR_NOT_FOUND && r.exception.message == CF_NOT_FOUND
  {
    match found
    case Some(cf) => Ok(cf)
    case None => Raised(ThrowTidesDBException(true, ERR_NOT_FOUND, CF_NOT_FOUND))
  }

  /** A missing column family is reported with the same code a failing status NOT_FOUND
      would carry, but with a message of its own. */
  lemma LookupMatchesNotFoundCode()
    ensures LookupReply(None).exception.errorCode == StatusException(ERR_NOT_FOUND).errorCode
    ensures LookupReply(None).exception.message != StatusException(ERR_NOT_FOUND).message
  {
  }

  // The comparator name field of the engine's column-family configuration.

  /** `strlen`: the bytes before the first NUL; the whole sequence when it holds none
      (its terminator lies just past the end). */
  function CLength(s: Bytes): (n: nat)
    ensures n <= |s|
    ensures forall i :: 0 <= i < n ==> s[i] != 0
    ensures n < |s| ==> s[n] == 0
  {
    if |s| == 0 || s[0] == 0 then 0 else 1 + CLength(s[1..])
  }

  function Min(a: nat, b: nat): nat
  {
    if a <= b then a else b
  }

  /** What the field reads as a C string: the bytes before its first NUL. */
  function CString(buffer: Bytes): Bytes
  {
    buffer[..CLength(buffer)]
  }

  /** The field a name of `|name|` bytes should leave: its first `max - 1` bytes of text
      (those before its first NUL), then zeros to the end. */
  function NameField(name: Option<Bytes>, max: nat): (f: Bytes)
    requires max > 0
    ensures |f| == max
  {
    var n := if name.Some? then Min(CLength(name.value), max - 1) else 0;
    seq(max, i requires 0 <= i < max => if i < n then name.value[i] else 0)
  }

  /** The `memset` and `strncpy` of `nativeCreateColumnFamily`: zero the whole field,
      then, for a non-null name of non-zero `strlen`, copy at most `max - 1` bytes,
      stopping at the name's NUL and padding with zeros up to `max - 1`. */
  method ComparatorNameBuffer(compName: Option<Bytes>, max: nat) returns (buffer: Bytes)
    requires max > 0
    ensures buffer == NameField(compName, max)
  {
    buffer := [];
    var k := 0;
    while k < max
      invariant 0 <= k <= max
      invariant |buffer| == k
      invariant forall i :: 0 <= i < k ==> buffer[i] == 0
    {
      buffer := buffer + [0];
      k := k + 1;
    }
    if compName.Some? && CLength(compName.value) > 0 {
      var src := compName.value;
      var n := max - 1;
      var i := 0;
      while i < n && i < |src| && src[i] != 0
        invariant 0 <= i <= n && i <= CLength(src)
        invariant |buffer| == max
        invariant forall j :: 0 <= j < i ==> buffer[j] == src[j]
        invariant forall j :: i <= j < max ==> buffer[j] == 0
      {
        buffer := buffer[i := src[i]];
        i := i + 1;
      }
      assert i == Min(CLength(src), n);
      while i < n
        invariant 0 <= i <= n
        invariant |buffer| == max
        invariant forall j :: 0 <= j < Min(CLength(src), n) ==> buffer[j] == src[j]
        invariant forall j :: Min(CLength(src), n) <= j < max ==> buffer[j] == 0
      {
        buffer := buffer[i := 0];
        i := i + 1;
      }
    }
  }

  /** The field always ends in a NUL, so the engine reads back a terminated string: the
      name cut to `max - 1` bytes, nothing for a null or empty name. A name shorter than
      the field comes back whole. */
  lemma {:induction false} NameFieldReadsBack(name: Option<Bytes>, max: nat)
    requires max > 0
    ensures NameField(name, max)[max - 1] == 0
    ensures name.None? ==> CString(NameField(name, max)) == []
    ensures name.Some? ==> CString(NameField(name, max)) == name.value[..Min(CLength(name.value), max - 1)]
    ensures name.Some? && CLength(name.value) < max ==> CString(NameField(name, max)) == name.value[..CLength(name.value)]
  {
    var f := NameField(name, max);
    var n := if name.Some? then Min(CLength(name.value), max - 1) else 0;
    assert forall i :: 0 <= i < n ==> f[i] != 0;
    assert f[n] == 0;
    CLengthOf(f, n);
    if name.Some? {
      assert f[..n] == name.value[..n];
    }
  }

  /** `strlen` of a buffer is the position of its first NUL. */
  lemma {:induction false} CLengthOf(s: Bytes, n: nat)
    requires n < |s| && s[n] == 0
    requires forall i :: 0 <= i < n ==> s[i] != 0
    ensures CLength(s) == n
    decreases n
  {
    if n > 0 {
      CLengthOf(s[1..], n - 1);
    }
  }
}
