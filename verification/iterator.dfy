/** `TidesDBIterator.java`: an iterator handle and its freed flag. Every operation but
    `isValid`, `free` and `close` first refuses a freed iterator; the two seeks to a
    key then refuse a null or empty key; then the native is called once. */
module Iterators {
  import opened Primitives
  import opened Outcomes
  import opened Natives
  import Errors
  import Jni

  datatype Iterator = Iterator(handle: Int64, freed: bool)

  /** The package-private constructor wraps the handle `newIterator` obtained. */
  function NewIterator(handle: Int64): (it: Iterator)
    ensures it.handle == handle && !it.freed
  {
    Iterator(handle, false)
  }

  const ITERATOR_FREED: string := "Iterator has been freed"
  const KEY_EMPTY: string := "Key cannot be null or empty"

  /** `checkNotFreed()`, the first guard of every checked operation. */
  function NotFreed(it: Iterator): Check
  {
    Check(!it.freed, IllegalState(ITERATOR_FREED))
  }

  /** An operation that only checks the freed flag and forwards to the native. */
  function Checked<T>(it: Iterator, call: NativeCall, reply: NativeReply<T>): (e: Effect<T>)
    ensures it.freed ==> e.calls == [] && e.outcome == Threw(IllegalState(ITERATOR_FREED))
    ensures !it.freed ==> e.calls == [call] && e.outcome == reply.Propagate()
  {
    match FirstFailure([NotFreed(it)])
    case Some(f) => Reject(f)
    case None => Invoke(call, reply)
  }

  function SeekToFirst(it: Iterator, reply: NativeReply<()>): (e: Effect<()>)
    ensures it.freed ==> Rejected(e, IllegalState(ITERATOR_FREED))
    ensures !it.freed ==> Forwarded(e, IterSeekToFirst(it.handle), reply)
  {
    Checked(it, IterSeekToFirst(it.handle), reply)
  }

  function SeekToLast(it: Iterator, reply: NativeReply<()>): (e: Effect<()>)
    ensures it.freed ==> Rejected(e, IllegalState(ITERATOR_FREED))
    ensures !it.freed ==> Forwarded(e, IterSeekToLast(it.handle), reply)
  {
    Checked(it, IterSeekToLast(it.handle), reply)
  }

  /** The two keyed seeks share their guards: freed first, then the key. */
  function KeyedSeek(it: Iterator, key: Option<Bytes>, call: Bytes -> NativeCall, reply: NativeReply<()>): (e: Effect<()>)
    ensures it.freed ==> Rejected(e, IllegalState(ITERATOR_FREED))
    ensures !it.freed && !NonEmptyBytes(key) ==> Rejected(e, IllegalArgument(KEY_EMPTY))
    ensures !it.freed && NonEmptyBytes(key) ==> Forwarded(e, call(key.value), reply)
  {
    var checks := [NotFreed(it), Check(NonEmptyBytes(key), IllegalArgument(KEY_EMPTY))];
    match FirstFailure(checks)
    case Some(f) => Reject(f)
    case None =>
      assert checks[0].holds && checks[1].holds;
      Invoke(call(key.value), reply)
  }

  /** `seek(key)`: positions at the first key at or after `key`. */
  function Seek(it: Iterator, key: Option<Bytes>, reply: NativeReply<()>): (e: Effect<()>)
    ensures it.freed ==> Rejected(e, IllegalState(ITERATOR_FREED))
    ensures !it.freed && !NonEmptyBytes(key) ==> Rejected(e, IllegalArgument(KEY_EMPTY))
    ensures !it.freed && NonEmptyBytes(key) ==> Forwarded(e, IterSeek(it.handle, key.value), reply)
  {
    KeyedSeek(it, key, k => IterSeek(it.handle, k), reply)
  }

  /** `seekForPrev(key)`: positions at the last key at or before `key`. */
  function SeekForPrev(it: Iterator, key: Option<Bytes>, reply: NativeReply<()>): (e: Effect<()>)
    ensures it.freed ==> Rejected(e, IllegalState(ITERATOR_FREED))
    ensures !it.freed && !NonEmptyBytes(key) ==> Rejected(e, IllegalArgument(KEY_EMPTY))
    ensures !it.freed && NonEmptyBytes(key) ==> Forwarded(e, IterSeekForPrev(it.handle, key.value), reply)
  {
    KeyedSeek(it, key, k => IterSeekForPrev(it.handle, k), reply)
  }

  /** `isValid()`: a freed iterator is simply not valid, without asking the native;
      otherwise the native's answer, which never raises. */
  function IsValid(it: Iterator, valid: bool): (e: Effect<bool>)
    ensures it.freed ==> e.calls == [] && e.outcome == Returned(false)
    ensures !it.freed ==> e.calls == [IterValid(it.handle)] && e.outcome == Returned(valid)
  {
    if it.freed then Effect([], Returned(false))
    else Invoke(IterValid(it.handle), Ok(valid))
  }

  function Next(it: Iterator, reply: NativeReply<()>): (e: Effect<()>)
    ensures it.freed ==> Rejected(e, IllegalState(ITERATOR_FREED))
    ensures !it.freed ==> Forwarded(e, IterNext(it.handle), reply)
  {
    Checked(it, IterNext(it.handle), reply)
  }

  function Prev(it: Iterator, reply: NativeReply<()>): (e: Effect<()>)
    ensures it.freed ==> Rejected(e, IllegalState(ITERATOR_FREED))
    ensures !it.freed ==> Forwarded(e, IterPrev(it.handle), reply)
  {
    Checked(it, IterPrev(it.handle), reply)
  }

  function Key(it: Iterator, reply: NativeReply<Bytes>): (e: Effect<Bytes>)
    ensures it.freed ==> Rejected(e, IllegalState(ITERATOR_FREED))
    ensures !it.freed ==> Forwarded(e, IterKey(it.handle), reply)
  {
    Checked(it, IterKey(it.handle), reply)
  }

  function Value(it: Iterator, reply: NativeReply<Bytes>): (e: Effect<Bytes>)
    ensures it.freed ==> Rejected(e, IllegalState(ITERATOR_FREED))
    ensures !it.freed ==> Forwarded(e, IterValue(it.handle), reply)
  {
    Checked(it, IterValue(it.handle), reply)
  }

  /** `free()`: a live handle is released once, then zeroed and marked freed. A freed
      iterator, or one whose handle is already 0, is left as it is. */
  function Free(it: Iterator): (s: Step<Iterator, ()>)
    ensures s.effect.outcome == Returned(())
    ensures !it.freed && it.handle != 0 ==> s.effect.calls == [IterFree(it.handle)] && s.next == Iterator(0, true)
    ensures it.freed || it.handle == 0 ==> s.effect.calls == [] && s.next == it
  {
    if !it.freed && it.handle != 0 then Step(Iterator(0, true), Effect([IterFree(it.handle)], Returned(())))
    else Step(it, Effect([], Returned(())))
  }

  /** `close()` is `free()`. */
  function Close(it: Iterator): (s: Step<Iterator, ()>)
    ensures s.effect.outcome == Returned(())
    ensures !it.freed && it.handle != 0 ==> s.effect.calls == [IterFree(it.handle)] && s.next == Iterator(0, true)
    ensures it.freed || it.handle == 0 ==> s.effect.calls == [] && s.next == it
  {
    Free(it)
  }

  /** Freeing twice releases the native iterator at most once: the second `free` (or
      `close`) issues no call and changes nothing. */
  lemma FreeIdempotent(it: Iterator)
    ensures Free(Free(it).next).effect.calls == []
    ensures Free(Free(it).next).next == Free(it).next
    ensures |Free(it).effect.calls| <= 1
    ensures Close(it) == Free(it)
  {
  }

  /** Once freed, every checked operation fails with IllegalState before any native call,
      whatever its arguments, a null or empty seek key included, and `isValid` is false. */
  lemma FreedRejectsEverything(it: Iterator, key: Option<Bytes>, valid: bool,
                               unit: NativeReply<()>, bytes: NativeReply<Bytes>)
    requires it.freed
    ensures Rejected(SeekToFirst(it, unit), IllegalState(ITERATOR_FREED))
    ensures Rejected(SeekToLast(it, unit), IllegalState(ITERATOR_FREED))
    ensures Rejected(Seek(it, key, unit), IllegalState(ITERATOR_FREED))
    ensures Rejected(SeekForPrev(it, key, unit), IllegalState(ITERATOR_FREED))
    ensures Rejected(Next(it, unit), IllegalState(ITERATOR_FREED))
    ensures Rejected(Prev(it, unit), IllegalState(ITERATOR_FREED))
    ensures Rejected(Key(it, bytes), IllegalState(ITERATOR_FREED))
    ensures Rejected(Value(it, bytes), IllegalState(ITERATOR_FREED))
    ensures IsValid(it, valid) == Effect([], Returned(false))
  {
  }

  /** Freeing a live iterator makes it freed, so all of the above then applies. A handle
      of 0 is the exception: `free` leaves such an iterator unfreed and usable. */
  lemma FreeThenRejects(it: Iterator)
    ensures !it.freed && it.handle != 0 ==> Free(it).next.freed
    ensures !it.freed && it.handle == 0 ==> !Free(it).next.freed
  {
  }

  /** Through the C layer's movement filter, `next()` and `prev()` on a live iterator
      return normally at either end of the data (NOT_FOUND) and throw, with the status
      as code, on every other failing status. */
  lemma MoveAtEnds(it: Iterator, status: Int32)
    ensures Next(it, Jni.MoveReply(status)).outcome.Returned?
            <==> !it.freed && (status == Errors.ERR_SUCCESS || status == Errors.ERR_NOT_FOUND)
    ensures Prev(it, Jni.MoveReply(status)).outcome.Returned?
            <==> !it.freed && (status == Errors.ERR_SUCCESS || status == Errors.ERR_NOT_FOUND)
    ensures !it.freed && Next(it, Jni.MoveReply(status)).outcome.Threw? ==>
              Next(it, Jni.MoveReply(status)).outcome.failure == Native(Jni.StatusException(status))
    ensures !it.freed && Prev(it, Jni.MoveReply(status)).outcome.Threw? ==>
              Prev(it, Jni.MoveReply(status)).outcome.failure == Native(Jni.StatusException(status))
  {
  }
}
