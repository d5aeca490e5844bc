/** `Transaction.java`: a transaction handle and its freed flag. Every operation but
    `free` and `close` first refuses a freed transaction, then checks its arguments in
    the order the source writes them, then calls the native once. */
module Transactions {
  import opened Primitives
  import opened Outcomes
  import opened Natives
  import ColumnFamilies
  import Iterators

  datatype Transaction = Transaction(handle: Int64, freed: bool)

  /** The package-private constructor wraps the handle `beginTransaction` obtained. */
  function NewTransaction(handle: Int64): (t: Transaction)
    ensures t.handle == handle && !t.freed
  {
    Transaction(handle, false)
  }

  const TXN_FREED: string := "Transaction has been freed"
  const CF_NULL: string := "Column family cannot be null"
  const KEY_NULL: string := "Key cannot be null"
  const VALUE_NULL: string := "Value cannot be null"
  const SAVEPOINT_EMPTY: string := "Savepoint name cannot be null or empty"

  /** The ttl the three-argument `put` passes: the entry never expires. */
  const NO_EXPIRY: Int64 := -1

  /** `checkNotFreed()`, the first guard of every checked operation. */
  function NotFreed(t: Transaction): Check
  {
    Check(!t.freed, IllegalState(TXN_FREED))
  }

  function CfPresent(cf: Option<ColumnFamilies.ColumnFamily>): Check
  {
    Check(cf.Some?, IllegalArgument(CF_NULL))
  }

  function KeyPresent(key: Option<Bytes>): Check
  {
    Check(key.Some?, IllegalArgument(KEY_NULL))
  }

  /** `put(cf, key, value, ttl)`: freed, then column family, then key, then value must be
      non-null; an empty key or value is passed on. */
  function Put(t: Transaction, cf: Option<ColumnFamilies.ColumnFamily>, key: Option<Bytes>, value: Option<Bytes>,
               ttl: Int64, reply: NativeReply<()>): (e: Effect<()>)
    ensures t.freed ==> Rejected(e, IllegalState(TXN_FREED))
    ensures !t.freed && cf.None? ==> Rejected(e, IllegalArgument(CF_NULL))
    ensures !t.freed && cf.Some? && key.None? ==> Rejected(e, IllegalArgument(KEY_NULL))
    ensures !t.freed && cf.Some? && key.Some? && value.None? ==> Rejected(e, IllegalArgument(VALUE_NULL))
    ensures !t.freed && cf.Some? && key.Some? && value.Some? ==>
              Forwarded(e, TxnPut(t.handle, cf.value.handle, key.value, value.value, ttl), reply)
  {
    var checks := [NotFreed(t), CfPresent(cf), KeyPresent(key), Check(value.Some?, IllegalArgument(VALUE_NULL))];
    match FirstFailure(checks)
    case Some(f) =>
      assert checks[1] == CfPresent(cf) && checks[2] == KeyPresent(key) && checks[3].holds == value.Some?;
      Reject(f)
    case None =>
      assert checks[1].holds && checks[2].holds && checks[3].holds;
      Invoke(TxnPut(t.handle, cf.value.handle, key.value, value.value, ttl), reply)
  }

  /** `put(cf, key, value)`: the four-argument form with no expiry. */
  function PutNoExpiry(t: Transaction, cf: Option<ColumnFamilies.ColumnFamily>, key: Option<Bytes>, value: Option<Bytes>,
                       reply: NativeReply<()>): (e: Effect<()>)
    ensures t.freed ==> Rejected(e, IllegalState(TXN_FREED))
    ensures !t.freed && cf.None? ==> Rejected(e, IllegalArgument(CF_NULL))
    ensures !t.freed && cf.Some? && key.None? ==> Rejected(e, IllegalArgument(KEY_NULL))
    ensures !t.freed && cf.Some? && key.Some? && value.None? ==> Rejected(e, IllegalArgument(VALUE_NULL))
    ensures !t.freed && cf.Some? && key.Some? && value.Some? ==>
              Forwarded(e, TxnPut(t.handle, cf.value.handle, key.value, value.value, -1), reply)
  {
    Put(t, cf, key, value, NO_EXPIRY, reply)
  }

  /** `get(cf, key)`: freed, then column family, then key. */
  function Get(t: Transaction, cf: Option<ColumnFamilies.ColumnFamily>, key: Option<Bytes>, reply: NativeReply<Bytes>): (e: Effect<Bytes>)
    ensures t.freed ==> Rejected(e, IllegalState(TXN_FREED))
    ensures !t.freed && cf.None? ==> Rejected(e, IllegalArgument(CF_NULL))
    ensures !t.freed && cf.Some? && key.None? ==> Rejected(e, IllegalArgument(KEY_NULL))
    ensures !t.freed && cf.Some? && key.Some? ==> Forwarded(e, TxnGet(t.handle, cf.value.handle, key.value), reply)
  {
    var checks := [NotFreed(t), CfPresent(cf), KeyPresent(key)];
    match FirstFailure(checks)
    case Some(f) =>
      assert checks[1] == CfPresent(cf) && checks[2] == KeyPresent(key);
      Reject(f)
    case None =>
      assert checks[1].holds && checks[2].holds;
      Invoke(TxnGet(t.handle, cf.value.handle, key.value), reply)
  }

  /** `delete(cf, key)`: freed, then column family, then key. */
  function Delete(t: Transaction, cf: Option<ColumnFamilies.ColumnFamily>, key: Option<Bytes>, reply: NativeReply<()>): (e: Effect<()>)
    ensures t.freed ==> Rejected(e, IllegalState(TXN_FREED))
    ensures !t.freed && cf.None? ==> Rejected(e, IllegalArgument(CF_NULL))
    ensures !t.freed && cf.Some? && key.None? ==> Rejected(e, IllegalArgument(KEY_NULL))
    ensures !t.freed && cf.Some? && key.Some? ==> Forwarded(e, TxnDelete(t.handle, cf.value.handle, key.value), reply)
  {
    var checks := [NotFreed(t), CfPresent(cf), KeyPresent(key)];
    match FirstFailure(checks)
    case Some(f) =>
      assert checks[1] == CfPresent(cf) && checks[2] == KeyPresent(key);
      Reject(f)
    case None =>
      assert checks[1].holds && checks[2].holds;
      Invoke(TxnDelete(t.handle, cf.value.handle, key.value), reply)
  }

  /** An operation that only checks the freed flag and forwards to the native. */
  function Checked<T>(t: Transaction, call: NativeCall, reply: NativeReply<T>): (e: Effect<T>)
    ensures t.freed ==> e.calls == [] && e.outcome == Threw(IllegalState(TXN_FREED))
    ensures !t.freed ==> e.calls == [call] && e.outcome == reply.Propagate()
  {
    match FirstFailure([NotFreed(t)])
    case Some(f) => Reject(f)
    case None => Invoke(call, reply)
  }

  function Commit(t: Transaction, reply: NativeReply<()>): (e: Effect<()>)
    ensures t.freed ==> Rejected(e, IllegalState(TXN_FREED))
    ensures !t.freed ==> Forwarded(e, TxnCommit(t.handle), reply)
  {
    Checked(t, TxnCommit(t.handle), reply)
  }

  function Rollback(t: Transaction, reply: NativeReply<()>): (e: Effect<()>)
    ensures t.freed ==> Rejected(e, IllegalState(TXN_FREED))
    ensures !t.freed ==> Forwarded(e, TxnRollback(t.handle), reply)
  {
    Checked(t, TxnRollback(t.handle), reply)
  }

  /** The three savepoint operations share their guards: freed, then a non-empty name. */
  function Named(t: Transaction, name: Option<string>, call: string -> NativeCall, reply: NativeReply<()>): (e: Effect<()>)
    ensures t.freed ==> Rejected(e, IllegalState(TXN_FREED))
    ensures !t.freed && !NonEmpty(name) ==> Rejected(e, IllegalArgument(SAVEPOINT_EMPTY))
    ensures !t.freed && NonEmpty(name) ==> Forwarded(e, call(name.value), reply)
  {
    var checks := [NotFreed(t), Check(NonEmpty(name), IllegalArgument(SAVEPOINT_EMPTY))];
    match FirstFailure(checks)
    case Some(f) => Reject(f)
    case None =>
      assert checks[1].holds;
      Invoke(call(name.value), reply)
  }

  function Savepoint(t: Transaction, name: Option<string>, reply: NativeReply<()>): (e: Effect<()>)
    ensures t.freed ==> Rejected(e, IllegalState(TXN_FREED))
    ensures !t.freed && !NonEmpty(name) ==> Rejected(e, IllegalArgument(SAVEPOINT_EMPTY))
    ensures !t.freed && NonEmpty(name) ==> Forwarded(e, TxnSavepoint(t.handle, name.value), reply)
  {
    Named(t, name, n => TxnSavepoint(t.handle, n), reply)
  }

  function RollbackToSavepoint(t: Transaction, name: Option<string>, reply: NativeReply<()>): (e: Effect<()>)
    ensures t.freed ==> Rejected(e, IllegalState(TXN_FREED))
    ensures !t.freed && !NonEmpty(name) ==> Rejected(e, IllegalArgument(SAVEPOINT_EMPTY))
    ensures !t.freed && NonEmpty(name) ==> Forwarded(e, TxnRollbackToSavepoint(t.handle, name.value), reply)
  {
    Named(t, name, n => TxnRollbackToSavepoint(t.handle, n), reply)
  }

  function ReleaseSavepoint(t: Transaction, name: Option<string>, reply: NativeReply<()>): (e: Effect<()>)
    ensures t.freed ==> Rejected(e, IllegalState(TXN_FREED))
    ensures !t.freed && !NonEmpty(name) ==> Rejected(e, IllegalArgument(SAVEPOINT_EMPTY))
    ensures !t.freed && NonEmpty(name) ==> Forwarded(e, TxnReleaseSavepoint(t.handle, name.value), reply)
  {
    Named(t, name, n => TxnReleaseSavepoint(t.handle, n), reply)
  }

  /** `newIterator(cf)`: freed, then column family; the native's handle becomes a live
      iterator. */
  function NewIterator(t: Transaction, cf: Option<ColumnFamilies.ColumnFamily>, reply: NativeReply<Int64>): (e: Effect<Iterators.Iterator>)
    ensures t.freed ==> Rejected(e, IllegalState(TXN_FREED))
    ensures !t.freed && cf.None? ==> Rejected(e, IllegalArgument(CF_NULL))
    ensures !t.freed && cf.Some? ==> e.calls == [TxnNewIterator(t.handle, cf.value.handle)]
    ensures !t.freed && cf.Some? ==> (e.outcome.Returned? <==> reply.Ok?)
    ensures e.outcome.Returned? ==> e.outcome.value == Iterators.Iterator(reply.value, false)
    ensures !t.freed && cf.Some? && reply.Raised? ==> e.outcome == Threw(Native(reply.exception))
  {
    var checks := [NotFreed(t), CfPresent(cf)];
    match FirstFailure(checks)
    case Some(f) => Reject(f)
    case None =>
      assert checks[1].holds;
      var e := Invoke(TxnNewIterator(t.handle, cf.value.handle), reply);
      Effect(e.calls, e.outcome.Map(h => Iterators.NewIterator(h)))
  }

  /** `free()`: a live handle is released once, then zeroed and marked freed. A freed
      transaction, or one whose handle is already 0, is left as it is. */
  function Free(t: Transaction): (s: Step<Transaction, ()>)
    ensures s.effect.outcome == Returned(())
    ensures !t.freed && t.handle != 0 ==> s.effect.calls == [TxnFree(t.handle)] && s.next == Transaction(0, true)
    ensures t.freed || t.handle == 0 ==> s.effect.calls == [] && s.next == t
  {
    if !t.freed && t.handle != 0 then Step(Transaction(0, true), Effect([TxnFree(t.handle)], Returned(())))
    else Step(t, Effect([], Returned(())))
  }

  /** `close()`, which the source defines as `free()`. */
  function Close(t: Transaction): (s: Step<Transaction, ()>)
    ensures s.effect.outcome == Returned(())
    ensures !t.freed && t.handle != 0 ==> s.effect.calls == [TxnFree(t.handle)] && s.next == Transaction(0, true)
    ensures t.freed || t.handle == 0 ==> s.effect.calls == [] && s.next == t
  {
    Free(t)
  }

  /** The three-argument `put` is the four-argument one with ttl -1: same checks, and
      on success the same native call carrying -1. */
  lemma PutDefaultsToNoExpiry(t: Transaction, cf: Option<ColumnFamilies.ColumnFamily>, key: Option<Bytes>,
                              value: Option<Bytes>, reply: NativeReply<()>)
    ensures !t.freed && cf.Some? && key.Some? && value.Some? ==>
              PutNoExpiry(t, cf, key, value, reply).calls == [TxnPut(t.handle, cf.value.handle, key.value, value.value, -1)]
    ensures PutNoExpiry(t, cf, key, value, reply).outcome == Put(t, cf, key, value, NO_EXPIRY, reply).outcome
  {
  }

  /** Freeing twice releases the native transaction at most once, and `close` is `free`. */
  lemma FreeIdempotent(t: Transaction)
    ensures Free(Free(t).next).effect.calls == []
    ensures Free(Free(t).next).next == Free(t).next
    ensures |Free(t).effect.calls| <= 1
    ensures Close(t) == Free(t)
  {
  }

  /** Once freed, every operation other than `free` and `close` fails with IllegalState
      before any native call, whatever its arguments: the freed check comes first, so a
      null column family, key, value or savepoint name is never what is reported. */
  lemma FreedRejectsEverything(t: Transaction, cf: Option<ColumnFamilies.ColumnFamily>, key: Option<Bytes>,
                               value: Option<Bytes>, ttl: Int64, name: Option<string>,
                               unit: NativeReply<()>, bytes: NativeReply<Bytes>, handle: NativeReply<Int64>)
    requires t.freed
    ensures Rejected(Put(t, cf, key, value, ttl, unit), IllegalState(TXN_FREED))
    ensures Rejected(PutNoExpiry(t, cf, key, value, unit), IllegalState(TXN_FREED))
    ensures Rejected(Get(t, cf, key, bytes), IllegalState(TXN_FREED))
    ensures Rejected(Delete(t, cf, key, unit), IllegalState(TXN_FREED))
    ensures Rejected(Commit(t, unit), IllegalState(TXN_FREED))
    ensures Rejected(Rollback(t, unit), IllegalState(TXN_FREED))
    ensures Rejected(Savepoint(t, name, unit), IllegalState(TXN_FREED))
    ensures Rejected(RollbackToSavepoint(t, name, unit), IllegalState(TXN_FREED))
    ensures Rejected(ReleaseSavepoint(t, name, unit), IllegalState(TXN_FREED))
    ensures Rejected(NewIterator(t, cf, handle), IllegalState(TXN_FREED))
  {
  }

  /** Freeing a live transaction makes it freed, so every operation afterwards fails as
      above. A transaction whose handle is 0 is not marked freed: `free` leaves it as it
      was, and its operations still reach the native with handle 0. */
  lemma FreeThenRejects(t: Transaction, reply: NativeReply<()>)
    ensures !t.freed && t.handle != 0 ==> Free(t).next.freed
    ensures !t.freed && t.handle != 0 ==> Rejected(Commit(Free(t).next, reply), IllegalState(TXN_FREED))
    ensures !t.freed && t.handle == 0 ==> Commit(Free(t).next, reply).calls == [TxnCommit(0)]
  {
  }
}
