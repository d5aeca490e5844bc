/** The boundary between the Java classes and the native library. A native method is
    not code this model can see: each Java operation is described by the native calls
    it issues, in order, and by how it ends, given what the native replied. */
module Natives {
  import opened Primitives
  import opened Outcomes
  import Modes
  import CfConfig

  /** A commit hook object handed to the native layer; only its identity matters here. */
  datatype CommitHook = CommitHook(id: nat)

  /** The seven settings `updateRuntimeConfig` forwards, in the order it passes them.
      The sync mode is the configuration's constant; its wire value is not modelled. */
  datatype RuntimeSettings = RuntimeSettings(
    writeBufferSize: Int64,
    skipListMaxLevel: Int32,
    skipListProbability: real,
    bloomFPR: real,
    indexSampleRatio: Int32,
    syncMode: Modes.SyncMode,
    syncIntervalUs: Int64)

  /** Every `private static native` method of `TidesDB`, `ColumnFamily`, `Transaction`
      and `TidesDBIterator`, with the arguments the Java side passes. */
  datatype NativeCall =
    // TidesDB
    | DbOpen(dbPath: string, numFlushThreads: Int32, numCompactionThreads: Int32, logLevel: Int32,
             blockCacheSize: Int64, maxOpenSSTables: Int64)
    | DbClose(db: Int64)
    | DbCreateColumnFamily(db: Int64, name: string, cfConfig: CfConfig.ColumnFamilyConfig, compression: Int32)
    | DbDropColumnFamily(db: Int64, name: string)
    | DbGetColumnFamily(db: Int64, name: string)
    | DbListColumnFamilies(db: Int64)
    | DbBeginTransaction(db: Int64)
    | DbBeginTransactionWithIsolation(db: Int64, isolation: Modes.IsolationLevel)
    | DbGetCacheStats(db: Int64)
    | DbRegisterComparator(db: Int64, name: string, context: Option<string>)
    | DbBackup(db: Int64, dir: string)
    | DbRenameColumnFamily(db: Int64, oldName: string, newName: string)
    // ColumnFamily
    | CfGetStats(cf: Int64)
    | CfCompact(cf: Int64)
    | CfFlushMemtable(cf: Int64)
    | CfIsFlushing(cf: Int64)
    | CfIsCompacting(cf: Int64)
    | CfUpdateRuntimeConfig(cf: Int64, settings: RuntimeSettings, persistToDisk: bool)
    | CfRangeCost(cf: Int64, keyA: Bytes, keyB: Bytes)
    | CfSetCommitHook(cf: Int64, hook: Option<CommitHook>, oldCtx: Int64)
    // Transaction
    | TxnPut(txn: Int64, cf: Int64, key: Bytes, value: Bytes, ttl: Int64)
    | TxnGet(txn: Int64, cf: Int64, key: Bytes)
    | TxnDelete(txn: Int64, cf: Int64, key: Bytes)
    | TxnCommit(txn: Int64)
    | TxnRollback(txn: Int64)
    | TxnSavepoint(txn: Int64, name: string)
    | TxnRollbackToSavepoint(txn: Int64, name: string)
    | TxnReleaseSavepoint(txn: Int64, name: string)
    | TxnNewIterator(txn: Int64, cf: Int64)
    | TxnFree(txn: Int64)
    // TidesDBIterator
    | IterSeekToFirst(iter: Int64)
    | IterSeekToLast(iter: Int64)
    | IterSeek(iter: Int64, key: Bytes)
    | IterSeekForPrev(iter: Int64, key: Bytes)
    | IterValid(iter: Int64)
    | IterNext(iter: Int64)
    | IterPrev(iter: Int64)
    | IterKey(iter: Int64)
    | IterValue(iter: Int64)
    | IterFree(iter: Int64)

  /** What one Java operation did: the native calls it issued and how it ended. */
  datatype Effect<+T> = Effect(calls: seq<NativeCall>, outcome: Outcome<T>)

  /** An operation on a handle object that may also change the object's fields. */
  datatype Step<+S, +T> = Step(next: S, effect: Effect<T>)

  /** Rejected by a Java-side check: no native call, the check's exception. */
  predicate Rejected<T(==)>(e: Effect<T>, f: Failure)
  {
    e.calls == [] && e.outcome == Threw(f)
  }

  /** Passed every Java-side check: exactly one native call, whose reply the caller sees. */
  predicate Forwarded<T(==)>(e: Effect<T>, call: NativeCall, reply: NativeReply<T>)
  {
    e.calls == [call] && e.outcome == reply.Propagate()
  }

  function Reject<T>(f: Failure): Effect<T>
  {
    Effect([], Threw(f))
  }

  function Invoke<T>(call: NativeCall, reply: NativeReply<T>): Effect<T>
  {
    Effect([call], reply.Propagate())
  }

  /** One `if (...) throw ...` guard: the condition under which it passes and what it throws. */
  datatype Check = Check(holds: bool, failure: Failure)

  /** The position of the first guard that does not hold, or the number of guards. */
  function FirstFailing(checks: seq<Check>): (r: nat)
    ensures r <= |checks|
    ensures forall j :: 0 <= j < r ==> checks[j].holds
    ensures r < |checks| ==> !checks[r].holds
  {
    if |checks| == 0 || !checks[0].holds then 0
    else 1 + FirstFailing(checks[1..])
  }

  /** The guards at the top of a Java method, run in order: the first that does not
      hold decides the exception; when all hold, the method goes on to its native call. */
  function FirstFailure(checks: seq<Check>): (r: Option<Failure>)
    ensures r.None? <==> forall i :: 0 <= i < |checks| ==> checks[i].holds
  {
    var k := FirstFailing(checks);
    if k < |checks| then Some(checks[k].failure) else None
  }

  /** The first failing guard wins: a later guard's failure is reported only when every
      earlier guard holds, and whatever the guards after it say does not matter. */
  lemma FirstFailurePrecedence(checks: seq<Check>, k: nat)
    requires k < |checks| && !checks[k].holds
    requires forall j :: 0 <= j < k ==> checks[j].holds
    ensures FirstFailure(checks) == Some(checks[k].failure)
  {
  }
}
