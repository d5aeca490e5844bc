/** `TidesDB.java`: the database handle and its closed flag. `open` validates the
    configuration before the native open; every other operation but `close` first
    refuses a closed instance, then checks its arguments in source order, then calls
    the native once. */
module Databases {
  import opened Primitives
  import opened Outcomes
  import opened Natives
  import DbConfig
  import CfConfig
  import Compression
  import LogLevels
  import Modes
  import ColumnFamilies
  import Transactions
  import Errors
  import Jni

  datatype Database = Database(handle: Int64, closed: bool)

  const CONFIG_NULL: string := "Config cannot be null"
  const PATH_EMPTY: string := "Database path cannot be null or empty"
  const DB_CLOSED: string := "TidesDB instance is closed"
  const CF_NAME_EMPTY: string := "Column family name cannot be null or empty"
  const CF_CONFIG_NULL: string := "Column family config cannot be null"
  const ISOLATION_NULL: string := "Isolation level cannot be null"
  const COMPARATOR_EMPTY: string := "Comparator name cannot be null or empty"
  const BACKUP_DIR_EMPTY: string := "Backup directory cannot be null or empty"
  const OLD_NAME_EMPTY: string := "Old column family name cannot be null or empty"
  const NEW_NAME_EMPTY: string := "New column family name cannot be null or empty"

  /** `TidesDB.open(config)`: a null configuration, then a null or empty path, are
      refused; a configuration without a log level throws from
      `getLogLevel().getValue()` before the call. Otherwise the native open receives the
      path, thread counts, the log level's wire value and the two sizes, and its handle
      becomes an open instance. */
  function Open(config: Option<DbConfig.Config>, reply: NativeReply<Int64>): (e: Effect<Database>)
    ensures config.None? ==> Rejected(e, IllegalArgument(CONFIG_NULL))
    ensures config.Some? && !NonEmpty(config.value.dbPath) ==> Rejected(e, IllegalArgument(PATH_EMPTY))
    ensures config.Some? && NonEmpty(config.value.dbPath) && config.value.logLevel.None? ==> Rejected(e, NullPointer)
    ensures config.Some? && NonEmpty(config.value.dbPath) && config.value.logLevel.Some? ==>
              var c := config.value;
              && e.calls == [DbOpen(c.dbPath.value, c.numFlushThreads, c.numCompactionThreads,
                                    LogLevels.GetValue(c.logLevel.value), c.blockCacheSize, c.maxOpenSSTables)]
              && (e.outcome.Returned? <==> reply.Ok?)
              && (reply.Ok? ==> e.outcome.value == Database(reply.value, false))
              && (reply.Raised? ==> e.outcome == Threw(Native(reply.exception)))
  {
    var checks := [Check(config.Some?, IllegalArgument(CONFIG_NULL)),
                   Check(config.Some? && NonEmpty(config.value.dbPath), IllegalArgument(PATH_EMPTY)),
                   Check(config.Some? && config.value.logLevel.Some?, NullPointer)];
    match FirstFailure(checks)
    case Some(f) =>
      assert checks[1].holds == (config.Some? && NonEmpty(config.value.dbPath));
      assert checks[2].holds == (config.Some? && config.value.logLevel.Some?);
      Reject(f)
    case None =>
      assert checks[1].holds && checks[2].holds;
      var c := config.value;
      var e := Invoke(DbOpen(c.dbPath.value, c.numFlushThreads, c.numCompactionThreads,
                             LogLevels.GetValue(c.logLevel.value), c.blockCacheSize, c.maxOpenSSTables), reply);
      Effect(e.calls, e.outcome.Map(h => Database(h, false)))
  }

  /** `close()`: a live handle is closed once, then zeroed and marked closed. A closed
      instance, or one whose handle is 0, is left as it is. */
  function Close(db: Database): (s: Step<Database, ()>)
    ensures s.effect.outcome == Returned(())
    ensures !db.closed && db.handle != 0 ==> s.effect.calls == [DbClose(db.handle)] && s.next == Database(0, true)
    ensures db.closed || db.handle == 0 ==> s.effect.calls == [] && s.next == db
  {
    if !db.closed && db.handle != 0 then Step(Database(0, true), Effect([DbClose(db.handle)], Returned(())))
    else Step(db, Effect([], Returned(())))
  }

  /** `checkNotClosed()`, the first guard of every operation but `close`. */
  function NotClosed(db: Database): Check
  {
    Check(!db.closed, IllegalState(DB_CLOSED))
  }

  /** An operation whose guards are the closed check and one non-empty string argument. */
  function WithName<T>(db: Database, name: Option<string>, message: string, call: string -> NativeCall,
                       reply: NativeReply<T>): (e: Effect<T>)
    ensures db.closed ==> e.calls == [] && e.outcome == Threw(IllegalState(DB_CLOSED))
    ensures !db.closed && !NonEmpty(name) ==> e.calls == [] && e.outcome == Threw(IllegalArgument(message))
    ensures !db.closed && NonEmpty(name) ==> e.calls == [call(name.value)] && e.outcome == reply.Propagate()
  {
    var checks := [NotClosed(db), Check(NonEmpty(name), IllegalArgument(message))];
    match FirstFailure(checks)
    case Some(f) => Reject(f)
    case None =>
      assert checks[1].holds;
      Invoke(call(name.value), reply)
  }

  /** An operation whose only guard is the closed check. */
  function Checked<T>(db: Database, call: NativeCall, reply: NativeReply<T>): (e: Effect<T>)
    ensures db.closed ==> e.calls == [] && e.outcome == Threw(IllegalState(DB_CLOSED))
    ensures !db.closed ==> e.calls == [call] && e.outcome == reply.Propagate()
  {
    match FirstFailure([NotClosed(db)])
    case Some(f) => Reject(f)
    case None => Invoke(call, reply)
  }

  /** The configuration has every enum setting `createColumnFamily` dereferences. */
  predicate EnumsPresent(c: CfConfig.ColumnFamilyConfig)
  {
    c.compressionAlgorithm.Some? && c.syncMode.Some? && c.defaultIsolationLevel.Some?
  }

  /** `createColumnFamily(name, config)`: closed, then name, then configuration; the
      compression, sync-mode and isolation getters are dereferenced for their wire values,
      so a null one throws before the call. All twenty settings are forwarded, the
      compression as its wire value. */
  function CreateColumnFamily(db: Database, name: Option<string>, config: Option<CfConfig.ColumnFamilyConfig>,
                              reply: NativeReply<()>): (e: Effect<()>)
    ensures db.closed ==> Rejected(e, IllegalState(DB_CLOSED))
    ensures !db.closed && !NonEmpty(name) ==> Rejected(e, IllegalArgument(CF_NAME_EMPTY))
    ensures !db.closed && NonEmpty(name) && config.None? ==> Rejected(e, IllegalArgument(CF_CONFIG_NULL))
    ensures !db.closed && NonEmpty(name) && config.Some? && !EnumsPresent(config.value) ==> Rejected(e, NullPointer)
    ensures !db.closed && NonEmpty(name) && config.Some? && EnumsPresent(config.value) ==>
              Forwarded(e, DbCreateColumnFamily(db.handle, name.value, config.value,
                                                Compression.GetValue(config.value.compressionAlgorithm.value)), reply)
  {
    var checks := [NotClosed(db), Check(NonEmpty(name), IllegalArgument(CF_NAME_EMPTY)),
                   Check(config.Some?, IllegalArgument(CF_CONFIG_NULL)),
                   Check(config.Some? && EnumsPresent(config.value), NullPointer)];
    match FirstFailure(checks)
    case Some(f) =>
      assert checks[1].holds == NonEmpty(name) && checks[2].holds == config.Some?;
      assert checks[3].holds == (config.Some? && EnumsPresent(config.value));
      Reject(f)
    case None =>
      assert checks[1].holds && checks[2].holds && checks[3].holds;
      Invoke(DbCreateColumnFamily(db.handle, name.value, config.value,
                                  Compression.GetValue(config.value.compressionAlgorithm.value)), reply)
  }

  function DropColumnFamily(db: Database, name: Option<string>, reply: NativeReply<()>): (e: Effect<()>)
    ensures db.closed ==> Rejected(e, IllegalState(DB_CLOSED))
    ensures !db.closed && !NonEmpty(name) ==> Rejected(e, IllegalArgument(CF_NAME_EMPTY))
    ensures !db.closed && NonEmpty(name) ==> Forwarded(e, DbDropColumnFamily(db.handle, name.value), reply)
  {
    WithName(db, name, CF_NAME_EMPTY, n => DbDropColumnFamily(db.handle, n), reply)
  }

  /** `getColumnFamily(name)`: the native's handle is wrapped together with the name
      the caller asked for. */
  function GetColumnFamily(db: Database, name: Option<string>, reply: NativeReply<Int64>): (e: Effect<ColumnFamilies.ColumnFamily>)
    ensures db.closed ==> Rejected(e, IllegalState(DB_CLOSED))
    ensures !db.closed && !NonEmpty(name) ==> Rejected(e, IllegalArgument(CF_NAME_EMPTY))
    ensures !db.closed && NonEmpty(name) ==> e.calls == [DbGetColumnFamily(db.handle, name.value)]
    ensures !db.closed && NonEmpty(name) ==> (e.outcome.Returned? <==> reply.Ok?)
    ensures !db.closed && NonEmpty(name) && reply.Raised? ==> e.outcome == Threw(Native(reply.exception))
    ensures e.outcome.Returned? ==> e.outcome.value == ColumnFamilies.NewColumnFamily(reply.value, name)
  {
    var e := WithName(db, name, CF_NAME_EMPTY, n => DbGetColumnFamily(db.handle, n), reply);
    Effect(e.calls, e.outcome.Map(h => ColumnFamilies.NewColumnFamily(h, name)))
  }

  function ListColumnFamilies(db: Database, reply: NativeReply<seq<string>>): (e: Effect<seq<string>>)
    ensures db.closed ==> Rejected(e, IllegalState(DB_CLOSED))
    ensures !db.closed ==> Forwarded(e, DbListColumnFamilies(db.handle), reply)
  {
    Checked(db, DbListColumnFamilies(db.handle), reply)
  }

  /** `beginTransaction()`: the native's handle becomes a live transaction. */
  function BeginTransaction(db: Database, reply: NativeReply<Int64>): (e: Effect<Transactions.Transaction>)
    ensures db.closed ==> Rejected(e, IllegalState(DB_CLOSED))
    ensures !db.closed ==> e.calls == [DbBeginTransaction(db.handle)] && (e.outcome.Returned? <==> reply.Ok?)
    ensures !db.closed && reply.Raised? ==> e.outcome == Threw(Native(reply.exception))
    ensures e.outcome.Returned? ==> e.outcome.value == Transactions.Transaction(reply.value, false)
  {
    var e := Checked(db, DbBeginTransaction(db.handle), reply);
    Effect(e.calls, e.outcome.Map(h => Transactions.NewTransaction(h)))
  }

  /** `beginTransaction(isolationLevel)`: closed, then a non-null level. */
  function BeginTransactionWith(db: Database, level: Option<Modes.IsolationLevel>, reply: NativeReply<Int64>)
    : (e: Effect<Transactions.Transaction>)
    ensures db.closed ==> Rejected(e, IllegalState(DB_CLOSED))
    ensures !db.closed && level.None? ==> Rejected(e, IllegalArgument(ISOLATION_NULL))
    ensures !db.closed && level.Some? ==>
              e.calls == [DbBeginTransactionWithIsolation(db.handle, level.value)] && (e.outcome.Returned? <==> reply.Ok?)
    ensures !db.closed && level.Some? && reply.Raised? ==> e.outcome == Threw(Native(reply.exception))
    ensures e.outcome.Returned? ==> e.outcome.value == Transactions.Transaction(reply.value, false)
  {
    var checks := [NotClosed(db), Check(level.Some?, IllegalArgument(ISOLATION_NULL))];
    match FirstFailure(checks)
    case Some(f) => Reject(f)
    case None =>
      assert checks[1].holds;
      var e := Invoke(DbBeginTransactionWithIsolation(db.handle, level.value), reply);
      Effect(e.calls, e.outcome.Map(h => Transactions.NewTransaction(h)))
  }

  /** `getCacheStats()`: the block-cache statistics object is the native's. */
  function GetCacheStats<C(==)>(db: Database, reply: NativeReply<C>): (e: Effect<C>)
    ensures db.closed ==> Rejected(e, IllegalState(DB_CLOSED))
    ensures !db.closed ==> Forwarded(e, DbGetCacheStats(db.handle), reply)
  {
    Checked(db, DbGetCacheStats(db.handle), reply)
  }

  /** `registerComparator(name, context)`: the name must be non-empty; the context may
      be null and is passed on as it is. */
  function RegisterComparator(db: Database, name: Option<string>, context: Option<string>, reply: NativeReply<()>)
    : (e: Effect<()>)
    ensures db.closed ==> Rejected(e, IllegalState(DB_CLOSED))
    ensures !db.closed && !NonEmpty(name) ==> Rejected(e, IllegalArgument(COMPARATOR_EMPTY))
    ensures !db.closed && NonEmpty(name) ==> Forwarded(e, DbRegisterComparator(db.handle, name.value, context), reply)
  {
    WithName(db, name, COMPARATOR_EMPTY, n => DbRegisterComparator(db.handle, n, context), reply)
  }

  function Backup(db: Database, dir: Option<string>, reply: NativeReply<()>): (e: Effect<()>)
    ensures db.closed ==> Rejected(e, IllegalState(DB_CLOSED))
    ensures !db.closed && !NonEmpty(dir) ==> Rejected(e, IllegalArgument(BACKUP_DIR_EMPTY))
    ensures !db.closed && NonEmpty(dir) ==> Forwarded(e, DbBackup(db.handle, dir.value), reply)
  {
    WithName(db, dir, BACKUP_DIR_EMPTY, d => DbBackup(db.handle, d), reply)
  }

  /** `renameColumnFamily(oldName, newName)`: closed, then the old name, then the new. */
  function RenameColumnFamily(db: Database, oldName: Option<string>, newName: Option<string>, reply: NativeReply<()>)
    : (e: Effect<()>)
    ensures db.closed ==> Rejected(e, IllegalState(DB_CLOSED))
    ensures !db.closed && !NonEmpty(oldName) ==> Rejected(e, IllegalArgument(OLD_NAME_EMPTY))
    ensures !db.closed && NonEmpty(oldName) && !NonEmpty(newName) ==> Rejected(e, IllegalArgument(NEW_NAME_EMPTY))
    ensures !db.closed && NonEmpty(oldName) && NonEmpty(newName) ==>
              Forwarded(e, DbRenameColumnFamily(db.handle, oldName.value, newName.value), reply)
  {
    var checks := [NotClosed(db), Check(NonEmpty(oldName), IllegalArgument(OLD_NAME_EMPTY)),
                   Check(NonEmpty(newName), IllegalArgument(NEW_NAME_EMPTY))];
    match FirstFailure(checks)
    case Some(f) =>
      assert checks[1].holds == NonEmpty(oldName) && checks[2].holds == NonEmpty(newName);
      Reject(f)
    case None =>
      assert checks[1].holds && checks[2].holds;
      Invoke(DbRenameColumnFamily(db.handle, oldName.value, newName.value), reply)
  }

  /** Closing twice closes the native database at most once. */
  lemma CloseIdempotent(db: Database)
    ensures Close(Close(db).next).effect.calls == []
    ensures Close(Close(db).next).next == Close(db).next
    ensures |Close(db).effect.calls| <= 1
    ensures !db.closed && db.handle != 0 ==> Close(db).next.closed
  {
  }

  /** Once closed, every operation but `close` fails with IllegalState before any
      native call, whatever its arguments. */
  lemma ClosedRejectsEverything(db: Database, name: Option<string>, other: Option<string>,
                                config: Option<CfConfig.ColumnFamilyConfig>, level: Option<Modes.IsolationLevel>,
                                unit: NativeReply<()>, handle: NativeReply<Int64>, names: NativeReply<seq<string>>,
                                cacheStats: NativeReply<int>)
    requires db.closed
    ensures Rejected(CreateColumnFamily(db, name, config, unit), IllegalState(DB_CLOSED))
    ensures Rejected(DropColumnFamily(db, name, unit), IllegalState(DB_CLOSED))
    ensures Rejected(GetColumnFamily(db, name, handle), IllegalState(DB_CLOSED))
    ensures Rejected(ListColumnFamilies(db, names), IllegalState(DB_CLOSED))
    ensures Rejected(BeginTransaction(db, handle), IllegalState(DB_CLOSED))
    ensures Rejected(BeginTransactionWith(db, level, handle), IllegalState(DB_CLOSED))
    ensures Rejected(GetCacheStats(db, cacheStats), IllegalState(DB_CLOSED))
    ensures Rejected(RegisterComparator(db, name, other, unit), IllegalState(DB_CLOSED))
    ensures Rejected(Backup(db, name, unit), IllegalState(DB_CLOSED))
    ensures Rejected(RenameColumnFamily(db, name, other, unit), IllegalState(DB_CLOSED))
  {
  }

  /** `Config.defaultConfig()` leaves the path empty, so opening it is refused before
      the native is reached. */
  lemma OpenDefaultConfigRefused(reply: NativeReply<Int64>)
    ensures Rejected(Open(Some(DbConfig.DefaultConfig()), reply), IllegalArgument(PATH_EMPTY))
  {
    DbConfig.DefaultConfigHasEmptyPath();
  }

  /** `Config.builder(path).build()` with a non-empty path does reach the native open,
      with the builder's defaults: two flush and two compaction threads, log level INFO
      (wire value 1), a 64 MiB block cache and 256 open SSTables. */
  lemma OpenBuiltConfig(path: string, reply: NativeReply<Int64>)
    requires |path| > 0
    ensures Open(Some(DbConfig.Build(DbConfig.BuilderFor(Some(path)))), reply).calls
            == [DbOpen(path, 2, 2, 1, 67108864, 256)]
  {
    Primitives.DefaultSizesFit();
  }

  /** The default column-family configuration carries every enum setting, so creating
      a column family with it reaches the native. */
  lemma CreateWithDefaultConfig(db: Database, name: string, reply: NativeReply<()>)
    requires !db.closed && |name| > 0
    ensures CreateColumnFamily(db, Some(name), Some(CfConfig.DefaultConfig()), reply).calls
            == [DbCreateColumnFamily(db.handle, name, CfConfig.DefaultConfig(), 1)]
  {
    var c := CfConfig.DefaultConfig();
    assert EnumsPresent(c);
    assert Compression.GetValue(c.compressionAlgorithm.value) == 1;
  }

  /** Through the C lookup, asking for a column family the engine does not have throws
      a TidesDBException with code NOT_FOUND and the message "Column family not found",
      after exactly one native call. */
  lemma GetMissingColumnFamily(db: Database, name: string)
    requires !db.closed && |name| > 0
    ensures GetColumnFamily(db, Some(name), Jni.LookupReply(None)).calls == [DbGetColumnFamily(db.handle, name)]
    ensures GetColumnFamily(db, Some(name), Jni.LookupReply(None)).outcome
            == Threw(Native(Errors.WithCode(Jni.CF_NOT_FOUND, Errors.ERR_NOT_FOUND)))
  {
  }

  /** The column family `getColumnFamily(n)` returns reports `n` as its name. */
  lemma GetColumnFamilyKeepsName(db: Database, name: string, handle: Int64)
    requires !db.closed && |name| > 0
    ensures GetColumnFamily(db, Some(name), Ok(handle)).outcome.Returned?
    ensures ColumnFamilies.GetName(GetColumnFamily(db, Some(name), Ok(handle)).outcome.value) == Some(name)
  {
  }
}
