# tidesdb-java binding core, modelled in Dafny

This project models the Java binding of the TidesDB storage engine. It covers the handle
classes `TidesDB`, `ColumnFamily`, `Transaction` and `TidesDBIterator`, and the
`TidesDBException` they throw. It also covers the two enum codecs (`CompressionAlgorithm`,
`LogLevel`), the two configuration builders (`ColumnFamilyConfig`, `Config`),
`Stats.toString`, and the binding's own logic in the JNI layer `com_tidesdb_TidesDB.c`.

The engine behind the native methods is not code here. Each Java operation is a pure
function that returns an `Effect`: the native calls the operation issues, in order,
together with its outcome. The outcome is a returned value or a thrown `Failure`:
`IllegalState`, `IllegalArgument`, `NullPointer` or a `TidesDBException`. What the native
would answer is a parameter (`NativeReply`: a value or a raised exception). This lets each
contract say exactly which guard fires first, that a refused call reaches no native code
(`calls == []`), and what is forwarded when every guard passes. Java `null` is `Option`.
A handle object that changes state (`free`, `close`, the commit-hook context) returns a
`Step` holding its next state.

Modules, one per source concept:

- `Primitives`: Java integer widths, bytes, `Option`, the null-or-empty checks.
- `Decimal`: `Long.toString` and a reader for it.
- `Errors`: the `ERR_*` codes and `TidesDBException`.
- `Outcomes`: Java-level outcomes and native replies.
- `EnumLookup`, `Compression`, `LogLevels`: the enum codecs.
- `Modes`, `CfConfig`, `DbConfig`: the configurations and their builders.
- `StatsModel`: `Stats` and its `toString`.
- `Natives`: the native-call alphabet, and guard chains evaluated in source order.
- `Jni`: the C layer's status handling and comparator-name copy.
- `ColumnFamilies`, `Iterators`, `Transactions`, `Databases`: the four handle classes.

## Model

| member | source | states |
|---|---|---|
| Errors.KindOf | src/main/java/com/tidesdb/TidesDBException.java:31-43 | a code names an error kind exactly when it lies in -12..0, and the kind's code is that code |
| Errors.CodesDistinctAndDense | src/main/java/com/tidesdb/TidesDBException.java:31-43 | the thirteen error codes are pairwise distinct and fill -12..0, and decoding inverts encoding for every kind |
| Errors.WithMessage | src/main/java/com/tidesdb/TidesDBException.java:45-48 | the message-only constructor keeps the message and sets the code to ERR_UNKNOWN, with no cause |
| Errors.WithCode | src/main/java/com/tidesdb/TidesDBException.java:50-53 | the (message, code) constructor keeps both, with no cause |
| Errors.WithCause | src/main/java/com/tidesdb/TidesDBException.java:55-58 | the (message, cause) constructor keeps both and sets the code to ERR_UNKNOWN |
| Errors.WithCodeAndCause | src/main/java/com/tidesdb/TidesDBException.java:60-63 | the three-argument constructor keeps message, code and cause |
| Errors.ErrorMessage | src/main/java/com/tidesdb/TidesDBException.java:79-108 | "success" exactly for code 0; "unknown error" exactly for ERR_UNKNOWN and every code outside -12..0 |
| Errors.GetErrorCode | src/main/java/com/tidesdb/TidesDBException.java:70-72 | the code returned is the one the exception was constructed with: every exception equals the code-taking constructor applied to its message, that code and its cause |
| Errors.GetErrorMessage | src/main/java/com/tidesdb/TidesDBException.java:79-108 | the message of an exception is "success" exactly when its code is 0, and "unknown error" exactly when its code is ERR_UNKNOWN or names no error |
| Errors.MessagesDistinct | src/main/java/com/tidesdb/TidesDBException.java:79-108 | two kinds other than ERR_UNKNOWN with the same message are the same kind |
| Errors.ConstructorCodes | src/main/java/com/tidesdb/TidesDBException.java:45-108 | `getErrorCode()` returns the constructor's code, or ERR_UNKNOWN for the constructors without one; `getErrorMessage()` is the table entry for that code, for all four constructors |
| EnumLookup.FirstWithValue | src/main/java/com/tidesdb/CompressionAlgorithm.java:40-47 | the linear scan over `values()` finds a constant whose wire value is v exactly when one exists |
| Compression.WireValuesDistinct | src/main/java/com/tidesdb/CompressionAlgorithm.java:25-28 | the four algorithms have the distinct wire values 0..3 and all appear in `values()` |
| Compression.GetValue | src/main/java/com/tidesdb/CompressionAlgorithm.java:36-38 | the wire value of an algorithm is its position in `values()`, so it lies in 0..3 |
| Compression.FromValue | src/main/java/com/tidesdb/CompressionAlgorithm.java:40-47 | decoding succeeds exactly for 0..3, giving the constant with that value; any other value throws IllegalArgument with the value in decimal |
| Compression.DecodeEncode | src/main/java/com/tidesdb/CompressionAlgorithm.java:36-47 | `fromValue(getValue(a)) == a` for every algorithm |
| Compression.EncodeDecode | src/main/java/com/tidesdb/CompressionAlgorithm.java:36-47 | `getValue(fromValue(v)) == v` for every accepted v |
| LogLevels.WireValuesOrdered | src/main/java/com/tidesdb/LogLevel.java:25-30 | the levels DEBUG..NONE carry the values 0..5 in declaration order, so the values are distinct |
| LogLevels.GetValue | src/main/java/com/tidesdb/LogLevel.java:38-40 | the wire value of a level is its position in `values()`, so it lies in 0..5 |
| LogLevels.FromValue | src/main/java/com/tidesdb/LogLevel.java:42-49 | decoding succeeds exactly for 0..5; any other value throws IllegalArgument naming the value |
| LogLevels.DecodeEncode | src/main/java/com/tidesdb/LogLevel.java:38-49 | `fromValue(getValue(l)) == l` for every level |
| LogLevels.EncodeDecode | src/main/java/com/tidesdb/LogLevel.java:38-49 | `getValue(fromValue(v)) == v` for every accepted v |
| Primitives.DefaultSizesFit | src/main/java/com/tidesdb/ColumnFamilyConfig.java:134-153 | the `int` products 128, 100 and 64 MiB of the defaults do not overflow 32 bits |
| CfConfig.NewBuilder | src/main/java/com/tidesdb/ColumnFamilyConfig.java:133-153 | a fresh builder holds a 128 MiB write buffer and 100 MiB minimum disk space among its twenty defaults |
| CfConfig.SetWriteBufferSize | src/main/java/com/tidesdb/ColumnFamilyConfig.java:155-158 | the setter stores its value and leaves the other nineteen settings unchanged |
| CfConfig.SetLevelSizeRatio | src/main/java/com/tidesdb/ColumnFamilyConfig.java:160-163 | the setter stores its value and leaves the other nineteen settings unchanged |
| CfConfig.SetMinLevels | src/main/java/com/tidesdb/ColumnFamilyConfig.java:165-168 | the setter stores its value and leaves the other nineteen settings unchanged |
| CfConfig.SetDividingLevelOffset | src/main/java/com/tidesdb/ColumnFamilyConfig.java:170-173 | the setter stores its value and leaves the other nineteen settings unchanged |
| CfConfig.SetKlogValueThreshold | src/main/java/com/tidesdb/ColumnFamilyConfig.java:175-178 | the setter stores its value and leaves the other nineteen settings unchanged |
| CfConfig.SetCompressionAlgorithm | src/main/java/com/tidesdb/ColumnFamilyConfig.java:180-183 | the setter stores its value, null included, and leaves the other nineteen settings unchanged |
| CfConfig.SetEnableBloomFilter | src/main/java/com/tidesdb/ColumnFamilyConfig.java:185-188 | the setter stores its value and leaves the other nineteen settings unchanged |
| CfConfig.SetBloomFPR | src/main/java/com/tidesdb/ColumnFamilyConfig.java:190-193 | the setter stores its value and leaves the other nineteen settings unchanged |
| CfConfig.SetEnableBlockIndexes | src/main/java/com/tidesdb/ColumnFamilyConfig.java:195-198 | the setter stores its value and leaves the other nineteen settings unchanged |
| CfConfig.SetIndexSampleRatio | src/main/java/com/tidesdb/ColumnFamilyConfig.java:200-203 | the setter stores its value and leaves the other nineteen settings unchanged |
| CfConfig.SetBlockIndexPrefixLen | src/main/java/com/tidesdb/ColumnFamilyConfig.java:205-208 | the setter stores its value and leaves the other nineteen settings unchanged |
| CfConfig.SetSyncMode | src/main/java/com/tidesdb/ColumnFamilyConfig.java:210-213 | the setter stores its value, null included, and leaves the other nineteen settings unchanged |
| CfConfig.SetSyncIntervalUs | src/main/java/com/tidesdb/ColumnFamilyConfig.java:215-218 | the setter stores its value and leaves the other nineteen settings unchanged |
| CfConfig.SetComparatorName | src/main/java/com/tidesdb/ColumnFamilyConfig.java:220-223 | the setter stores its value, null included, and leaves the other nineteen settings unchanged |
| CfConfig.SetSkipListMaxLevel | src/main/java/com/tidesdb/ColumnFamilyConfig.java:225-228 | the setter stores its value and leaves the other nineteen settings unchanged |
| CfConfig.SetSkipListProbability | src/main/java/com/tidesdb/ColumnFamilyConfig.java:230-233 | the setter stores its value and leaves the other nineteen settings unchanged |
| CfConfig.SetDefaultIsolationLevel | src/main/java/com/tidesdb/ColumnFamilyConfig.java:235-238 | the setter stores its value, null included, and leaves the other nineteen settings unchanged |
| CfConfig.SetMinDiskSpace | src/main/java/com/tidesdb/ColumnFamilyConfig.java:240-243 | the setter stores its value and leaves the other nineteen settings unchanged |
| CfConfig.SetL1FileCountTrigger | src/main/java/com/tidesdb/ColumnFamilyConfig.java:245-248 | the setter stores its value and leaves the other nineteen settings unchanged |
| CfConfig.SetL0QueueStallThreshold | src/main/java/com/tidesdb/ColumnFamilyConfig.java:250-253 | the setter stores its value and leaves the other nineteen settings unchanged |
| CfConfig.Build | src/main/java/com/tidesdb/ColumnFamilyConfig.java:47-68 | the built configuration agrees with the builder on every one of the twenty settings |
| CfConfig.DefaultConfigIsBuilderDefault | src/main/java/com/tidesdb/ColumnFamilyConfig.java:75-98 | `defaultConfig()`, which sets all twenty values explicitly, equals building a fresh builder |
| CfConfig.DefaultConfig | src/main/java/com/tidesdb/ColumnFamilyConfig.java:75-98 | `defaultConfig()` equals `new Builder().build()`; it carries LZ4, SYNC_FULL, READ_COMMITTED and an empty comparator name |
| DbConfig.NewBuilder | src/main/java/com/tidesdb/Config.java:95-100 | a fresh builder holds an empty path and a 64 MiB block cache among its defaults |
| DbConfig.SetDbPath | src/main/java/com/tidesdb/Config.java:102-105 | the setter stores its value, null included, and leaves the other five settings unchanged |
| DbConfig.SetNumFlushThreads | src/main/java/com/tidesdb/Config.java:107-110 | the setter stores its value and leaves the other five settings unchanged |
| DbConfig.SetNumCompactionThreads | src/main/java/com/tidesdb/Config.java:112-115 | the setter stores its value and leaves the other five settings unchanged |
| DbConfig.SetLogLevel | src/main/java/com/tidesdb/Config.java:117-120 | the setter stores its value, null included, and leaves the other five settings unchanged |
| DbConfig.SetBlockCacheSize | src/main/java/com/tidesdb/Config.java:122-125 | the setter stores its value and leaves the other five settings unchanged |
| DbConfig.SetMaxOpenSSTables | src/main/java/com/tidesdb/Config.java:127-130 | the setter stores its value and leaves the other five settings unchanged |
| DbConfig.Build | src/main/java/com/tidesdb/Config.java:33-40 | the built configuration agrees with the builder on all six settings |
| DbConfig.BuilderFor | src/main/java/com/tidesdb/Config.java:63-65 | `builder(path)` holds the given path and the defaults everywhere else |
| DbConfig.DefaultConfigHasEmptyPath | src/main/java/com/tidesdb/Config.java:47-55 | `defaultConfig()` equals building a fresh builder, so its path is the empty string |
| DbConfig.DefaultConfig | src/main/java/com/tidesdb/Config.java:47-55 | `defaultConfig()` equals `new Builder().build()`, with an empty path and log level INFO |
| StatsModel.NewStats | src/main/java/com/tidesdb/Stats.java:32-38 | the constructor keeps its five arguments |
| StatsModel.AppendElements | src/main/java/com/tidesdb/Stats.java:92-95 | the loop appends the elements in order, separated by ", " |
| StatsModel.AppendSegment | src/main/java/com/tidesdb/Stats.java:90-97 | a null array appends nothing; otherwise the tag, the joined elements and "]" |
| StatsModel.ToString | src/main/java/com/tidesdb/Stats.java:86-108 | the builder sequence produces the level count, memtable size, the non-null arrays and the closing brace |
| StatsModel.FormatParses | src/main/java/com/tidesdb/Stats.java:86-108 | `toString` loses nothing: its text reads back as the level count, memtable size and both arrays, with a null array told apart from an empty one |
| StatsModel.FormatFrame | src/main/java/com/tidesdb/Stats.java:86-108 | the text starts with "Stats{numLevels=", the count, ", memtableSize=" and the size, and ends in "}" |
| StatsModel.JoinSeparators | src/main/java/com/tidesdb/Stats.java:92-95 | a joined list of n elements holds n - 1 commas |
| Natives.FirstFailing | src/main/java/com/tidesdb/TidesDB.java:88-100 | the guard chain every handle class uses (here `createColumnFamily`'s): the guard reported is the first in source order that fails, and every guard before it holds |
| Natives.FirstFailure | src/main/java/com/tidesdb/TidesDB.java:88-100 | the shared guard chain (here `createColumnFamily`'s) reports no failure exactly when every guard holds |
| Natives.FirstFailurePrecedence | src/main/java/com/tidesdb/TidesDB.java:88-100 | in the shared guard chain (here `createColumnFamily`'s), when guard k is the first to fail, its failure is the one thrown |
| Jni.CMessage | src/main/c/com_tidesdb_TidesDB.c:45-74 | the C message is "unknown error" exactly for codes outside -12..-1 and for ERR_UNKNOWN; success has no entry |
| Jni.MessageTablesAgree | src/main/c/com_tidesdb_TidesDB.c:45-74 | the C and Java message tables agree on every code but 0 |
| Jni.ThrowTidesDBException | src/main/c/com_tidesdb_TidesDB.c:24-43 | the exception carries the code when the (String, int) constructor is found; the `ThrowNew` fallback loses it to ERR_UNKNOWN |
| Jni.StatusException | src/main/c/com_tidesdb_TidesDB.c:101-104 | a failing status raises an exception whose code is the status and whose message is the C table's |
| Jni.StatusReply | src/main/c/com_tidesdb_TidesDB.c:101-104 | a native returns exactly on success; otherwise `getErrorMessage()` of the raised exception repeats its message |
| Jni.MoveReply | src/main/c/com_tidesdb_TidesDB.c:751-775 | `nativeNext` and `nativePrev` return on success and NOT_FOUND, and raise the status on every other code |
| Jni.MoveReplyFiltersOnlyNotFound | src/main/c/com_tidesdb_TidesDB.c:751-775 | the movement filter differs from the general status rule at NOT_FOUND and nowhere else |
| Jni.LookupReply | src/main/c/com_tidesdb_TidesDB.c:219-223 | a null lookup raises NOT_FOUND with "Column family not found"; a found one returns its handle |
| Jni.LookupMatchesNotFoundCode | src/main/c/com_tidesdb_TidesDB.c:219-223 | the missing column family carries the NOT_FOUND code with a message other than the table's |
| Jni.CLength | src/main/c/com_tidesdb_TidesDB.c:164 | `strlen` is the position of the first NUL, or the whole length when there is none |
| Jni.ComparatorNameBuffer | src/main/c/com_tidesdb_TidesDB.c:163-167 | `memset` then `strncpy` of at most max - 1 bytes leaves the field: the name's text, cut at max - 1 bytes, then zeros |
| Jni.NameFieldReadsBack | src/main/c/com_tidesdb_TidesDB.c:163-167 | the field always ends in NUL and reads back as the name cut to max - 1 bytes; empty for a null name |
| Jni.CLengthOf | src/main/c/com_tidesdb_TidesDB.c:164 | a buffer with a NUL at n and none before has `strlen` n |
| ColumnFamilies.NewColumnFamily | src/main/java/com/tidesdb/ColumnFamily.java:35-47 | a new column family reports its name and handle and has no hook context |
| ColumnFamilies.GetName | src/main/java/com/tidesdb/ColumnFamily.java:45-47 | the name returned is the one the column family was created with, whatever commit hook has been installed since |
| ColumnFamilies.GetNativeHandle | src/main/java/com/tidesdb/ColumnFamily.java:179-181 | the handle returned is the one the column family was created with, whatever commit hook has been installed since |
| ColumnFamilies.GetStats | src/main/java/com/tidesdb/ColumnFamily.java:55-57 | forwarded to the native without a check |
| ColumnFamilies.Compact | src/main/java/com/tidesdb/ColumnFamily.java:64-66 | forwarded to the native without a check |
| ColumnFamilies.FlushMemtable | src/main/java/com/tidesdb/ColumnFamily.java:73-75 | forwarded to the native without a check |
| ColumnFamilies.IsFlushing | src/main/java/com/tidesdb/ColumnFamily.java:82-84 | one native call whose answer is returned |
| ColumnFamilies.IsCompacting | src/main/java/com/tidesdb/ColumnFamily.java:91-93 | one native call whose answer is returned |
| ColumnFamilies.Runtime | src/main/java/com/tidesdb/ColumnFamily.java:118-126 | the settings sent agree with the configuration on each of the seven runtime-safe fields |
| ColumnFamilies.UpdateRuntimeConfig | src/main/java/com/tidesdb/ColumnFamily.java:114-127 | a null configuration is refused; a null sync mode throws NullPointer; otherwise one call carries the seven runtime fields and the persist flag |
| ColumnFamilies.UpdateSendsOnlyRuntimeFields | src/main/java/com/tidesdb/ColumnFamily.java:114-127 | two configurations give the same update exactly when they agree on the seven runtime-safe fields |
| ColumnFamilies.RangeCost | src/main/java/com/tidesdb/ColumnFamily.java:140-148 | keyA is checked before keyB, each must be non-null and non-empty, then the native estimates |
| ColumnFamilies.InstallHook | src/main/java/com/tidesdb/ColumnFamily.java:162-177 | the call receives the stored context; the returned context is stored only when the call returns |
| ColumnFamilies.SetCommitHook | src/main/java/com/tidesdb/ColumnFamily.java:162-167 | a null hook is refused with no call and no change; otherwise one call receives the stored context, whose result replaces it when the call returns and leaves it unchanged when the call raises |
| ColumnFamilies.ClearCommitHook | src/main/java/com/tidesdb/ColumnFamily.java:175-177 | without a check, the same call with a null hook; the returned context replaces the stored one, and a raised call keeps it and throws the native exception |
| ColumnFamilies.HookContextThreading | src/main/java/com/tidesdb/ColumnFamily.java:162-177 | a clear after a set hands the native the context the set stored; both store the native's new context, and a failed call keeps the old one; name and handle survive a set and a clear |
| Iterators.NewIterator | src/main/java/com/tidesdb/TidesDBIterator.java:36-38 | a new iterator is live and holds the handle |
| Iterators.SeekToFirst | src/main/java/com/tidesdb/TidesDBIterator.java:45-48 | refused when freed, else forwarded |
| Iterators.SeekToLast | src/main/java/com/tidesdb/TidesDBIterator.java:55-58 | refused when freed, else forwarded |
| Iterators.Seek | src/main/java/com/tidesdb/TidesDBIterator.java:66-72 | freed is checked first, then the key must be non-null and non-empty, then forwarded |
| Iterators.SeekForPrev | src/main/java/com/tidesdb/TidesDBIterator.java:80-86 | freed is checked first, then the key must be non-null and non-empty, then forwarded |
| Iterators.IsValid | src/main/java/com/tidesdb/TidesDBIterator.java:93-98 | a freed iterator is invalid without a native call; a live one returns the native's answer |
| Iterators.Next | src/main/java/com/tidesdb/TidesDBIterator.java:105-108 | refused when freed, else forwarded |
| Iterators.Prev | src/main/java/com/tidesdb/TidesDBIterator.java:115-118 | refused when freed, else forwarded |
| Iterators.Key | src/main/java/com/tidesdb/TidesDBIterator.java:126-129 | refused when freed, else the native's key |
| Iterators.Value | src/main/java/com/tidesdb/TidesDBIterator.java:137-140 | refused when freed, else the native's value |
| Iterators.Free | src/main/java/com/tidesdb/TidesDBIterator.java:145-151 | a live non-zero handle is released once and the iterator becomes freed with handle 0; otherwise nothing happens |
| Iterators.FreeIdempotent | src/main/java/com/tidesdb/TidesDBIterator.java:145-159 | a second free issues no call and changes nothing; `close` is `free` |
| Iterators.Close | src/main/java/com/tidesdb/TidesDBIterator.java:157-159 | `close()` releases a live non-zero handle once and leaves the iterator freed with handle 0; otherwise it does nothing |
| Iterators.FreedRejectsEverything | src/main/java/com/tidesdb/TidesDBIterator.java:161-165 | on a freed iterator every checked operation throws IllegalState with no call, whatever its arguments, and `isValid` is false |
| Iterators.FreeThenRejects | src/main/java/com/tidesdb/TidesDBIterator.java:145-151 | freeing a live iterator marks it freed, except when its handle is 0 |
| Iterators.MoveAtEnds | src/main/c/com_tidesdb_TidesDB.c:751-775 | through the C filter, `next` and `prev` return exactly on success or NOT_FOUND; otherwise they throw the status |
| Transactions.NewTransaction | src/main/java/com/tidesdb/Transaction.java:36-38 | a new transaction is live and holds the handle |
| Transactions.Put | src/main/java/com/tidesdb/Transaction.java:49-61 | freed, then column family, then key, then value are checked for null, in that order; then one call carries the ttl |
| Transactions.PutDefaultsToNoExpiry | src/main/java/com/tidesdb/Transaction.java:71-73 | the three-argument `put` behaves as `put` with ttl -1 |
| Transactions.PutNoExpiry | src/main/java/com/tidesdb/Transaction.java:71-73 | the three-argument `put` has the same guards in the same order, then one call with ttl -1 |
| Transactions.Get | src/main/java/com/tidesdb/Transaction.java:83-92 | freed, then column family, then key are checked; then the native's value is returned |
| Transactions.Delete | src/main/java/com/tidesdb/Transaction.java:101-110 | freed, then column family, then key are checked; then forwarded |
| Transactions.Commit | src/main/java/com/tidesdb/Transaction.java:117-120 | refused when freed, else forwarded |
| Transactions.Rollback | src/main/java/com/tidesdb/Transaction.java:127-130 | refused when freed, else forwarded |
| Transactions.Savepoint | src/main/java/com/tidesdb/Transaction.java:138-144 | freed is checked first, then the name must be non-null and non-empty, then forwarded |
| Transactions.RollbackToSavepoint | src/main/java/com/tidesdb/Transaction.java:152-158 | freed is checked first, then the name must be non-null and non-empty, then forwarded |
| Transactions.ReleaseSavepoint | src/main/java/com/tidesdb/Transaction.java:166-172 | freed is checked first, then the name must be non-null and non-empty, then forwarded |
| Transactions.NewIterator | src/main/java/com/tidesdb/Transaction.java:181-188 | freed, then column family, are checked; the native's handle becomes a live iterator |
| Transactions.Free | src/main/java/com/tidesdb/Transaction.java:193-199 | a live non-zero handle is released once and the transaction becomes freed with handle 0; otherwise nothing happens |
| Transactions.FreeIdempotent | src/main/java/com/tidesdb/Transaction.java:193-207 | a second free issues no call and changes nothing; `close` is `free` |
| Transactions.Close | src/main/java/com/tidesdb/Transaction.java:205-207 | `close()` releases a live non-zero handle once and leaves the transaction freed with handle 0; otherwise it does nothing |
| Transactions.FreedRejectsEverything | src/main/java/com/tidesdb/Transaction.java:209-213 | on a freed transaction every operation but free/close throws IllegalState with no call, whatever its arguments |
| Transactions.FreeThenRejects | src/main/java/com/tidesdb/Transaction.java:193-199 | freeing a live transaction makes its next commit throw; with handle 0 it stays usable and commit calls the native with 0 |
| Databases.Open | src/main/java/com/tidesdb/TidesDB.java:47-67 | null configuration, then null or empty path, then null log level are refused before any call; otherwise one open call with the log level's wire value, and its handle becomes an open instance |
| Databases.Close | src/main/java/com/tidesdb/TidesDB.java:73-79 | a live non-zero handle is closed once and the instance becomes closed with handle 0; otherwise nothing happens |
| Databases.CreateColumnFamily | src/main/java/com/tidesdb/TidesDB.java:88-120 | closed, then name, then configuration, then the enum settings are checked; then all settings are forwarded with the compression's wire value |
| Databases.DropColumnFamily | src/main/java/com/tidesdb/TidesDB.java:128-134 | closed, then the name, are checked; then forwarded |
| Databases.GetColumnFamily | src/main/java/com/tidesdb/TidesDB.java:143-150 | closed, then the name, are checked; the native's handle is wrapped with the requested name, and a raised lookup throws the native's exception |
| Databases.ListColumnFamilies | src/main/java/com/tidesdb/TidesDB.java:158-161 | refused when closed, else forwarded |
| Databases.BeginTransaction | src/main/java/com/tidesdb/TidesDB.java:169-173 | refused when closed; the native's handle becomes a live transaction, and a raised call throws the native's exception |
| Databases.BeginTransactionWith | src/main/java/com/tidesdb/TidesDB.java:182-189 | closed, then a null level, are refused; the native's handle becomes a live transaction, and a raised call throws the native's exception |
| Databases.GetCacheStats | src/main/java/com/tidesdb/TidesDB.java:197-200 | refused when closed, else forwarded |
| Databases.RegisterComparator | src/main/java/com/tidesdb/TidesDB.java:209-215 | closed, then the name, are checked; the context is passed on even when null |
| Databases.Backup | src/main/java/com/tidesdb/TidesDB.java:223-229 | closed, then the directory, are checked; then forwarded |
| Databases.RenameColumnFamily | src/main/java/com/tidesdb/TidesDB.java:239-248 | closed, then the old name, then the new name, are checked; then forwarded |
| Databases.CloseIdempotent | src/main/java/com/tidesdb/TidesDB.java:73-79 | a second close issues no call and changes nothing |
| Databases.ClosedRejectsEverything | src/main/java/com/tidesdb/TidesDB.java:250-254 | on a closed instance every operation but close throws IllegalState with no call, whatever its arguments |
| Databases.OpenDefaultConfigRefused | src/main/java/com/tidesdb/TidesDB.java:47-53 | opening `Config.defaultConfig()` is refused for its empty path before any call |
| Databases.OpenBuiltConfig | src/main/java/com/tidesdb/TidesDB.java:47-67 | `builder(path).build()` with a non-empty path opens with 2 and 2 threads, level 1, a 67108864-byte cache and 256 tables |
| Databases.CreateWithDefaultConfig | src/main/java/com/tidesdb/TidesDB.java:88-120 | the default column-family configuration reaches the native, with compression wire value 1 |
| Databases.GetMissingColumnFamily | src/main/c/com_tidesdb_TidesDB.c:219-223 | `getColumnFamily` of a family the engine lacks makes one call and throws TidesDBException with code NOT_FOUND and "Column family not found" |
| Databases.GetColumnFamilyKeepsName | src/main/java/com/tidesdb/TidesDB.java:143-150 | the column family returned for name n reports n as its name |

## Left out

- The storage engine behind every native method. Its answers are parameters of the
  model.
- JNI marshalling: converting Java strings and arrays. This includes the `Failed to get ...`
  exceptions (code ERR_MEMORY) raised when `GetStringUTFChars` returns NULL in `open`,
  `createColumnFamily`'s name, `dropColumnFamily`, `getColumnFamily`, `registerComparator`'s
  name, `backup` and `renameColumnFamily`; the other conversions (the comparator name, the
  comparator context and the three savepoint names) are unchecked and pass NULL on to the
  engine. Also left out is a `FindClass` failure, after which the JVM's own pending error (for example
  NoClassDefFoundError) propagates instead of a TidesDBException.
- The array building inside `nativeGetStats`: the Stats object is taken as the native
  returns it.
- `NativeLibrary` (library loading), `CacheStats`, `CommitOp` and `CommitHook`. A commit
  hook is an opaque identity here; its callback never runs.
- `IsolationLevel` and `SyncMode` are not part of this model. Their constants are
  identified by name only, and their wire values are not modelled.
- The engine's TDB status codes are taken to equal the Java `ERR_*` constants, which the
  C layer relays unchanged.
- `TDB_MAX_COMPARATOR_NAME` is a parameter `max > 0`.
- `TidesDB.open` and `createColumnFamily` also read `isLogToFile`, `getLogTruncationAt`
  and `isUseBtree`. The configuration classes define none of these, and the C functions
  take fewer arguments than the Java declarations pass. The model forwards only the
  settings both sides agree on.
- No C implementation of `nativeSetCommitHook` or `nativeRangeCost` exists. Their Java side
  is modelled; the native result is a parameter.
- The builders are values: each setter returns the updated builder rather than changing
  the receiver and returning `this`. Chained use behaves the same; aliasing of one builder
  through several references is not modelled.
- Floating-point settings (`bloomFPR`, `skipListProbability`, the range-cost estimate) are
  `real`. They are only copied, never computed on.
- Getters of the configurations and of `Stats` are plain field reads. They are covered by
  `Get` and by the builder contracts, not given rows of their own.
- Transactions.Get: the Java documentation says null is returned for a missing key.
  The C layer raises NOT_FOUND instead, so the model forwards the native's outcome.
- The test suite expects an empty key to be refused by `put`, `get` and `delete`, which check only for
  null. The model follows the code, which passes an empty key to the native.
- Jni.CMessage: the C table has no entry for success (0 reads "unknown error", where Java
  says "success"). The C layer only throws for failing statuses, so this difference is
  never seen.
