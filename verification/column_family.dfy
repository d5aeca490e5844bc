/** `ColumnFamily.java`: a handle to one column family, its name, and the context
    handle of its commit hook. The statistics, compaction and flush calls forward to
    the native layer without any check of their own. */
module ColumnFamilies {
  import opened Primitives
  import opened Outcomes
  import opened Natives
  import CfConfig
  import StatsModel

  datatype ColumnFamily = ColumnFamily(handle: Int64, name: Option<string>, commitHookCtx: Int64)

  /** The package-private constructor: no hook installed yet, so the context handle is 0. */
  function NewColumnFamily(handle: Int64, name: Option<string>): (cf: ColumnFamily)
    ensures cf.name == name && cf.handle == handle && cf.commitHookCtx == 0
  {
    ColumnFamily(handle, name, 0)
  }

  /** `getName()`: the name the column family was created with. */
  function GetName(cf: ColumnFamily): (name: Option<string>)
    ensures cf == NewColumnFamily(cf.handle, name).(commitHookCtx := cf.commitHookCtx)
  {
    cf.name
  }

  /** The handle the column family was created with. */
  function GetNativeHandle(cf: ColumnFamily): (handle: Int64)
    ensures cf == NewColumnFamily(handle, cf.name).(commitHookCtx := cf.commitHookCtx)
  {
    cf.handle
  }

  function GetStats(cf: ColumnFamily, reply: NativeReply<StatsModel.Stats>): (e: Effect<StatsModel.Stats>)
    ensures Forwarded(e, CfGetStats(cf.handle), reply)
  {
    Invoke(CfGetStats(cf.handle), reply)
  }

  function Compact(cf: ColumnFamily, reply: NativeReply<()>): (e: Effect<()>)
    ensures Forwarded(e, CfCompact(cf.handle), reply)
  {
    Invoke(CfCompact(cf.handle), reply)
  }

  function FlushMemtable(cf: ColumnFamily, reply: NativeReply<()>): (e: Effect<()>)
    ensures Forwarded(e, CfFlushMemtable(cf.handle), reply)
  {
    Invoke(CfFlushMemtable(cf.handle), reply)
  }

  /** `isFlushing()`: the native answers directly and never raises. */
  function IsFlushing(cf: ColumnFamily, flushing: bool): (e: Effect<bool>)
    ensures e.calls == [CfIsFlushing(cf.handle)] && e.outcome == Returned(flushing)
  {
    Invoke(CfIsFlushing(cf.handle), Ok(flushing))
  }

  /** `isCompacting()`: the native answers directly and never raises. */
  function IsCompacting(cf: ColumnFamily, compacting: bool): (e: Effect<bool>)
    ensures e.calls == [CfIsCompacting(cf.handle)] && e.outcome == Returned(compacting)
  {
    Invoke(CfIsCompacting(cf.handle), Ok(compacting))
  }

  const CONFIG_NULL: string := "Config cannot be null"

  /** The fields of a configuration that are safe to change while the column family is open. */
  const RuntimeFields: set<CfConfig.Field> := {
    CfConfig.WriteBufferSize, CfConfig.SkipListMaxLevel, CfConfig.SkipListProbability,
    CfConfig.BloomFPR, CfConfig.IndexSampleRatio, CfConfig.SyncModeField, CfConfig.SyncIntervalUs }

  /** The getter of `RuntimeSettings` matching the configuration getter for `f`. */
  function RuntimeGet(s: RuntimeSettings, f: CfConfig.Field): CfConfig.Value
    requires f in RuntimeFields
  {
    match f
    case WriteBufferSize => CfConfig.IntValue(s.writeBufferSize)
    case SkipListMaxLevel => CfConfig.IntValue(s.skipListMaxLevel)
    case SkipListProbability => CfConfig.RealValue(s.skipListProbability)
    case BloomFPR => CfConfig.RealValue(s.bloomFPR)
    case IndexSampleRatio => CfConfig.IntValue(s.indexSampleRatio)
    case SyncModeField => CfConfig.SyncValue(Some(s.syncMode))
    case SyncIntervalUs => CfConfig.IntValue(s.syncIntervalUs)
  }

  /** The settings `updateRuntimeConfig` reads from a configuration with a sync mode. */
  function Runtime(c: CfConfig.ColumnFamilyConfig): (s: RuntimeSettings)
    requires c.syncMode.Some?
    ensures forall f :: f in RuntimeFields ==> RuntimeGet(s, f) == CfConfig.Get(c, f)
  {
    RuntimeSettings(c.writeBufferSize, c.skipListMaxLevel, c.skipListProbability, c.bloomFPR,
                    c.indexSampleRatio, c.syncMode.value, c.syncIntervalUs)
  }

  /** `updateRuntimeConfig(config, persistToDisk)`: a null configuration is refused; a
      configuration without a sync mode throws from `getSyncMode().getValue()` before
      the call; otherwise exactly the seven runtime-safe fields travel to the native. */
  function UpdateRuntimeConfig(cf: ColumnFamily, config: Option<CfConfig.ColumnFamilyConfig>, persistToDisk: bool,
                               reply: NativeReply<()>): (e: Effect<()>)
    ensures config.None? ==> Rejected(e, IllegalArgument(CONFIG_NULL))
    ensures config.Some? && config.value.syncMode.None? ==> Rejected(e, NullPointer)
    ensures config.Some? && config.value.syncMode.Some? ==>
              e.outcome == reply.Propagate() && |e.calls| == 1 && e.calls[0].CfUpdateRuntimeConfig?
              && e.calls[0].cf == cf.handle && e.calls[0].persistToDisk == persistToDisk
              && forall f :: f in RuntimeFields ==> RuntimeGet(e.calls[0].settings, f) == CfConfig.Get(config.value, f)
  {
    var checks := [Check(config.Some?, IllegalArgument(CONFIG_NULL)),
                   Check(config.Some? && config.value.syncMode.Some?, NullPointer)];
    match FirstFailure(checks)
    case Some(f) => Reject(f)
    case None =>
      assert checks[1].holds;
      Invoke(CfUpdateRuntimeConfig(cf.handle, Runtime(config.value), persistToDisk), reply)
  }

  /** Two configurations lead to the same native call exactly when they agree on the
      seven runtime-safe fields: the other thirteen are never sent. */
  lemma UpdateSendsOnlyRuntimeFields(cf: ColumnFamily, c1: CfConfig.ColumnFamilyConfig, c2: CfConfig.ColumnFamilyConfig,
                                     persistToDisk: bool, reply: NativeReply<()>)
    requires c1.syncMode.Some? && c2.syncMode.Some?
    ensures UpdateRuntimeConfig(cf, Some(c1), persistToDisk, reply) == UpdateRuntimeConfig(cf, Some(c2), persistToDisk, reply)
            <==> forall f :: f in RuntimeFields ==> CfConfig.Get(c1, f) == CfConfig.Get(c2, f)
  {
  }

  const KEY_A_EMPTY: string := "keyA cannot be null or empty"
  const KEY_B_EMPTY: string := "keyB cannot be null or empty"

  /** `rangeCost(keyA, keyB)`: both bounds must be non-empty, the first checked first.
      The estimate itself is the native's. */
  function RangeCost(cf: ColumnFamily, keyA: Option<Bytes>, keyB: Option<Bytes>, reply: NativeReply<real>): (e: Effect<real>)
    ensures !NonEmptyBytes(keyA) ==> Rejected(e, IllegalArgument(KEY_A_EMPTY))
    ensures NonEmptyBytes(keyA) && !NonEmptyBytes(keyB) ==> Rejected(e, IllegalArgument(KEY_B_EMPTY))
    ensures NonEmptyBytes(keyA) && NonEmptyBytes(keyB) ==> Forwarded(e, CfRangeCost(cf.handle, keyA.value, keyB.value), reply)
  {
    var checks := [Check(NonEmptyBytes(keyA), IllegalArgument(KEY_A_EMPTY)),
                   Check(NonEmptyBytes(keyB), IllegalArgument(KEY_B_EMPTY))];
    match FirstFailure(checks)
    case Some(f) => Reject(f)
    case None =>
      assert checks[0].holds && checks[1].holds;
      Invoke(CfRangeCost(cf.handle, keyA.value, keyB.value), reply)
  }

  const HOOK_NULL: string := "Hook cannot be null, use clearCommitHook() instead"

  /** The one native call behind both hook operations: it receives the previous context
      handle and returns the new one, which replaces the stored handle only when the
      call returns normally. */
  function InstallHook(cf: ColumnFamily, hook: Option<CommitHook>, reply: NativeReply<Int64>): (s: Step<ColumnFamily, ()>)
    ensures s.effect.calls == [CfSetCommitHook(cf.handle, hook, cf.commitHookCtx)]
    ensures s.effect.outcome.Returned? <==> reply.Ok?
    ensures reply.Raised? ==> s.effect.outcome == Threw(Native(reply.exception)) && s.next == cf
    ensures reply.Ok? ==> s.next == cf.(commitHookCtx := reply.value)
  {
    var call := CfSetCommitHook(cf.handle, hook, cf.commitHookCtx);
    match reply
    case Ok(ctx) => Step(cf.(commitHookCtx := ctx), Effect([call], Returned(())))
    case Raised(x) => Step(cf, Effect([call], Threw(Native(x))))
  }

  /** `setCommitHook(hook)`: a null hook is refused without touching the stored context. */
  function SetCommitHook(cf: ColumnFamily, hook: Option<CommitHook>, reply: NativeReply<Int64>): (s: Step<ColumnFamily, ()>)
    ensures hook.None? ==> s.next == cf && Rejected(s.effect, IllegalArgument(HOOK_NULL))
    ensures hook.Some? ==> s.effect.calls == [CfSetCommitHook(cf.handle, hook, cf.commitHookCtx)]
    ensures hook.Some? ==> (s.effect.outcome.Returned? <==> reply.Ok?)
    ensures hook.Some? && reply.Ok? ==> s.next == cf.(commitHookCtx := reply.value)
    ensures hook.Some? && reply.Raised? ==> s.next == cf && s.effect.outcome == Threw(Native(reply.exception))
    ensures s.next.handle == cf.handle && s.next.name == cf.name
  {
    if hook.None? then Step(cf, Reject(IllegalArgument(HOOK_NULL)))
    else InstallHook(cf, hook, reply)
  }

  /** `clearCommitHook()`: no check; the same call with a null hook. */
  function ClearCommitHook(cf: ColumnFamily, reply: NativeReply<Int64>): (s: Step<ColumnFamily, ()>)
    ensures s.effect.calls == [CfSetCommitHook(cf.handle, None, cf.commitHookCtx)]
    ensures s.effect.outcome.Returned? <==> reply.Ok?
    ensures reply.Ok? ==> s.next == cf.(commitHookCtx := reply.value)
    ensures reply.Raised? ==> s.next == cf && s.effect.outcome == Threw(Native(reply.exception))
    ensures s.next.handle == cf.handle && s.next.name == cf.name
  {
    InstallHook(cf, None, reply)
  }

  /** Setting and clearing thread the context the same way: each passes the stored
      context in and stores what comes back, so a set followed by a clear hands the
      native exactly the context the set produced, and a failed call keeps the old one. */
  lemma HookContextThreading(cf: ColumnFamily, hook: CommitHook, ctx: Int64, reply: NativeReply<Int64>)
    ensures SetCommitHook(cf, Some(hook), Ok(ctx)).next.commitHookCtx == ctx
    ensures ClearCommitHook(cf, Ok(ctx)).next.commitHookCtx == ctx
    ensures reply.Raised? ==> SetCommitHook(cf, Some(hook), reply).next.commitHookCtx == cf.commitHookCtx
                              && ClearCommitHook(cf, reply).next.commitHookCtx == cf.commitHookCtx
    ensures ClearCommitHook(SetCommitHook(cf, Some(hook), Ok(ctx)).next, reply).effect.calls
            == [CfSetCommitHook(cf.handle, None, ctx)]
    ensures SetCommitHook(cf, Some(hook), reply).effect.outcome.Returned? <==> reply.Ok?
    ensures GetName(ClearCommitHook(SetCommitHook(cf, Some(hook), Ok(ctx)).next, reply).next) == GetName(cf)
    ensures GetNativeHandle(ClearCommitHook(SetCommitHook(cf, Some(hook), Ok(ctx)).next, reply).next)
            == GetNativeHandle(cf)
  {
  }
}
