/** The sync-mode and isolation-level enums the column-family configuration refers
    to. Their declaring files are not part of this model: a constant is identified
    by its name, and its wire value (`getValue()`) is not modelled. */
module Modes {
  datatype SyncMode = SyncMode(name: string)
  datatype IsolationLevel = IsolationLevel(name: string)

  const SYNC_FULL: SyncMode := SyncMode("SYNC_FULL")
  const READ_COMMITTED: IsolationLevel := IsolationLevel("READ_COMMITTED")
}

/** `ColumnFamilyConfig.java`: the twenty per-column-family settings, the builder
    that accumulates them, and the defaults. Floating-point settings (`bloomFPR`,
    `skipListProbability`) are held as `real` and are only copied and compared. */
module CfConfig {
  import opened Primitives
  import opened Compression
  import opened Modes

  datatype ColumnFamilyConfig = ColumnFamilyConfig(
    writeBufferSize: Int64,
    levelSizeRatio: Int64,
    minLevels: Int32,
    dividingLevelOffset: Int32,
    klogValueThreshold: Int64,
    compressionAlgorithm: Option<CompressionAlgorithm>,
    enableBloomFilter: bool,
    bloomFPR: real,
    enableBlockIndexes: bool,
    indexSampleRatio: Int32,
    blockIndexPrefixLen: Int32,
    syncMode: Option<SyncMode>,
    syncIntervalUs: Int64,
    comparatorName: Option<string>,
    skipListMaxLevel: Int32,
    skipListProbability: real,
    defaultIsolationLevel: Option<IsolationLevel>,
    minDiskSpace: Int64,
    l1FileCountTrigger: Int32,
    l0QueueStallThreshold: Int32)

  /** The builder holds the settings of the configuration it will build. */
  datatype Builder = Builder(pending: ColumnFamilyConfig)

  /** Names of the twenty settings, so that "every other setting" can be said. */
  datatype Field =
    | WriteBufferSize | LevelSizeRatio | MinLevels | DividingLevelOffset | KlogValueThreshold
    | CompressionAlgorithmField | EnableBloomFilter | BloomFPR | EnableBlockIndexes | IndexSampleRatio
    | BlockIndexPrefixLen | SyncModeField | SyncIntervalUs | ComparatorName | SkipListMaxLevel
    | SkipListProbability | DefaultIsolationLevel | MinDiskSpace | L1FileCountTrigger | L0QueueStallThreshold

  datatype Value =
    | IntValue(i: int)
    | BoolValue(b: bool)
    | RealValue(r: real)
    | CompressionValue(c: Option<CompressionAlgorithm>)
    | SyncValue(m: Option<SyncMode>)
    | TextValue(s: Option<string>)
    | IsolationValue(l: Option<IsolationLevel>)

  /** The getter for field `f`. */
  function Get(c: ColumnFamilyConfig, f: Field): Value
  {
    match f
    case WriteBufferSize => IntValue(c.writeBufferSize)
    case LevelSizeRatio => IntValue(c.levelSizeRatio)
    case MinLevels => IntValue(c.minLevels)
    case DividingLevelOffset => IntValue(c.dividingLevelOffset)
    case KlogValueThreshold => IntValue(c.klogValueThreshold)
    case CompressionAlgorithmField => CompressionValue(c.compressionAlgorithm)
    case EnableBloomFilter => BoolValue(c.enableBloomFilter)
    case BloomFPR => RealValue(c.bloomFPR)
    case EnableBlockIndexes => BoolValue(c.enableBlockIndexes)
    case IndexSampleRatio => IntValue(c.indexSampleRatio)
    case BlockIndexPrefixLen => IntValue(c.blockIndexPrefixLen)
    case SyncModeField => SyncValue(c.syncMode)
    case SyncIntervalUs => IntValue(c.syncIntervalUs)
    case ComparatorName => TextValue(c.comparatorName)
    case SkipListMaxLevel => IntValue(c.skipListMaxLevel)
    case SkipListProbability => RealValue(c.skipListProbability)
    case DefaultIsolationLevel => IsolationValue(c.defaultIsolationLevel)
    case MinDiskSpace => IntValue(c.minDiskSpace)
    case L1FileCountTrigger => IntValue(c.l1FileCountTrigger)
    case L0QueueStallThreshold => IntValue(c.l0QueueStallThreshold)
  }

  /** `r` differs from `b` at most in field `f`, where it holds `v`. */
  ghost predicate SetsOnly(b: Builder, r: Builder, f: Field, v: Value)
  {
    && Get(r.pending, f) == v
    && forall g :: g != f ==> Get(r.pending, g) == Get(b.pending, g)
  }

  /** `new Builder()`: the field initialisers. */
  function NewBuilder(): (b: Builder)
    ensures b.pending.writeBufferSize == 134217728
    ensures b.pending.minDiskSpace == 104857600
  {
    Builder(ColumnFamilyConfig(
      writeBufferSize := Mebibytes(128),
      levelSizeRatio := 10,
      minLevels := 5,
      dividingLevelOffset := 2,
      klogValueThreshold := 512,
      compressionAlgorithm := Some(Lz4Compression),
      enableBloomFilter := true,
      bloomFPR := 0.01,
      enableBlockIndexes := true,
      indexSampleRatio := 1,
      blockIndexPrefixLen := 16,
      syncMode := Some(SYNC_FULL),
      syncIntervalUs := 1000000,
      comparatorName := Some(""),
      skipListMaxLevel := 12,
      skipListProbability := 0.25,
      defaultIsolationLevel := Some(READ_COMMITTED),
      minDiskSpace := Mebibytes(100),
      l1FileCountTrigger := 4,
      l0QueueStallThreshold := 20))
  }

  // The twenty builder setters. Each changes its own field and nothing else.

  function SetWriteBufferSize(b: Builder, v: Int64): (r: Builder)
    ensures SetsOnly(b, r, WriteBufferSize, IntValue(v))
  {
    Builder(b.pending.(writeBufferSize := v))
  }

  function SetLevelSizeRatio(b: Builder, v: Int64): (r: Builder)
    ensures SetsOnly(b, r, LevelSizeRatio, IntValue(v))
  {
    Builder(b.pending.(levelSizeRatio := v))
  }

  function SetMinLevels(b: Builder, v: Int32): (r: Builder)
    ensures SetsOnly(b, r, MinLevels, IntValue(v))
  {
    Builder(b.pending.(minLevels := v))
  }

  function SetDividingLevelOffset(b: Builder, v: Int32): (r: Builder)
    ensures SetsOnly(b, r, DividingLevelOffset, IntValue(v))
  {
    Builder(b.pending.(dividingLevelOffset := v))
  }

  function SetKlogValueThreshold(b: Builder, v: Int64): (r: Builder)
    ensures SetsOnly(b, r, KlogValueThreshold, IntValue(v))
  {
    Builder(b.pending.(klogValueThreshold := v))
  }

  function SetCompressionAlgorithm(b: Builder, v: Option<CompressionAlgorithm>): (r: Builder)
    ensures SetsOnly(b, r, CompressionAlgorithmField, CompressionValue(v))
  {
    Builder(b.pending.(compressionAlgorithm := v))
  }

  function SetEnableBloomFilter(b: Builder, v: bool): (r: Builder)
    ensures SetsOnly(b, r, EnableBloomFilter, BoolValue(v))
  {
    Builder(b.pending.(enableBloomFilter := v))
  }

  function SetBloomFPR(b: Builder, v: real): (r: Builder)
    ensures SetsOnly(b, r, BloomFPR, RealValue(v))
  {
    Builder(b.pending.(bloomFPR := v))
  }

  function SetEnableBlockIndexes(b: Builder, v: bool): (r: Builder)
    ensures SetsOnly(b, r, EnableBlockIndexes, BoolValue(v))
  {
    Builder(b.pending.(enableBlockIndexes := v))
  }

  function SetIndexSampleRatio(b: Builder, v: Int32): (r: Builder)
    ensures SetsOnly(b, r, IndexSampleRatio, IntValue(v))
  {
    Builder(b.pending.(indexSampleRatio := v))
  }

  function SetBlockIndexPrefixLen(b: Builder, v: Int32): (r: Builder)
    ensures SetsOnly(b, r, BlockIndexPrefixLen, IntValue(v))
  {
    Builder(b.pending.(blockIndexPrefixLen := v))
  }

  function SetSyncMode(b: Builder, v: Option<SyncMode>): (r: Builder)
    ensures SetsOnly(b, r, SyncModeField, SyncValue(v))
  {
    Builder(b.pending.(syncMode := v))
  }

  function SetSyncIntervalUs(b: Builder, v: Int64): (r: Builder)
    ensures SetsOnly(b, r, SyncIntervalUs, IntValue(v))
  {
    Builder(b.pending.(syncIntervalUs := v))
  }

  function SetComparatorName(b: Builder, v: Option<string>): (r: Builder)
    ensures SetsOnly(b, r, ComparatorName, TextValue(v))
  {
    Builder(b.pending.(comparatorName := v))
  }

  function SetSkipListMaxLevel(b: Builder, v: Int32): (r: Builder)
    ensures SetsOnly(b, r, SkipListMaxLevel, IntValue(v))
  {
    Builder(b.pending.(skipListMaxLevel := v))
  }

  function SetSkipListProbability(b: Builder, v: real): (r: Builder)
    ensures SetsOnly(b, r, SkipListProbability, RealValue(v))
  {
    Builder(b.pending.(skipListProbability := v))
  }

  function SetDefaultIsolationLevel(b: Builder, v: Option<IsolationLevel>): (r: Builder)
    ensures SetsOnly(b, r, DefaultIsolationLevel, IsolationValue(v))
  {
    Builder(b.pending.(defaultIsolationLevel := v))
  }

  function SetMinDiskSpace(b: Builder, v: Int64): (r: Builder)
    ensures SetsOnly(b, r, MinDiskSpace, IntValue(v))
  {
    Builder(b.pending.(minDiskSpace := v))
  }

  function SetL1FileCountTrigger(b: Builder, v: Int32): (r: Builder)
    ensures SetsOnly(b, r, L1FileCountTrigger, IntValue(v))
  {
    Builder(b.pending.(l1FileCountTrigger := v))
  }

  function SetL0QueueStallThreshold(b: Builder, v: Int32): (r: Builder)
    ensures SetsOnly(b, r, L0QueueStallThreshold, IntValue(v))
  {
    Builder(b.pending.(l0QueueStallThreshold := v))
  }

  /** `build()`: a configuration whose every getter returns the builder's setting. */
  function Build(b: Builder): (c: ColumnFamilyConfig)
    ensures forall f :: Get(c, f) == Get(b.pending, f)
  {
    b.pending
  }

  /** `defaultConfig()`: a fresh builder put through all twenty setters with the
      default values, then built. */
  function DefaultConfig(): (c: ColumnFamilyConfig)
    ensures c == Build(NewBuilder())
    ensures c.compressionAlgorithm == Some(Lz4Compression) && c.syncMode == Some(SYNC_FULL)
    ensures c.defaultIsolationLevel == Some(READ_COMMITTED) && c.comparatorName == Some("")
  {
    var b0 := NewBuilder();
    var b1 := SetWriteBufferSize(b0, Mebibytes(128));
    var b2 := SetLevelSizeRatio(b1, 10);
    var b3 := SetMinLevels(b2, 5);
    var b4 := SetDividingLevelOffset(b3, 2);
    var b5 := SetKlogValueThreshold(b4, 512);
    var b6 := SetCompressionAlgorithm(b5, Some(Lz4Compression));
    var b7 := SetEnableBloomFilter(b6, true);
    var b8 := SetBloomFPR(b7, 0.01);
    var b9 := SetEnableBlockIndexes(b8, true);
    var b10 := SetIndexSampleRatio(b9, 1);
    var b11 := SetBlockIndexPrefixLen(b10, 16);
    var b12 := SetSyncMode(b11, Some(SYNC_FULL));
    var b13 := SetSyncIntervalUs(b12, 1000000);
    var b14 := SetComparatorName(b13, Some(""));
    var b15 := SetSkipListMaxLevel(b14, 12);
    var b16 := SetSkipListProbability(b15, 0.25);
    var b17 := SetDefaultIsolationLevel(b16, Some(READ_COMMITTED));
    var b18 := SetMinDiskSpace(b17, Mebibytes(100));
    var b19 := SetL1FileCountTrigger(b18, 4);
    var b20 := SetL0QueueStallThreshold(b19, 20);
    Build(b20)
  }

  /** `defaultConfig()` and `new Builder().build()` agree on every setting: each
      default setter re-stores the value the builder was initialised with. */
  lemma DefaultConfigIsBuilderDefault()
    ensures DefaultConfig() == Build(NewBuilder())
    ensures forall f :: Get(DefaultConfig(), f) == Get(NewBuilder().pending, f)
  {
  }
}
