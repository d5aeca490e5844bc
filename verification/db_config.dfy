/** `Config.java`: the six database-level settings, their builder and defaults. */
module DbConfig {
  import opened Primitives
  import opened LogLevels

  datatype Config = Config(
    dbPath: Option<string>,
    numFlushThreads: Int32,
    numCompactionThreads: Int32,
    logLevel: Option<LogLevel>,
    blockCacheSize: Int64,
    maxOpenSSTables: Int64)

  /** The builder holds the settings of the configuration it will build. */
  datatype Builder = Builder(pending: Config)

  datatype Field = DbPath | NumFlushThreads | NumCompactionThreads | LogLevelField | BlockCacheSize | MaxOpenSSTables

  datatype Value = TextValue(s: Option<string>) | IntValue(i: int) | LevelValue(l: Option<LogLevel>)

  /** The getter for field `f`. */
  function Get(c: Config, f: Field): Value
  {
    match f
    case DbPath => TextValue(c.dbPath)
    case NumFlushThreads => IntValue(c.numFlushThreads)
    case NumCompactionThreads => IntValue(c.numCompactionThreads)
    case LogLevelField => LevelValue(c.logLevel)
    case BlockCacheSize => IntValue(c.blockCacheSize)
    case MaxOpenSSTables => IntValue(c.maxOpenSSTables)
  }

  /** `r` differs from `b` at most in field `f`, where it holds `v`. */
  ghost predicate SetsOnly(b: Builder, r: Builder, f: Field, v: Value)
  {
    && Get(r.pending, f) == v
    && forall g :: g != f ==> Get(r.pending, g) == Get(b.pending, g)
  }

  /** `new Builder()`: the field initialisers; the path starts out empty. */
  function NewBuilder(): (b: Builder)
    ensures b.pending.dbPath == Some("")
    ensures b.pending.blockCacheSize == 67108864
  {
    Builder(Config(
      dbPath := Some(""),
      numFlushThreads := 2,
      numCompactionThreads := 2,
      logLevel := Some(Info),
      blockCacheSize := Mebibytes(64),
      maxOpenSSTables := 256))
  }

  function SetDbPath(b: Builder, v: Option<string>): (r: Builder)
    ensures SetsOnly(b, r, DbPath, TextValue(v))
  {
    Builder(b.pending.(dbPath := v))
  }

  function SetNumFlushThreads(b: Builder, v: Int32): (r: Builder)
    ensures SetsOnly(b, r, NumFlushThreads, IntValue(v))
  {
    Builder(b.pending.(numFlushThreads := v))
  }

  function SetNumCompactionThreads(b: Builder, v: Int32): (r: Builder)
    ensures SetsOnly(b, r, NumCompactionThreads, IntValue(v))
  {
    Builder(b.pending.(numCompactionThreads := v))
  }

  function SetLogLevel(b: Builder, v: Option<LogLevel>): (r: Builder)
    ensures SetsOnly(b, r, LogLevelField, LevelValue(v))
  {
    Builder(b.pending.(logLevel := v))
  }

  function SetBlockCacheSize(b: Builder, v: Int64): (r: Builder)
    ensures SetsOnly(b, r, BlockCacheSize, IntValue(v))
  {
    Builder(b.pending.(blockCacheSize := v))
  }

  function SetMaxOpenSSTables(b: Builder, v: Int64): (r: Builder)
    ensures SetsOnly(b, r, MaxOpenSSTables, IntValue(v))
  {
    Builder(b.pending.(maxOpenSSTables := v))
  }

  /** `build()`: a configuration whose every getter returns the builder's setting. */
  function Build(b: Builder): (c: Config)
    ensures forall f :: Get(c, f) == Get(b.pending, f)
  {
    b.pending
  }

  /** `Config.builder(dbPath)`: a fresh builder with only the path set. */
  function BuilderFor(dbPath: Option<string>): (b: Builder)
    ensures Get(b.pending, DbPath) == TextValue(dbPath)
    ensures forall f :: f != DbPath ==> Get(b.pending, f) == Get(NewBuilder().pending, f)
  {
    SetDbPath(NewBuilder(), dbPath)
  }

  /** `Config.defaultConfig()`: a fresh builder put through every setter except the
      path's, then built. */
  function DefaultConfig(): (c: Config)
    ensures c == Build(NewBuilder())
    ensures c.dbPath == Some("") && c.logLevel == Some(Info)
  {
    var b0 := NewBuilder();
    var b1 := SetNumFlushThreads(b0, 2);
    var b2 := SetNumCompactionThreads(b1, 2);
    var b3 := SetLogLevel(b2, Some(Info));
    var b4 := SetBlockCacheSize(b3, Mebibytes(64));
    var b5 := SetMaxOpenSSTables(b4, 256);
    Build(b5)
  }

  /** `defaultConfig()` never sets the path, so it keeps the builder's empty path, and
      every other setting equals the builder default. */
  lemma DefaultConfigHasEmptyPath()
    ensures DefaultConfig().dbPath == Some("")
    ensures DefaultConfig() == Build(NewBuilder())
    ensures forall f :: Get(DefaultConfig(), f) == Get(NewBuilder().pending, f)
  {
  }
}
